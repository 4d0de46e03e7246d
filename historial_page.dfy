/** The history page (`app/dashboard/historial/page.tsx`): the client and state
    filters over the stored orders, their reset, the counts, and the filtered copy
    sorted newest first. */
module HistorialPage {
  import opened Domain
  import opened Lists
  import opened Records
  import opened PedidosPage

  /** The values of the two select boxes; `""` until something is chosen. */
  datatype Filters = Filters(cliente: string, estado: string)

  /** The value of the "Todos los clientes" and "Todos los estados" items. */
  const AllOption: string := "all"

  /** The filter as written: a non-empty value is compared literally. */
  predicate KeepsAsWritten(p: Pedido, f: Filters) {
    (f.cliente == "" || p.clienteId == f.cliente) && (f.estado == "" || p.estado.Name() == f.estado)
  }

  /** `pedidosFiltrados` as written. */
  function FilterOrdersAsWritten(os: seq<Pedido>, f: Filters): (r: seq<Pedido>)
    ensures forall k :: 0 <= k < |r| ==> r[k] in os && KeepsAsWritten(r[k], f)
    ensures forall k :: 0 <= k < |os| && KeepsAsWritten(os[k], f) ==> os[k] in r
  {
    Filter(os, (p: Pedido) => KeepsAsWritten(p, f))
  }

  /** No state is stored as `"all"`. */
  lemma NoStateNamedAll(e: Estado)
    ensures e.Name() != AllOption
  {
    assert e.Name()[0] != AllOption[0];
  }

  /** As written, choosing "Todos los estados" hides every order. */
  lemma AllStatesShowsNothing(os: seq<Pedido>, cliente: string)
    ensures FilterOrdersAsWritten(os, Filters(cliente, AllOption)) == []
  {
    forall k | 0 <= k < |os| ensures !KeepsAsWritten(os[k], Filters(cliente, AllOption)) {
      NoStateNamedAll(os[k].estado);
    }
    FilterKeepsNone(os, (p: Pedido) => KeepsAsWritten(p, Filters(cliente, AllOption)));
  }

  /** As written, choosing "Todos los clientes" hides every order whose client id is not
      the text `"all"` (the ids are `Date.now()` strings). */
  lemma AllClientsShowsNothing(os: seq<Pedido>, estado: string)
    requires forall k :: 0 <= k < |os| ==> os[k].clienteId != AllOption
    ensures FilterOrdersAsWritten(os, Filters(AllOption, estado)) == []
  {
    FilterKeepsNone(os, (p: Pedido) => KeepsAsWritten(p, Filters(AllOption, estado)));
  }

  /** A select box restricts the list only when it holds a value other than `""` and
      the "all" item. */
  predicate Restricts(v: string) {
    v != "" && v != AllOption
  }

  /** The filter as evidently intended: the "all" items mean "no filter". */
  predicate Keeps(p: Pedido, f: Filters) {
    (!Restricts(f.cliente) || p.clienteId == f.cliente) && (!Restricts(f.estado) || p.estado.Name() == f.estado)
  }

  /** `pedidosFiltrados`, with the "all" items taken as "no filter". */
  function FilterOrders(os: seq<Pedido>, f: Filters): (r: seq<Pedido>)
    ensures forall k :: 0 <= k < |r| ==> r[k] in os && Keeps(r[k], f)
    ensures forall k :: 0 <= k < |os| && Keeps(os[k], f) ==> os[k] in r
  {
    Filter(os, (p: Pedido) => Keeps(p, f))
  }

  /** Both "all" items show every order. */
  lemma AllOptionsShowEverything(os: seq<Pedido>)
    ensures FilterOrders(os, Filters(AllOption, AllOption)) == os
  {
    FilterKeepsAll(os, (p: Pedido) => Keeps(p, Filters(AllOption, AllOption)));
  }

  /** With neither box on "all", the corrected filter is the written one. */
  lemma FilterAgreesWithoutAll(os: seq<Pedido>, f: Filters)
    requires f.cliente != AllOption && f.estado != AllOption
    ensures FilterOrders(os, f) == FilterOrdersAsWritten(os, f)
  {
    FilterExtensional(os, (p: Pedido) => Keeps(p, f), (p: Pedido) => KeepsAsWritten(p, f));
  }

  /** The two boxes are conjoined: filtering by both is filtering by client, then by state. */
  lemma FiltersConjoin(os: seq<Pedido>, f: Filters)
    ensures FilterOrders(os, f)
         == Filter(Filter(os, (p: Pedido) => Keeps(p, Filters(f.cliente, ""))), (p: Pedido) => Keeps(p, Filters("", f.estado)))
  {
    FilterConjunction(os, (p: Pedido) => Keeps(p, Filters(f.cliente, "")),
      (p: Pedido) => Keeps(p, Filters("", f.estado)), (p: Pedido) => Keeps(p, f));
  }

  /** Choosing a state shows exactly the orders counted for it. */
  lemma StateFilterMatchesCount(os: seq<Pedido>, e: Estado)
    ensures FilterOrders(os, Filters("", e.Name())) == Filter(os, (p: Pedido) => p.estado == e)
    ensures |FilterOrders(os, Filters("", e.Name()))| == CountWith(os, e)
  {
    forall p: Pedido ensures Keeps(p, Filters("", e.Name())) == (p.estado == e) {
      NoStateNamedAll(e);
      NameInjective(p.estado, e);
    }
    FilterExtensional(os, (p: Pedido) => Keeps(p, Filters("", e.Name())), (p: Pedido) => p.estado == e);
  }

  /** The filtered list keeps the stored order of what it shows. */
  lemma FilteredIsSubsequence(os: seq<Pedido>, f: Filters)
    ensures Subsequence(FilterOrders(os, f), os)
  {
    FilterIsSubsequence(os, (p: Pedido) => Keeps(p, f));
  }

  /** `limpiarFiltros` */
  function ClearFilters(): (f: Filters)
    ensures !Restricts(f.cliente) && !Restricts(f.estado)
  {
    Filters("", "")
  }

  /** After clearing, every order is shown. */
  lemma ClearedFiltersShowEverything(os: seq<Pedido>)
    ensures FilterOrders(os, ClearFilters()) == os
    ensures FilterOrdersAsWritten(os, ClearFilters()) == os
  {
    FilterKeepsAll(os, (p: Pedido) => Keeps(p, ClearFilters()));
    FilterKeepsAll(os, (p: Pedido) => KeepsAsWritten(p, ClearFilters()));
  }

  /** The three figures at the top of the page. */
  datatype Counts = Counts(total: nat, delivered: nat, pending: nat)

  /** `totalPedidos`, `pedidosEntregados`, `pedidosPendientes` */
  function HistoryCounts(os: seq<Pedido>): (c: Counts)
    ensures c.total == |os|
    ensures c.delivered == |Positions(os, (p: Pedido) => p.estado == Entregado)|
    ensures c.pending == |Positions(os, (p: Pedido) => p.estado == Pendiente)|
    ensures c.delivered + c.pending <= c.total
  {
    PendingPlusDeliveredBounded(os);
    CountIsPositions(os, Entregado);
    CountIsPositions(os, Pendiente);
    Counts(|os|, CountWith(os, Entregado), CountWith(os, Pendiente))
  }

  /** `pedidosFiltrados.sort(...)` as the page runs it: the orders kept by the filter
      as written, copied and sorted in place newest first; orders due the same day
      keep their stored order. */
  method ShownOrders(os: seq<Pedido>, f: Filters) returns (a: array<Pedido>)
    ensures fresh(a)
    ensures SortedBy(a[..], LaterFirst)
    ensures multiset(a[..]) == multiset(FilterOrdersAsWritten(os, f))
    ensures SameTies(a[..], FilterOrdersAsWritten(os, f), DeliveryKey)
  {
    var shown := FilterOrdersAsWritten(os, f);
    a := new Pedido[|shown|](k requires 0 <= k < |shown| => shown[k]);
    assert a[..] == shown;
    SortNewestFirst(a);
  }

  /** The list the page evidently means to show: the same, but with the corrected
      filter, so that the "all" options restrict nothing. */
  method ShownOrdersCorrected(os: seq<Pedido>, f: Filters) returns (a: array<Pedido>)
    ensures fresh(a)
    ensures SortedBy(a[..], LaterFirst)
    ensures multiset(a[..]) == multiset(FilterOrders(os, f))
    ensures SameTies(a[..], FilterOrders(os, f), DeliveryKey)
  {
    var shown := FilterOrders(os, f);
    a := new Pedido[|shown|](k requires 0 <= k < |shown| => shown[k]);
    assert a[..] == shown;
    SortNewestFirst(a);
  }
}
