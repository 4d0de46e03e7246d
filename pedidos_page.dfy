/** The orders page (`app/dashboard/pedidos/page.tsx`): the list edits on the orders
    kept in `localStorage`, the counts, the date shown on each card and the in-place
    newest-first sort of the state array. */
module PedidosPage {
  import opened Domain
  import opened Text
  import opened Dates
  import opened Lists
  import opened Records

  /** The `i`-th piece of a destructuring `const [a, b, c] = parts`, printed in a
      template literal: a missing piece prints as `undefined`. */
  function Piece(parts: seq<string>, i: nat): string {
    if i < |parts| then parts[i] else "undefined"
  }

  /** `formatearFecha(fecha)` */
  function FormatDate(fecha: string): string {
    var parts := Split(fecha, '-');
    Piece(parts, 2) + "-" + Piece(parts, 1) + "-" + Piece(parts, 0)
  }

  /** Three dash-free pieces joined by dashes split back into those pieces. */
  lemma SplitThree(a: string, b: string, c: string)
    requires '-' !in a && '-' !in b && '-' !in c
    ensures Split(a + "-" + b + "-" + c, '-') == [a, b, c]
  {
    var ps := [a, b, c];
    assert ps[1..] == [b, c];
    assert ps[1..][1..] == [c];
    assert Join([c], '-') == c;
    assert Join([b, c], '-') == b + "-" + c;
    assert Join(ps, '-') == a + "-" + (b + "-" + c);
    assert a + "-" + (b + "-" + c) == a + "-" + b + "-" + c;
    SplitJoin(ps, '-');
  }

  /** `"Y-M-D"` is shown as `"D-M-Y"`: the three dash-separated pieces reversed. */
  lemma {:induction false} FormatDateReversesPieces(y: string, m: string, d: string)
    requires '-' !in y && '-' !in m && '-' !in d
    ensures FormatDate(y + "-" + m + "-" + d) == d + "-" + m + "-" + y
  {
    SplitThree(y, m, d);
  }

  /** For a stored `YYYY-MM-DD` date that is day, month and year. */
  lemma FormatIsoDate(s: string)
    requires MatchesIsoPattern(s)
    ensures FormatDate(s) == s[8..10] + "-" + s[5..7] + "-" + s[0..4]
  {
    var y, m, d := s[0..4], s[5..7], s[8..10];
    assert s == y + "-" + m + "-" + d;
    assert forall k :: 0 <= k < 4 ==> y[k] == s[k] && IsDigit(s[k]);
    assert forall k :: 0 <= k < 2 ==> m[k] == s[5 + k] && IsDigit(s[5 + k]);
    assert forall k :: 0 <= k < 2 ==> d[k] == s[8 + k] && IsDigit(s[8 + k]);
    FormatDateReversesPieces(y, m, d);
  }

  /** Reformatting a reformatted date gives the stored text back. */
  lemma FormatDateInvolution(y: string, m: string, d: string)
    requires '-' !in y && '-' !in m && '-' !in d
    ensures FormatDate(FormatDate(y + "-" + m + "-" + d)) == y + "-" + m + "-" + d
  {
    FormatDateReversesPieces(y, m, d);
    FormatDateReversesPieces(d, m, y);
  }

  /** A date without any dash leaves the day and month `undefined`. */
  lemma FormatDateWithoutDash(s: string)
    requires '-' !in s
    ensures FormatDate(s) == "undefined-undefined-" + s
  {
    SplitNoSeparator(s, '-');
  }

  /** `cambiarEstado(id, nuevoEstado)`: the orders with that id get the new state and
      keep every other field; the other orders stay as they were. */
  function ChangeStatus(os: seq<Pedido>, id: string, nuevo: Estado): (r: seq<Pedido>)
    ensures |r| == |os|
    ensures forall k :: 0 <= k < |os| && os[k].id != id ==> r[k] == os[k]
    ensures forall k :: 0 <= k < |os| && os[k].id == id ==>
      r[k].estado == nuevo && r[k].(estado := os[k].estado) == os[k]
  {
    seq(|os|, k requires 0 <= k < |os| => if os[k].id == id then os[k].(estado := nuevo) else os[k])
  }

  /** `eliminarPedido(id)` */
  function RemoveOrder(os: seq<Pedido>, id: string): (r: seq<Pedido>)
    ensures forall k :: 0 <= k < |r| ==> r[k].id != id && r[k] in os
    ensures forall k :: 0 <= k < |os| && os[k].id != id ==> os[k] in r
  {
    Filter(os, (p: Pedido) => p.id != id)
  }

  /** Removal drops exactly the orders with that id and keeps the rest in order. */
  lemma RemoveOrderExact(os: seq<Pedido>, id: string)
    ensures Subsequence(RemoveOrder(os, id), os)
    ensures |RemoveOrder(os, id)| == |os| - |Filter(os, (p: Pedido) => p.id == id)|
  {
    var keep := (p: Pedido) => p.id != id;
    FilterIsSubsequence(os, keep);
    ComplementaryFilters(os, keep, (p: Pedido) => p.id == id);
  }

  /** `pedidos.filter((p) => p.estado === e).length` */
  function CountWith(os: seq<Pedido>, e: Estado): (n: nat)
    ensures n <= |os|
  {
    |Filter(os, (p: Pedido) => p.estado == e)|
  }

  /** Each count is the number of positions holding an order in that state. */
  lemma CountIsPositions(os: seq<Pedido>, e: Estado)
    ensures CountWith(os, e) == |Positions(os, (p: Pedido) => p.estado == e)|
  {
    FilterLengthCountsPositions(os, (p: Pedido) => p.estado == e);
  }

  /** No order is both pending and delivered, so the two counts fit in the total. */
  lemma PendingPlusDeliveredBounded(os: seq<Pedido>)
    ensures CountWith(os, Pendiente) + CountWith(os, Entregado) <= |os|
  {
    DisjointFiltersBounded(os, (p: Pedido) => p.estado == Pendiente, (p: Pedido) => p.estado == Entregado);
  }

  /** Marking the one order with an id as delivered moves it from one count to the other. */
  lemma {:induction false} MarkDeliveredMovesCount(os: seq<Pedido>, id: string, k: nat)
    requires k < |os| && os[k].id == id && os[k].estado == Pendiente
    requires forall j :: 0 <= j < |os| && j != k ==> os[j].id != id
    ensures CountWith(ChangeStatus(os, id, Entregado), Pendiente) == CountWith(os, Pendiente) - 1
    ensures CountWith(ChangeStatus(os, id, Entregado), Entregado) == CountWith(os, Entregado) + 1
    decreases |os|
  {
    var r := ChangeStatus(os, id, Entregado);
    assert r[1..] == ChangeStatus(os[1..], id, Entregado);
    if k == 0 {
      assert forall j :: 0 <= j < |os[1..]| ==> os[1..][j].id != id;
      assert ChangeStatus(os[1..], id, Entregado) == os[1..];
    } else {
      MarkDeliveredMovesCount(os[1..], id, k - 1);
      assert r[0] == os[0];
    }
  }

  /** The buttons on an order's card. */
  datatype Action = MarkDelivered | Delete

  /** "Marcar Entregado" is offered only for a pending order; deleting, always. */
  function CardActions(p: Pedido): (r: set<Action>)
    ensures Delete in r
    ensures MarkDelivered in r <==> p.estado == Pendiente
  {
    if p.estado == Pendiente then {MarkDelivered, Delete} else {Delete}
  }

  /** Once marked delivered, an order no longer offers the button. */
  lemma MarkedOrdersLoseButton(os: seq<Pedido>, id: string, k: nat)
    requires k < |os| && os[k].id == id
    ensures MarkDelivered !in CardActions(ChangeStatus(os, id, Entregado)[k])
  {
  }

  /** The key `new Date(fechaEntrega).getTime()` orders by. */
  function DeliveryKey(p: Pedido): int {
    TimeKey(p.fechaEntrega)
  }

  /** The comparator `b.time - a.time`: a later delivery first. */
  predicate LaterFirst(a: Pedido, b: Pedido) {
    DeliveryKey(a) >= DeliveryKey(b)
  }

  lemma LaterFirstTotal()
    ensures Total(LaterFirst)
  {
  }

  /** `pedidos.sort(...)` on the state array, in place. */
  method SortNewestFirst(a: array<Pedido>)
    modifies a
    ensures SortedBy(a[..], LaterFirst)
    ensures multiset(a[..]) == multiset(old(a[..]))
    ensures SameTies(a[..], old(a[..]), DeliveryKey)
  {
    SortDescending(a, DeliveryKey);
  }

  /** Insertion sort by swaps, largest key first. Only neighbours with different
      keys are exchanged, so tied elements keep their relative order, as in
      JavaScript's stable sort. */
  method SortDescending<T>(a: array<T>, key: T -> int)
    modifies a
    ensures Descending(a[..], key, 0, a.Length)
    ensures multiset(a[..]) == multiset(old(a[..]))
    ensures SameTies(a[..], old(a[..]), key)
  {
    var i := 0;
    while i < a.Length
      invariant 0 <= i <= a.Length
      invariant Descending(a[..], key, 0, i)
      invariant multiset(a[..]) == multiset(old(a[..]))
      invariant SameTies(a[..], old(a[..]), key)
    {
      ghost var before := a[..];
      SinkIntoPlace(a, key, i);
      SameTiesTrans(a[..], before, old(a[..]), key);
      i := i + 1;
    }
  }

  /** Keys do not increase from position `lo` up to position `hi - 1`. */
  predicate Descending<T>(s: seq<T>, key: T -> int, lo: int, hi: int) {
    forall k :: 0 <= k && lo <= k && k + 1 < hi && k + 1 < |s| ==> key(s[k]) >= key(s[k + 1])
  }

  /** In a sequence sorted by descending key, no key exceeds the first one. */
  lemma {:induction false} DescendingBelowHead<T>(s: seq<T>, key: T -> int, i: nat)
    requires Descending(s, key, 0, |s|) && i < |s|
    ensures key(s[i]) <= key(s[0])
  {
    if i > 0 {
      DescendingBelowHead(s, key, i - 1);
      assert key(s[i - 1]) >= key(s[i]);
    }
  }

  /** A key no element has selects nothing. */
  lemma {:induction false} NoTies<T>(s: seq<T>, key: T -> int, k: int)
    requires forall i :: 0 <= i < |s| ==> key(s[i]) != k
    ensures Ties(s, key, k) == []
    decreases |s|
  {
    if s != [] {
      NoTies(s[1..], key, k);
    }
  }

  /** The first element of a sequence is the first of its ties. */
  lemma TiesOfHead<T>(s: seq<T>, key: T -> int)
    requires s != []
    ensures Ties(s, key, key(s[0])) == [s[0]] + Ties(s[1..], key, key(s[0]))
    ensures forall k :: k != key(s[0]) ==> Ties(s[1..], key, k) == Ties(s, key, k)
  {
  }

  /** Two descending sequences with the same ties start with the same element. */
  lemma SameHead<T>(s: seq<T>, t: seq<T>, key: T -> int)
    requires s != [] && Descending(s, key, 0, |s|) && Descending(t, key, 0, |t|)
    requires SameTies(s, t, key)
    ensures t != [] && t[0] == s[0]
  {
    TiesOfHead(s, key);
    assert Ties(t, key, key(s[0])) != [];
    TiesOfHead(t, key);
    var k0, k1 := key(s[0]), key(t[0]);
    if k1 > k0 {
      forall i | 0 <= i < |s| ensures key(s[i]) != k1 {
        DescendingBelowHead(s, key, i);
      }
      NoTies(s, key, k1);
      assert false;
    } else if k0 > k1 {
      forall i | 0 <= i < |t| ensures key(t[i]) != k0 {
        DescendingBelowHead(t, key, i);
      }
      NoTies(t, key, k0);
      assert false;
    }
  }

  /** Dropping a common first element keeps the ties equal. */
  lemma SameTiesTail<T>(s: seq<T>, t: seq<T>, key: T -> int)
    requires s != [] && t != [] && s[0] == t[0] && SameTies(s, t, key)
    ensures SameTies(s[1..], t[1..], key)
  {
    TiesOfHead(s, key);
    TiesOfHead(t, key);
    var k0 := key(s[0]);
    assert Ties(s[1..], key, k0) == Ties(s, key, k0)[1..];
    assert Ties(t[1..], key, k0) == Ties(t, key, k0)[1..];
  }

  lemma DescendingTail<T>(s: seq<T>, key: T -> int)
    requires s != [] && Descending(s, key, 0, |s|)
    ensures Descending(s[1..], key, 0, |s| - 1)
  {
    forall j | 0 <= j && j + 1 < |s| - 1 ensures key(s[1..][j]) >= key(s[1..][j + 1]) {
      assert key(s[j + 1]) >= key(s[j + 2]);
    }
  }

  /** Sorting by descending key while keeping every tie in its order has exactly one
      outcome, so `SortDescending` computes the stable sort. */
  lemma {:induction false} StableSortUnique<T>(s: seq<T>, t: seq<T>, key: T -> int)
    requires Descending(s, key, 0, |s|) && Descending(t, key, 0, |t|)
    requires SameTies(s, t, key)
    ensures s == t
    decreases |s|
  {
    if s == [] {
      if t != [] {
        SameHead(t, s, key);
      }
    } else {
      SameHead(s, t, key);
      SameTiesTail(s, t, key);
      DescendingTail(s, key);
      DescendingTail(t, key);
      StableSortUnique(s[1..], t[1..], key);
      assert s == [s[0]] + s[1..] && t == [t[0]] + t[1..];
    }
  }

  /** One insertion step: `a[i]` moves left past every smaller key, so the sorted
      prefix grows by one. */
  method SinkIntoPlace<T>(a: array<T>, key: T -> int, i: int)
    requires 0 <= i < a.Length
    requires Descending(a[..], key, 0, i)
    modifies a
    ensures Descending(a[..], key, 0, i + 1)
    ensures multiset(a[..]) == multiset(old(a[..]))
    ensures SameTies(a[..], old(a[..]), key)
  {
    var j := i;
    while j > 0 && key(a[j - 1]) < key(a[j])
      invariant 0 <= j <= i
      invariant Descending(a[..], key, 0, j) && Descending(a[..], key, j, i + 1)
      invariant 0 < j < i ==> key(a[j - 1]) >= key(a[j + 1])
      invariant multiset(a[..]) == multiset(old(a[..]))
      invariant SameTies(a[..], old(a[..]), key)
    {
      ghost var before := a[..];
      a[j - 1], a[j] := a[j], a[j - 1];
      assert a[..] == before[j - 1 := before[j]][j := before[j - 1]];
      SwapStep(before, a[..], key, i, j);
      SameTiesTrans(a[..], before, old(a[..]), key);
      j := j - 1;
    }
    SinkStops(a[..], key, i, j);
  }

  /** Where the insertion step stops, the two sorted runs join into one. */
  lemma SinkStops<T>(s: seq<T>, key: T -> int, i: int, j: int)
    requires 0 <= j <= i < |s|
    requires Descending(s, key, 0, j) && Descending(s, key, j, i + 1)
    requires 0 < j < i ==> key(s[j - 1]) >= key(s[j + 1])
    requires j == 0 || key(s[j - 1]) >= key(s[j])
    ensures Descending(s, key, 0, i + 1)
  {
    forall k | 0 <= k && k + 1 < i + 1 && k + 1 < |s| ensures key(s[k]) >= key(s[k + 1]) {
      // the three cases: inside the left part, across the stop point, inside the right part
      if k + 1 < j {
      } else if k + 1 == j {
      } else {
      }
    }
  }

  /** The swap of one insertion step keeps the loop's ordering facts, one place left. */
  lemma SwapStep<T>(before: seq<T>, after: seq<T>, key: T -> int, i: int, j: int)
    requires 0 < j <= i < |before|
    requires after == before[j - 1 := before[j]][j := before[j - 1]]
    requires Descending(before, key, 0, j) && Descending(before, key, j, i + 1)
    requires j < i ==> key(before[j - 1]) >= key(before[j + 1])
    requires key(before[j - 1]) < key(before[j])
    ensures Descending(after, key, 0, j - 1) && Descending(after, key, j - 1, i + 1)
    ensures 0 < j - 1 < i ==> key(after[j - 2]) >= key(after[j])
    ensures multiset(after) == multiset(before)
    ensures SameTies(after, before, key)
  {
    SwapKeepsMultiset(before, j - 1, j);
    SwapKeepsTies(before, j, key);
  }

  /** Exchanging two elements keeps the multiset. */
  lemma SwapKeepsMultiset<T>(s: seq<T>, i: nat, j: nat)
    requires i < |s| && j < |s|
    ensures multiset(s[i := s[j]][j := s[i]]) == multiset(s)
  {
  }
}
