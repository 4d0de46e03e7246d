/** The dashboard (`app/dashboard/page.tsx`): the four figures computed from
    `localStorage` when the page loads, and the greeting. */
module DashboardPage {
  import opened Wrappers
  import opened Domain
  import opened Text
  import opened Lists
  import opened Records
  import opened PedidosPage

  datatype Stats = Stats(clientes: nat, productos: nat, pedidosPendientes: nat, pedidosEntregados: nat)

  /** The `useEffect` that loads the statistics. */
  function ComputeStats(s: Storage): (st: Stats)
    ensures st.clientes == |StoredClients(s)| && st.productos == |StoredProducts(s)|
    ensures st.pedidosPendientes == |Positions(StoredOrders(s), (p: Pedido) => p.estado == Pendiente)|
    ensures st.pedidosEntregados == |Positions(StoredOrders(s), (p: Pedido) => p.estado == Entregado)|
    ensures st.pedidosPendientes + st.pedidosEntregados <= |StoredOrders(s)|
  {
    var os := StoredOrders(s);
    CountIsPositions(os, Pendiente);
    CountIsPositions(os, Entregado);
    PendingPlusDeliveredBounded(os);
    Stats(|StoredClients(s)|, |StoredProducts(s)|, CountWith(os, Pendiente), CountWith(os, Entregado))
  }

  /** With nothing stored every figure is zero. */
  lemma EmptyStorageStats(others: map<string, string>)
    ensures ComputeStats(Storage(None, None, None, None, others)) == Stats(0, 0, 0, 0)
  {
  }

  /** The name shown when there is none to show. */
  const DefaultName: string := "Usuario"

  /** `user?.nombre?.split(" ")[0] || "Usuario"` */
  function Greeting(user: Option<User>): (g: string)
    ensures g != "" && ' ' !in g
    ensures user.None? || user.value.nombre.None? ==> g == DefaultName
    ensures user.Some? && user.value.nombre.Some? ==>
      g == if FirstWord(user.value.nombre.value) == "" then DefaultName else FirstWord(user.value.nombre.value)
  {
    if user.None? || user.value.nombre.None? then DefaultName
    else
      var w := FirstWord(user.value.nombre.value);
      if w == "" then DefaultName else w
  }

  /** A name that does not start with a space is greeted by its first word: the longest
      space-free prefix. */
  lemma GreetingIsFirstWord(u: User)
    requires u.nombre.Some? && u.nombre.value != "" && u.nombre.value[0] != ' '
    ensures StartsWith(u.nombre.value, Greeting(Some(u)))
    ensures Greeting(Some(u)) == u.nombre.value || u.nombre.value[|Greeting(Some(u))|] == ' '
  {
    var n := u.nombre.value;
    FirstWordIsPrefix(n);
    assert FirstWord(n) != "";
  }

  /** A name starting with a space has an empty first word and is greeted as "Usuario". */
  lemma LeadingSpaceGreetsDefault(u: User)
    requires u.nombre.Some? && u.nombre.value != "" && u.nombre.value[0] == ' '
    ensures Greeting(Some(u)) == DefaultName
  {
    FirstWordIsPrefix(u.nombre.value);
  }
}
