/** The new-order form (`app/dashboard/pedidos/nuevo/page.tsx`): `handleSubmit`
    builds an order record from the form and the stored clients and products and
    appends it to the stored orders. The id (`Date.now().toString()`) and the parsed
    quantity (`Number.parseInt`) come in as parameters. */
module PedidosNuevoPage {
  import opened Wrappers
  import opened Domain
  import opened Lists
  import opened Records

  /** The form's fields, all strings as the inputs hold them. */
  datatype OrderForm = OrderForm(clienteId: string, productoId: string, cantidad: string, fechaEntrega: string)

  /** `clientes.find((c) => c.id === id)?.nombre || ""` */
  function ClientName(cs: seq<Cliente>, id: string): (n: string)
    ensures (forall k :: 0 <= k < |cs| ==> cs[k].id != id) ==> n == ""
    ensures forall k :: 0 <= k < |cs| && cs[k].id == id && (forall j :: 0 <= j < k ==> cs[j].id != id) ==> n == cs[k].nombre
  {
    match FindFirst(cs, (c: Cliente) => c.id == id)
    case Some(k) => cs[k].nombre
    case None => ""
  }

  /** `productos.find((p) => p.id === id)?.nombre || ""` */
  function ProductName(ps: seq<Producto>, id: string): (n: string)
    ensures (forall k :: 0 <= k < |ps| ==> ps[k].id != id) ==> n == ""
    ensures forall k :: 0 <= k < |ps| && ps[k].id == id && (forall j :: 0 <= j < k ==> ps[j].id != id) ==> n == ps[k].nombre
  {
    match FindFirst(ps, (p: Producto) => p.id == id)
    case Some(k) => ps[k].nombre
    case None => ""
  }

  /** `nuevoPedido`: ids and date copied from the form, names looked up, state
      `Pendiente`. */
  function NewOrder(form: OrderForm, cs: seq<Cliente>, ps: seq<Producto>, id: string, cantidad: JsNumber): (o: Pedido)
    ensures o.id == id && o.estado == Pendiente && o.cantidad == cantidad
    ensures o.clienteId == form.clienteId && o.productoId == form.productoId && o.fechaEntrega == form.fechaEntrega
    ensures o.clienteNombre == ClientName(cs, form.clienteId) && o.productoNombre == ProductName(ps, form.productoId)
  {
    Pedido(id, form.clienteId, ClientName(cs, form.clienteId), form.productoId,
      ProductName(ps, form.productoId), cantidad, form.fechaEntrega, Pendiente)
  }

  /** What `handleSubmit` leaves behind: the storage, and where the router goes. */
  datatype Submitted = Submitted(storage: Storage, navigateTo: string)

  /** `handleSubmit`: the stored orders (or `[]`) with the new record appended, written
      back under `"pedidos"`; then the orders page. */
  function Submit(s: Storage, form: OrderForm, id: string, cantidad: JsNumber): (r: Submitted)
    ensures r.storage.pedidos == Some(StoredOrders(s) + [NewOrder(form, StoredClients(s), StoredProducts(s), id, cantidad)])
    ensures r.storage.user == s.user && r.storage.clientes == s.clientes
    ensures r.storage.productos == s.productos && r.storage.others == s.others
    ensures r.navigateTo == "/dashboard/pedidos"
  {
    var o := NewOrder(form, StoredClients(s), StoredProducts(s), id, cantidad);
    Submitted(s.(pedidos := Some(StoredOrders(s) + [o])), "/dashboard/pedidos")
  }

  /** One pending record is appended after the old ones, which keep their places; the
      products, and so their stock, are untouched. */
  lemma SubmitAppendsOne(s: Storage, form: OrderForm, id: string, cantidad: JsNumber)
    ensures var after := StoredOrders(Submit(s, form, id, cantidad).storage);
      && |after| == |StoredOrders(s)| + 1
      && after[..|StoredOrders(s)|] == StoredOrders(s)
      && after[|StoredOrders(s)|].estado == Pendiente
      && after[|StoredOrders(s)|].clienteId == form.clienteId
      && after[|StoredOrders(s)|].productoId == form.productoId
      && after[|StoredOrders(s)|].fechaEntrega == form.fechaEntrega
    ensures StoredProducts(Submit(s, form, id, cantidad).storage) == StoredProducts(s)
  {
  }

  /** The pending count grows by exactly one. */
  lemma {:induction false} SubmitAddsOnePending(s: Storage, form: OrderForm, id: string, cantidad: JsNumber)
    ensures var after := StoredOrders(Submit(s, form, id, cantidad).storage);
      |Filter(after, (p: Pedido) => p.estado == Pendiente)| == |Filter(StoredOrders(s), (p: Pedido) => p.estado == Pendiente)| + 1
  {
    var o := NewOrder(form, StoredClients(s), StoredProducts(s), id, cantidad);
    FilterAppend(StoredOrders(s), [o], (p: Pedido) => p.estado == Pendiente);
    FilterSingleton(o, (p: Pedido) => p.estado == Pendiente);
  }
}
