/** The records the dashboard pages keep in the browser's `localStorage`, and the
    storage itself. */
module Records {
  import opened Wrappers
  import opened Domain

  /** The pages' `Producto`: ids are strings there. */
  datatype Producto = Producto(id: string, nombre: string, cantidad: int)

  /** The pages' `Cliente`: every field a string, as typed in the form. */
  datatype Cliente = Cliente(id: string, nombre: string, telefono: string, direccion: string)

  /** The pages' `Pedido`; `cantidad` is whatever `Number.parseInt` made of the form field. */
  datatype Pedido = Pedido(
    id: string,
    clienteId: string,
    clienteNombre: string,
    productoId: string,
    productoNombre: string,
    cantidad: JsNumber,
    fechaEntrega: string,
    estado: Estado)

  /** The signed-in user as stored under `"user"`; `nombre` may be missing. */
  datatype User = User(nombre: Option<string>, email: string, fotoUrl: string)

  /** `localStorage`: the four keys the pages use, each present or absent, and every
      other key as raw text. */
  datatype Storage = Storage(
    user: Option<User>,
    clientes: Option<seq<Cliente>>,
    productos: Option<seq<Producto>>,
    pedidos: Option<seq<Pedido>>,
    others: map<string, string>)

  /** `JSON.parse(localStorage.getItem("clientes") || "[]")` */
  function StoredClients(s: Storage): (cs: seq<Cliente>)
    ensures s.clientes.Some? ==> cs == s.clientes.value
    ensures s.clientes.None? ==> cs == []
  {
    s.clientes.GetOr([])
  }

  /** `JSON.parse(localStorage.getItem("productos") || "[]")` */
  function StoredProducts(s: Storage): (ps: seq<Producto>)
    ensures s.productos.Some? ==> ps == s.productos.value
    ensures s.productos.None? ==> ps == []
  {
    s.productos.GetOr([])
  }

  /** `JSON.parse(localStorage.getItem("pedidos") || "[]")` */
  function StoredOrders(s: Storage): (os: seq<Pedido>)
    ensures s.pedidos.Some? ==> os == s.pedidos.value
    ensures s.pedidos.None? ==> os == []
  {
    s.pedidos.GetOr([])
  }

  /** The four `localStorage.removeItem` calls of a logout: `"user"`, `"clientes"`,
      `"productos"` and `"pedidos"` go, every other key stays. */
  function RemoveSessionKeys(s: Storage): (r: Storage)
    ensures r.user.None? && r.clientes.None? && r.productos.None? && r.pedidos.None?
    ensures r.others == s.others
  {
    Storage(None, None, None, None, s.others)
  }
}
