/** The three MySQL tables the API routes share (`clientes`, `productos`,
    `pedidos`), their keys and constraints, and the statements the routes run. */
module Database {
  import opened Wrappers
  import opened Domain

  datatype ClientRow = ClientRow(
    id: nat, userId: UserId, nombre: string, telefono: Option<string>, direccion: Option<string>)

  datatype ProductRow = ProductRow(id: nat, userId: UserId, nombre: string, cantidad: int)

  datatype OrderRow = OrderRow(
    id: nat, userId: UserId, clienteId: int, productoId: int, cantidad: int,
    fechaEntrega: string, estado: Estado)

  /** The contents of the three tables at one moment. */
  datatype Tables = Tables(clientes: seq<ClientRow>, productos: seq<ProductRow>, pedidos: seq<OrderRow>)

  /** AUTO_INCREMENT primary keys: strictly increasing in insertion order and below
      the next key to be handed out. */
  predicate ClientKeys(cs: seq<ClientRow>, next: nat) {
    && (forall i, j :: 0 <= i < j < |cs| ==> cs[i].id < cs[j].id)
    && (forall i :: 0 <= i < |cs| ==> cs[i].id < next)
  }

  predicate ProductKeys(ps: seq<ProductRow>, next: nat) {
    && (forall i, j :: 0 <= i < j < |ps| ==> ps[i].id < ps[j].id)
    && (forall i :: 0 <= i < |ps| ==> ps[i].id < next)
  }

  predicate OrderKeys(os: seq<OrderRow>, next: nat) {
    && (forall i, j :: 0 <= i < j < |os| ==> os[i].id < os[j].id)
    && (forall i :: 0 <= i < |os| ==> os[i].id < next)
  }

  /** UNIQUE (user_id, nombre) on `clientes`. */
  predicate UniqueClientNames(cs: seq<ClientRow>) {
    forall i, j :: 0 <= i < j < |cs| && cs[i].userId == cs[j].userId ==> cs[i].nombre != cs[j].nombre
  }

  /** UNIQUE (user_id, nombre) on `productos`. */
  predicate UniqueProductNames(ps: seq<ProductRow>) {
    forall i, j :: 0 <= i < j < |ps| && ps[i].userId == ps[j].userId ==> ps[i].nombre != ps[j].nombre
  }

  /** No product ever has negative stock. */
  predicate StockNonNegative(ps: seq<ProductRow>) {
    forall i :: 0 <= i < |ps| ==> ps[i].cantidad >= 0
  }

  /** Every order is for a positive quantity. */
  predicate PositiveQuantities(os: seq<OrderRow>) {
    forall i :: 0 <= i < |os| ==> os[i].cantidad > 0
  }

  /** What holds of the tables between requests. */
  predicate TablesValid(t: Tables, nextClient: nat, nextProduct: nat, nextOrder: nat) {
    && ClientKeys(t.clientes, nextClient) && UniqueClientNames(t.clientes)
    && ProductKeys(t.productos, nextProduct) && UniqueProductNames(t.productos)
    && StockNonNegative(t.productos)
    && OrderKeys(t.pedidos, nextOrder) && PositiveQuantities(t.pedidos)
  }

  /** `SELECT id FROM clientes WHERE id = ? AND user_id = ? LIMIT 1`: the position of
      the client `id` if `user` owns it. */
  function FindClient(cs: seq<ClientRow>, id: int, user: UserId): (r: Option<nat>)
    ensures r.Some? ==> r.value < |cs| && cs[r.value].id == id && cs[r.value].userId == user
    ensures r.None? ==> forall i :: 0 <= i < |cs| ==> !(cs[i].id == id && cs[i].userId == user)
  {
    if cs == [] then None
    else if cs[0].id == id && cs[0].userId == user then Some(0)
    else match FindClient(cs[1..], id, user)
      case Some(k) => Some(k + 1)
      case None => None
  }

  /** `SELECT id, cantidad FROM productos WHERE id = ? AND user_id = ? LIMIT 1`. */
  function FindProduct(ps: seq<ProductRow>, id: int, user: UserId): (r: Option<nat>)
    ensures r.Some? ==> r.value < |ps| && ps[r.value].id == id && ps[r.value].userId == user
    ensures r.None? ==> forall i :: 0 <= i < |ps| ==> !(ps[i].id == id && ps[i].userId == user)
  {
    if ps == [] then None
    else if ps[0].id == id && ps[0].userId == user then Some(0)
    else match FindProduct(ps[1..], id, user)
      case Some(k) => Some(k + 1)
      case None => None
  }

  /** `UPDATE productos SET cantidad = cantidad - q WHERE id = ? AND user_id = ?`:
      the matching rows lose `q` units, every other row and every other column is
      left as it was. */
  function Debit(ps: seq<ProductRow>, id: int, user: UserId, q: int): (r: seq<ProductRow>)
    ensures |r| == |ps|
    ensures forall i :: 0 <= i < |ps| ==>
      r[i].id == ps[i].id && r[i].userId == ps[i].userId && r[i].nombre == ps[i].nombre
    ensures forall i :: 0 <= i < |ps| && !(ps[i].id == id && ps[i].userId == user) ==> r[i] == ps[i]
    ensures forall i :: 0 <= i < |ps| && ps[i].id == id && ps[i].userId == user ==>
      r[i].cantidad == ps[i].cantidad - q
  {
    seq(|ps|, i requires 0 <= i < |ps| =>
      if ps[i].id == id && ps[i].userId == user then ps[i].(cantidad := ps[i].cantidad - q) else ps[i])
  }

  /** With unique keys, the debit of the row at `k` changes that row only. */
  lemma DebitOneRow(ps: seq<ProductRow>, next: nat, k: nat, q: int)
    requires ProductKeys(ps, next) && k < |ps|
    ensures Debit(ps, ps[k].id, ps[k].userId, q) == ps[k := ps[k].(cantidad := ps[k].cantidad - q)]
  {
    var r := Debit(ps, ps[k].id, ps[k].userId, q);
    forall i | 0 <= i < |ps| && i != k ensures r[i] == ps[i] {
      assert ps[i].id != ps[k].id;
    }
  }

  /** The units of product `productId` of `user` that one order accounts for. */
  function OwnShare(o: OrderRow, productId: int, user: UserId): int {
    if o.productoId == productId && o.userId == user then o.cantidad else 0
  }

  /** The units of product `productId` of `user` that its orders account for. */
  function Ordered(os: seq<OrderRow>, productId: int, user: UserId): int {
    if os == [] then 0
    else OwnShare(os[0], productId, user) + Ordered(os[1..], productId, user)
  }

  /** Appending an order adds its quantity to its own product's total only. */
  lemma {:induction false} OrderedAppend(os: seq<OrderRow>, o: OrderRow, productId: int, user: UserId)
    ensures Ordered(os + [o], productId, user)
      == Ordered(os, productId, user) + OwnShare(o, productId, user)
    decreases |os|
  {
    if os == [] {
      assert [o][1..] == [];
    } else {
      assert (os + [o])[1..] == os[1..] + [o];
      OrderedAppend(os[1..], o, productId, user);
    }
  }

  /** The database: the tables and their AUTO_INCREMENT counters. A counter is not
      given back by a ROLLBACK, as in InnoDB. */
  class Store {
    var clientes: seq<ClientRow>
    var productos: seq<ProductRow>
    var pedidos: seq<OrderRow>
    var nextClientId: nat
    var nextProductId: nat
    var nextOrderId: nat

    ghost predicate Valid()
      reads this
    {
      TablesValid(Snapshot(), nextClientId, nextProductId, nextOrderId)
    }

    function Snapshot(): Tables
      reads this
    {
      Tables(clientes, productos, pedidos)
    }

    /** Empty tables whose keys start at 1. */
    constructor ()
      ensures Valid() && Snapshot() == Tables([], [], [])
      ensures nextClientId == 1 && nextProductId == 1 && nextOrderId == 1
    {
      clientes, productos, pedidos := [], [], [];
      nextClientId, nextProductId, nextOrderId := 1, 1, 1;
    }

    /** ROLLBACK to the tables as they were at BEGIN. */
    method Rollback(saved: Tables)
      requires TablesValid(saved, nextClientId, nextProductId, nextOrderId)
      modifies this
      ensures Valid() && Snapshot() == saved
      ensures nextClientId == old(nextClientId) && nextProductId == old(nextProductId)
      ensures nextOrderId == old(nextOrderId)
    {
      clientes, productos, pedidos := saved.clientes, saved.productos, saved.pedidos;
    }

    /** `INSERT INTO pedidos (...) VALUES (?, ?, ?, ?, ?, 'Pendiente')`; the new key is `insertId`. */
    method InsertOrder(user: UserId, clienteId: int, productoId: int, cantidad: int, fecha: string)
      returns (id: nat)
      modifies this
      ensures id == old(nextOrderId) && nextOrderId == old(nextOrderId) + 1
      ensures pedidos == old(pedidos) + [OrderRow(id, user, clienteId, productoId, cantidad, fecha, Pendiente)]
      ensures clientes == old(clientes) && productos == old(productos)
      ensures nextClientId == old(nextClientId) && nextProductId == old(nextProductId)
    {
      id := nextOrderId;
      pedidos := pedidos + [OrderRow(id, user, clienteId, productoId, cantidad, fecha, Pendiente)];
      nextOrderId := nextOrderId + 1;
    }

    /** The stock `UPDATE` of an order. */
    method DebitStock(productoId: int, user: UserId, q: int)
      modifies this
      ensures productos == Debit(old(productos), productoId, user, q)
      ensures clientes == old(clientes) && pedidos == old(pedidos)
      ensures nextClientId == old(nextClientId) && nextProductId == old(nextProductId)
      ensures nextOrderId == old(nextOrderId)
    {
      productos := Debit(productos, productoId, user, q);
    }

    /** `INSERT INTO productos (user_id, nombre, cantidad) VALUES (?, ?, ?)`. */
    method InsertProduct(user: UserId, nombre: string, cantidad: int) returns (id: nat)
      modifies this
      ensures id == old(nextProductId) && nextProductId == old(nextProductId) + 1
      ensures productos == old(productos) + [ProductRow(id, user, nombre, cantidad)]
      ensures clientes == old(clientes) && pedidos == old(pedidos)
      ensures nextClientId == old(nextClientId) && nextOrderId == old(nextOrderId)
    {
      id := nextProductId;
      productos := productos + [ProductRow(id, user, nombre, cantidad)];
      nextProductId := nextProductId + 1;
    }

    /** `INSERT INTO clientes (user_id, nombre, telefono, direccion) VALUES (?, ?, ?, ?)`. */
    method InsertClient(user: UserId, nombre: string, telefono: Option<string>, direccion: Option<string>)
      returns (id: nat)
      modifies this
      ensures id == old(nextClientId) && nextClientId == old(nextClientId) + 1
      ensures clientes == old(clientes) + [ClientRow(id, user, nombre, telefono, direccion)]
      ensures productos == old(productos) && pedidos == old(pedidos)
      ensures nextProductId == old(nextProductId) && nextOrderId == old(nextOrderId)
    {
      id := nextClientId;
      clientes := clientes + [ClientRow(id, user, nombre, telefono, direccion)];
      nextClientId := nextClientId + 1;
    }
  }
}
