/** `/api/productos`: the signed-in user's products in name order (GET) and the
    creation of a product whose name is trimmed and lower-cased and must be new for
    that user (POST). */
module ProductosRoute {
  import opened Wrappers
  import opened Domain
  import opened Text
  import opened Lists
  import opened Database

  // ---------------------------------------------------------------- GET

  /** One row of the GET answer: `id, nombre, cantidad`. */
  datatype ProductView = ProductView(id: nat, nombre: string, cantidad: int)

  function ViewOf(p: ProductRow): ProductView {
    ProductView(p.id, p.nombre, p.cantidad)
  }

  /** `WHERE user_id = ?`, projected to the selected columns. */
  function OwnedProducts(ps: seq<ProductRow>, user: UserId): (r: seq<ProductView>)
    ensures |r| <= |ps|
  {
    if ps == [] then []
    else
      var rest := OwnedProducts(ps[1..], user);
      if ps[0].userId == user then [ViewOf(ps[0])] + rest else rest
  }

  /** A view is selected exactly when it comes from one of the user's rows. */
  lemma {:induction false} OwnedProductsExact(ps: seq<ProductRow>, user: UserId, w: ProductView)
    ensures w in OwnedProducts(ps, user) <==> exists i :: 0 <= i < |ps| && ps[i].userId == user && ViewOf(ps[i]) == w
    decreases |ps|
  {
    if ps != [] {
      OwnedProductsExact(ps[1..], user, w);
      if exists i :: 0 <= i < |ps| && ps[i].userId == user && ViewOf(ps[i]) == w {
        var i :| 0 <= i < |ps| && ps[i].userId == user && ViewOf(ps[i]) == w;
        if i > 0 {
          assert ps[1..][i - 1] == ps[i];
        }
      }
      if exists j :: 0 <= j < |ps[1..]| && ps[1..][j].userId == user && ViewOf(ps[1..][j]) == w {
        var j :| 0 <= j < |ps[1..]| && ps[1..][j].userId == user && ViewOf(ps[1..][j]) == w;
        assert ps[j + 1] == ps[1..][j];
      }
    }
  }

  /** `ORDER BY nombre ASC` */
  predicate ByName(a: ProductView, b: ProductView) {
    StrLe(a.nombre, b.nombre)
  }

  lemma ByNameTotal()
    ensures Total(ByName)
  {
    forall a: ProductView, b: ProductView ensures ByName(a, b) || ByName(b, a) {
      StrLeTotal(a.nombre, b.nombre);
    }
  }

  datatype ProductList = Listed(rows: seq<ProductView>) | ListUnauthorized | ListCrashed

  /** GET. Without a session, reading `session.userId` throws before any answer is
      built (`ListCrashed`); a user id that is not a finite number gets the 401. */
  function ListProducts(t: Tables, session: Option<JsNumber>): (r: ProductList)
    ensures r.ListCrashed? <==> session.None?
    ensures r.ListUnauthorized? <==> session.Some? && !session.value.Finite?
    ensures r.Listed? ==> SortedBy(r.rows, ByName)
    ensures r.Listed? ==> multiset(r.rows) == multiset(OwnedProducts(t.productos, session.value.value))
  {
    match session
    case None => ListCrashed
    case Some(NonFinite) => ListUnauthorized
    case Some(Finite(user)) =>
      var rows := OwnedProducts(t.productos, user);
      ByNameTotal();
      SortBySorted(rows, ByName);
      Listed(SortBy(rows, ByName))
  }

  /** The list holds exactly the user's own products. */
  lemma {:induction false} ListProductsExact(t: Tables, user: UserId, v: ProductView)
    ensures v in ListProducts(t, Some(Finite(user))).rows <==>
      exists i :: 0 <= i < |t.productos| && t.productos[i].userId == user && ViewOf(t.productos[i]) == v
  {
    var listed := ListProducts(t, Some(Finite(user))).rows;
    assert v in listed <==> v in multiset(listed);
    assert v in OwnedProducts(t.productos, user) <==> v in multiset(OwnedProducts(t.productos, user));
    OwnedProductsExact(t.productos, user, v);
  }

  // --------------------------------------------------------------- POST

  /** The JSON body as the handler reads it: `nombre` is `None` when absent or `null`,
      `cantidad` is `Number(body.cantidad)`. A body whose `nombre` is present but not
      a string is no `ProductBody`: `.trim()` throws on it, which is the outer `catch`
      answering 500, the same as a body that is not JSON (`Decide` with `None`). */
  datatype ProductBody = ProductBody(nombre: Option<string>, cantidad: JsNumber)

  datatype CreateResult =
    | Created(id: nat)
    | Unauthorized   // 401
    | NameRequired   // 400 "El nombre es obligatorio."
    | Duplicate      // 409 "Ya existe un producto con ese nombre."
    | ServerError    // 500 "Error interno del servidor"
    | Crashed        // no session: the handler throws outside its `try`

  function HttpStatus(r: CreateResult): (code: int)
    ensures code == 201 <==> r.Created?
    ensures code == 401 <==> r.Unauthorized?
    ensures code == 400 <==> r.NameRequired?
    ensures code == 409 <==> r.Duplicate?
    ensures code == 500 <==> r.ServerError? || r.Crashed?
  {
    match r
    case Created(_) => 201
    case Unauthorized => 401
    case NameRequired => 400
    case Duplicate => 409
    case ServerError => 500
    case Crashed => 500
  }

  /** `(body.nombre ?? "").trim().toLowerCase()` */
  function NormalizeName(raw: Option<string>): (r: string)
    ensures |r| <= |raw.GetOr("")|
    ensures r == "" <==> AllSpace(raw.GetOr(""))
    ensures forall k :: 0 <= k < |r| ==> !('A' <= r[k] <= 'Z')
  {
    var t := Trim(raw.GetOr(""));
    LowerIdempotent(t);
    Lower(t)
  }

  /** Normalizing a normalized name changes nothing. */
  lemma {:induction false} NormalizeNameIdempotent(raw: Option<string>)
    ensures NormalizeName(Some(NormalizeName(raw))) == NormalizeName(raw)
  {
    var t := Trim(raw.GetOr(""));
    TrimLowerCommute(t);
    TrimIdempotent(raw.GetOr(""));
    LowerIdempotent(t);
  }

  /** A quantity that is not a finite non-negative number is stored as 0. */
  function CoerceQuantity(n: JsNumber): (q: int)
    ensures q >= 0
    ensures n.Finite? && n.value >= 0 ==> q == n.value
    ensures !(n.Finite? && n.value >= 0) ==> q == 0
  {
    if n.Finite? && n.value >= 0 then n.value else 0
  }

  /** `SELECT id FROM productos WHERE user_id = ? AND nombre = ? LIMIT 1` finds a row. */
  predicate HasName(ps: seq<ProductRow>, user: UserId, nombre: string) {
    exists i :: 0 <= i < |ps| && ps[i].userId == user && ps[i].nombre == nombre
  }

  /** The statement that throws, if any. `InsertDuplicate` is the INSERT failing
      with `ER_DUP_ENTRY`, which a concurrent request with the same name causes. */
  datatype DbFault = NoFault | ConnectFails | SelectFails | InsertDuplicate | InsertFails

  datatype Decision = Reject(result: CreateResult) | Inserts(user: UserId, nombre: string, cantidad: int)

  /** The outcome of a POST on tables `t`, following the handler step by step. A body
      that is not JSON, is JSON `null`, or has a `nombre` that is not a string is
      `None`: all three make the outer `try` answer 500. */
  function Decide(t: Tables, session: Option<JsNumber>, body: Option<ProductBody>, fault: DbFault): (d: Decision)
    ensures d.Inserts? ==>
      && session == Some(Finite(d.user)) && body.Some? && fault == NoFault
      && d.nombre == NormalizeName(body.value.nombre) && d.nombre != ""
      && d.cantidad == CoerceQuantity(body.value.cantidad)
      && !HasName(t.productos, d.user, d.nombre)
    ensures d.Reject? ==> !d.result.Created?
  {
    if session.None? then Reject(Crashed)
    else if !session.value.Finite? then Reject(Unauthorized)
    else if body.None? then Reject(ServerError)
    else
      var user := session.value.value;
      var nombre := NormalizeName(body.value.nombre);
      var cantidad := CoerceQuantity(body.value.cantidad);
      if nombre == "" then Reject(NameRequired)
      else if fault == ConnectFails || fault == SelectFails then Reject(ServerError)
      else if HasName(t.productos, user, nombre) then Reject(Duplicate)
      else if fault == InsertDuplicate then Reject(Duplicate)
      else if fault != NoFault then Reject(ServerError)  // the INSERT fails otherwise
      else Inserts(user, nombre, cantidad)
  }

  /** Every way a POST ends, in the handler's order: each outcome under exactly the
      conditions that lead to it. */
  lemma DecideOutcomes(t: Tables, session: Option<JsNumber>, body: Option<ProductBody>, fault: DbFault)
    ensures session.None? ==> Decide(t, session, body, fault) == Reject(Crashed)
    ensures session.Some? && !session.value.Finite? ==> Decide(t, session, body, fault) == Reject(Unauthorized)
    ensures session.Some? && session.value.Finite? && body.None? ==> Decide(t, session, body, fault) == Reject(ServerError)
    ensures session.Some? && session.value.Finite? && body.Some? ==>
      var d, user, nombre := Decide(t, session, body, fault), session.value.value, NormalizeName(body.value.nombre);
      && (nombre == "" ==> d == Reject(NameRequired))
      && (nombre != "" && (fault == ConnectFails || fault == SelectFails) ==> d == Reject(ServerError))
      && (nombre != "" && fault != ConnectFails && fault != SelectFails && HasName(t.productos, user, nombre)
          ==> d == Reject(Duplicate))
    ensures session.Some? && session.value.Finite? && body.Some? ==>
      var d, user, nombre := Decide(t, session, body, fault), session.value.value, NormalizeName(body.value.nombre);
      nombre != "" && !HasName(t.productos, user, nombre) ==>
      && (fault == InsertDuplicate ==> d == Reject(Duplicate))
      && (fault == InsertFails ==> d == Reject(ServerError))
      && (fault == NoFault ==> d == Inserts(user, nombre, CoerceQuantity(body.value.cantidad)))
  {
  }

  /** The tables after an insert under key `id`. */
  function Inserted(t: Tables, id: nat, d: Decision): Tables
    requires d.Inserts?
  {
    t.(productos := t.productos + [ProductRow(id, d.user, d.nombre, d.cantidad)])
  }

  /** Appending a row under a fresh key, with a name its user does not have yet and
      a non-negative stock, keeps the `productos` invariants. */
  lemma AppendFreshProduct(ps: seq<ProductRow>, np: nat, row: ProductRow)
    requires ProductKeys(ps, np) && UniqueProductNames(ps) && StockNonNegative(ps)
    requires row.id == np && row.cantidad >= 0 && !HasName(ps, row.userId, row.nombre)
    ensures ProductKeys(ps + [row], np + 1) && UniqueProductNames(ps + [row]) && StockNonNegative(ps + [row])
  {
    var ps' := ps + [row];
    assert forall i :: 0 <= i < |ps| ==> ps'[i] == ps[i];
    forall i, j | 0 <= i < j < |ps'| && ps'[i].userId == ps'[j].userId ensures ps'[i].nombre != ps'[j].nombre {
      if j == |ps| {
        assert !(ps[i].userId == row.userId && ps[i].nombre == row.nombre);
      }
    }
  }

  /** An insert keeps every table invariant: names stay unique per user and stock
      stays non-negative. */
  lemma {:induction false} InsertKeepsTablesValid(
    t: Tables, nc: nat, np: nat, no: nat, session: Option<JsNumber>, body: Option<ProductBody>, fault: DbFault)
    requires TablesValid(t, nc, np, no)
    requires Decide(t, session, body, fault).Inserts?
    ensures TablesValid(Inserted(t, np, Decide(t, session, body, fault)), nc, np + 1, no)
  {
    var d := Decide(t, session, body, fault);
    AppendFreshProduct(t.productos, np, ProductRow(np, d.user, d.nombre, d.cantidad));
  }

  /** Once a name is taken, every later request whose name normalizes to it is
      refused as a duplicate, whatever its case or surrounding white space. */
  lemma {:induction false} SecondCreateIsDuplicate(
    t: Tables, id: nat, session: Option<JsNumber>, body: Option<ProductBody>, body2: Option<ProductBody>)
    requires Decide(t, session, body, NoFault).Inserts?
    requires body2.Some? && NormalizeName(body2.value.nombre) == NormalizeName(body.value.nombre)
    ensures Decide(Inserted(t, id, Decide(t, session, body, NoFault)), session, body2, NoFault) == Reject(Duplicate)
  {
    var d := Decide(t, session, body, NoFault);
    var ps := Inserted(t, id, d).productos;
    assert ps[|t.productos|].userId == d.user && ps[|t.productos|].nombre == d.nombre;
  }

  /** POST /api/productos. */
  method CreateProduct(db: Store, session: Option<JsNumber>, body: Option<ProductBody>, fault: DbFault)
    returns (r: CreateResult)
    requires db.Valid()
    modifies db
    ensures db.Valid()
    ensures var d := Decide(old(db.Snapshot()), session, body, fault);
      && (d.Reject? ==> r == d.result && db.Snapshot() == old(db.Snapshot()) && db.nextProductId == old(db.nextProductId))
      && (d.Inserts? ==> r == Created(old(db.nextProductId)) && db.nextProductId == old(db.nextProductId) + 1
                         && db.Snapshot() == Inserted(old(db.Snapshot()), old(db.nextProductId), d))
    ensures db.nextClientId == old(db.nextClientId) && db.nextOrderId == old(db.nextOrderId)
  {
    if session.None? {
      return Crashed;
    }
    if !session.value.Finite? {
      return Unauthorized;
    }
    var user := session.value.value;
    if body.None? {
      return ServerError;
    }
    var nombre := NormalizeName(body.value.nombre);
    var cantidad := CoerceQuantity(body.value.cantidad);
    if nombre == "" {
      return NameRequired;
    }
    if fault == ConnectFails || fault == SelectFails {
      return ServerError;
    }
    if HasName(db.productos, user, nombre) {
      return Duplicate;
    }
    if fault == InsertDuplicate {
      return Duplicate;
    }
    if fault != NoFault {
      return ServerError;
    }
    ghost var before := db.Snapshot();
    InsertKeepsTablesValid(before, db.nextClientId, db.nextProductId, db.nextOrderId, session, body, fault);
    var id := db.InsertProduct(user, nombre, cantidad);
    r := Created(id);
  }
}
