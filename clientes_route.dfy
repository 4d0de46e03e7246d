/** `/api/clientes`: the signed-in user's clients in name order (GET) and the
    creation of a client whose name must be new for that user (POST). Name, phone
    and address are trimmed and lower-cased before they are stored. */
module ClientesRoute {
  import opened Wrappers
  import opened Domain
  import opened Text
  import opened Lists
  import opened Database
  import ProductosRoute

  // ---------------------------------------------------------------- GET

  /** One row of the GET answer: `id, nombre, telefono, direccion`. */
  datatype ClientView = ClientView(id: nat, nombre: string, telefono: Option<string>, direccion: Option<string>)

  function ViewOf(c: ClientRow): ClientView {
    ClientView(c.id, c.nombre, c.telefono, c.direccion)
  }

  /** `WHERE user_id = ?`, projected to the selected columns. */
  function OwnedClients(cs: seq<ClientRow>, user: UserId): (r: seq<ClientView>)
    ensures |r| <= |cs|
  {
    if cs == [] then []
    else
      var rest := OwnedClients(cs[1..], user);
      if cs[0].userId == user then [ViewOf(cs[0])] + rest else rest
  }

  /** A view is selected exactly when it comes from one of the user's rows. */
  lemma {:induction false} OwnedClientsExact(cs: seq<ClientRow>, user: UserId, w: ClientView)
    ensures w in OwnedClients(cs, user) <==> exists i :: 0 <= i < |cs| && cs[i].userId == user && ViewOf(cs[i]) == w
    decreases |cs|
  {
    if cs != [] {
      OwnedClientsExact(cs[1..], user, w);
      if exists i :: 0 <= i < |cs| && cs[i].userId == user && ViewOf(cs[i]) == w {
        var i :| 0 <= i < |cs| && cs[i].userId == user && ViewOf(cs[i]) == w;
        if i > 0 {
          assert cs[1..][i - 1] == cs[i];
        }
      }
      if exists j :: 0 <= j < |cs[1..]| && cs[1..][j].userId == user && ViewOf(cs[1..][j]) == w {
        var j :| 0 <= j < |cs[1..]| && cs[1..][j].userId == user && ViewOf(cs[1..][j]) == w;
        assert cs[j + 1] == cs[1..][j];
      }
    }
  }

  /** `ORDER BY nombre ASC` */
  predicate ByName(a: ClientView, b: ClientView) {
    StrLe(a.nombre, b.nombre)
  }

  lemma ByNameTotal()
    ensures Total(ByName)
  {
    forall a: ClientView, b: ClientView ensures ByName(a, b) || ByName(b, a) {
      StrLeTotal(a.nombre, b.nombre);
    }
  }

  datatype ClientList = Listed(rows: seq<ClientView>) | ListUnauthorized | ListCrashed

  /** GET, with the same session handling as the products route. */
  function ListClients(t: Tables, session: Option<JsNumber>): (r: ClientList)
    ensures r.ListCrashed? <==> session.None?
    ensures r.ListUnauthorized? <==> session.Some? && !session.value.Finite?
    ensures r.Listed? ==> SortedBy(r.rows, ByName)
    ensures r.Listed? ==> multiset(r.rows) == multiset(OwnedClients(t.clientes, session.value.value))
  {
    match session
    case None => ListCrashed
    case Some(NonFinite) => ListUnauthorized
    case Some(Finite(user)) =>
      var rows := OwnedClients(t.clientes, user);
      ByNameTotal();
      SortBySorted(rows, ByName);
      Listed(SortBy(rows, ByName))
  }

  /** The list holds exactly the user's own clients. */
  lemma {:induction false} ListClientsExact(t: Tables, user: UserId, v: ClientView)
    ensures v in ListClients(t, Some(Finite(user))).rows <==>
      exists i :: 0 <= i < |t.clientes| && t.clientes[i].userId == user && ViewOf(t.clientes[i]) == v
  {
    var listed := ListClients(t, Some(Finite(user))).rows;
    assert v in listed <==> v in multiset(listed);
    assert v in OwnedClients(t.clientes, user) <==> v in multiset(OwnedClients(t.clientes, user));
    OwnedClientsExact(t.clientes, user, v);
  }

  // --------------------------------------------------------------- POST

  /** The JSON body as the handler reads it. `nombre` is `None` when absent or `null`.
      `telefono` and `direccion` are `None` when falsy and `String(v)` otherwise. A
      body whose `nombre` is present but not a string is no `ClientBody`: `.trim()`
      throws on it, which is the outer `catch` answering 500, the same as a body that is
      not JSON (`Decide` with `None`). */
  datatype ClientBody = ClientBody(nombre: Option<string>, telefono: Option<string>, direccion: Option<string>)

  datatype CreateResult =
    | Created(id: nat)
    | Unauthorized   // 401
    | NameRequired   // 400 "El nombre es obligatorio."
    | Duplicate      // 409 "Ya existe un cliente con ese nombre."
    | ServerError    // 500 "Error interno del servidor"
    | Crashed        // no session: the handler throws outside its `try`

  function HttpStatus(r: CreateResult): (code: int)
    ensures code == 201 <==> r.Created?
    ensures code == 401 <==> r.Unauthorized?
    ensures code == 400 <==> r.NameRequired?
    ensures code == 409 <==> r.Duplicate?
    ensures code == 500 <==> r.ServerError? || r.Crashed?
  {
    match r
    case Created(_) => 201
    case Unauthorized => 401
    case NameRequired => 400
    case Duplicate => 409
    case ServerError => 500
    case Crashed => 500
  }

  /** `v ? String(v).trim().toLowerCase() : null`: an absent or empty value is stored
      as NULL, any other one normalized as the name is. */
  function NormalizeOptional(v: Option<string>): (r: Option<string>)
    ensures r.None? <==> v.None? || v.value == ""
    ensures r.Some? ==> r.value == ProductosRoute.NormalizeName(v)
  {
    if v.None? || v.value == "" then None else Some(ProductosRoute.NormalizeName(v))
  }

  /** A phone or address made of white space only is truthy in JavaScript, so it is
      stored as an empty string, not as NULL. */
  lemma BlankOptionalIsEmptyString(v: string)
    requires v != "" && AllSpace(v)
    ensures NormalizeOptional(Some(v)) == Some("")
  {
  }

  /** Normalizing a stored value again changes nothing. */
  lemma {:induction false} NormalizeOptionalIdempotent(v: Option<string>)
    requires NormalizeOptional(v).Some? && NormalizeOptional(v).value != ""
    ensures NormalizeOptional(NormalizeOptional(v)) == NormalizeOptional(v)
  {
    ProductosRoute.NormalizeNameIdempotent(v);
  }

  /** `SELECT id FROM clientes WHERE user_id = ? AND nombre = ? LIMIT 1` finds a row. */
  predicate HasName(cs: seq<ClientRow>, user: UserId, nombre: string) {
    exists i :: 0 <= i < |cs| && cs[i].userId == user && cs[i].nombre == nombre
  }

  /** The statement that throws, if any (as in the products route). */
  datatype DbFault = NoFault | ConnectFails | SelectFails | InsertDuplicate | InsertFails

  datatype Decision =
    | Reject(result: CreateResult)
    | Inserts(user: UserId, nombre: string, telefono: Option<string>, direccion: Option<string>)

  /** The outcome of a POST on tables `t`, following the handler step by step. A body
      that is not JSON, is JSON `null`, or has a `nombre` that is not a string is
      `None`: all three make the outer `try` answer 500. */
  function Decide(t: Tables, session: Option<JsNumber>, body: Option<ClientBody>, fault: DbFault): (d: Decision)
    ensures d.Inserts? ==>
      && session == Some(Finite(d.user)) && body.Some? && fault == NoFault
      && d.nombre == ProductosRoute.NormalizeName(body.value.nombre) && d.nombre != ""
      && d.telefono == NormalizeOptional(body.value.telefono)
      && d.direccion == NormalizeOptional(body.value.direccion)
      && !HasName(t.clientes, d.user, d.nombre)
    ensures d.Reject? ==> !d.result.Created?
  {
    if session.None? then Reject(Crashed)
    else if !session.value.Finite? then Reject(Unauthorized)
    else if body.None? then Reject(ServerError)
    else
      var user := session.value.value;
      var nombre := ProductosRoute.NormalizeName(body.value.nombre);
      var telefono := NormalizeOptional(body.value.telefono);
      var direccion := NormalizeOptional(body.value.direccion);
      if nombre == "" then Reject(NameRequired)
      else if fault == ConnectFails || fault == SelectFails then Reject(ServerError)
      else if HasName(t.clientes, user, nombre) then Reject(Duplicate)
      else if fault == InsertDuplicate then Reject(Duplicate)
      else if fault != NoFault then Reject(ServerError)  // the INSERT fails otherwise
      else Inserts(user, nombre, telefono, direccion)
  }

  /** Every way a POST ends, in the handler's order: each outcome under exactly the
      conditions that lead to it. */
  lemma DecideOutcomes(t: Tables, session: Option<JsNumber>, body: Option<ClientBody>, fault: DbFault)
    ensures session.None? ==> Decide(t, session, body, fault) == Reject(Crashed)
    ensures session.Some? && !session.value.Finite? ==> Decide(t, session, body, fault) == Reject(Unauthorized)
    ensures session.Some? && session.value.Finite? && body.None? ==> Decide(t, session, body, fault) == Reject(ServerError)
    ensures session.Some? && session.value.Finite? && body.Some? ==>
      var d, user, nombre := Decide(t, session, body, fault), session.value.value, ProductosRoute.NormalizeName(body.value.nombre);
      && (nombre == "" ==> d == Reject(NameRequired))
      && (nombre != "" && (fault == ConnectFails || fault == SelectFails) ==> d == Reject(ServerError))
      && (nombre != "" && fault != ConnectFails && fault != SelectFails && HasName(t.clientes, user, nombre)
          ==> d == Reject(Duplicate))
    ensures session.Some? && session.value.Finite? && body.Some? ==>
      var d, user, nombre := Decide(t, session, body, fault), session.value.value, ProductosRoute.NormalizeName(body.value.nombre);
      nombre != "" && !HasName(t.clientes, user, nombre) ==>
      && (fault == InsertDuplicate ==> d == Reject(Duplicate))
      && (fault == InsertFails ==> d == Reject(ServerError))
      && (fault == NoFault ==> d == Inserts(user, nombre, NormalizeOptional(body.value.telefono),
                                    NormalizeOptional(body.value.direccion)))
  {
  }

  /** The tables after an insert under key `id`. */
  function Inserted(t: Tables, id: nat, d: Decision): Tables
    requires d.Inserts?
  {
    t.(clientes := t.clientes + [ClientRow(id, d.user, d.nombre, d.telefono, d.direccion)])
  }

  /** Appending a row under a fresh key, with a name its user does not have yet,
      keeps the `clientes` invariants. */
  lemma AppendFreshClient(cs: seq<ClientRow>, nc: nat, row: ClientRow)
    requires ClientKeys(cs, nc) && UniqueClientNames(cs)
    requires row.id == nc && !HasName(cs, row.userId, row.nombre)
    ensures ClientKeys(cs + [row], nc + 1) && UniqueClientNames(cs + [row])
  {
    var cs' := cs + [row];
    assert forall i :: 0 <= i < |cs| ==> cs'[i] == cs[i];
    forall i, j | 0 <= i < j < |cs'| && cs'[i].userId == cs'[j].userId ensures cs'[i].nombre != cs'[j].nombre {
      if j == |cs| {
        assert !(cs[i].userId == row.userId && cs[i].nombre == row.nombre);
      }
    }
  }

  /** An insert keeps every table invariant. */
  lemma {:induction false} InsertKeepsTablesValid(
    t: Tables, nc: nat, np: nat, no: nat, session: Option<JsNumber>, body: Option<ClientBody>, fault: DbFault)
    requires TablesValid(t, nc, np, no)
    requires Decide(t, session, body, fault).Inserts?
    ensures TablesValid(Inserted(t, nc, Decide(t, session, body, fault)), nc + 1, np, no)
  {
    var d := Decide(t, session, body, fault);
    AppendFreshClient(t.clientes, nc, ClientRow(nc, d.user, d.nombre, d.telefono, d.direccion));
  }

  /** Once a name is taken, every later request whose name normalizes to it is
      refused as a duplicate. */
  lemma {:induction false} SecondCreateIsDuplicate(
    t: Tables, id: nat, session: Option<JsNumber>, body: Option<ClientBody>, body2: Option<ClientBody>)
    requires Decide(t, session, body, NoFault).Inserts?
    requires body2.Some?
    requires ProductosRoute.NormalizeName(body2.value.nombre) == ProductosRoute.NormalizeName(body.value.nombre)
    ensures Decide(Inserted(t, id, Decide(t, session, body, NoFault)), session, body2, NoFault) == Reject(Duplicate)
  {
    var d := Decide(t, session, body, NoFault);
    var cs := Inserted(t, id, d).clientes;
    assert cs[|t.clientes|].userId == d.user && cs[|t.clientes|].nombre == d.nombre;
  }

  /** POST /api/clientes. */
  method CreateClient(db: Store, session: Option<JsNumber>, body: Option<ClientBody>, fault: DbFault)
    returns (r: CreateResult)
    requires db.Valid()
    modifies db
    ensures db.Valid()
    ensures var d := Decide(old(db.Snapshot()), session, body, fault);
      && (d.Reject? ==> r == d.result && db.Snapshot() == old(db.Snapshot()) && db.nextClientId == old(db.nextClientId))
      && (d.Inserts? ==> r == Created(old(db.nextClientId)) && db.nextClientId == old(db.nextClientId) + 1
                         && db.Snapshot() == Inserted(old(db.Snapshot()), old(db.nextClientId), d))
    ensures db.nextProductId == old(db.nextProductId) && db.nextOrderId == old(db.nextOrderId)
  {
    if session.None? {
      return Crashed;
    }
    if !session.value.Finite? {
      return Unauthorized;
    }
    var user := session.value.value;
    if body.None? {
      return ServerError;
    }
    var nombre := ProductosRoute.NormalizeName(body.value.nombre);
    var telefono := NormalizeOptional(body.value.telefono);
    var direccion := NormalizeOptional(body.value.direccion);
    if nombre == "" {
      return NameRequired;
    }
    if fault == ConnectFails || fault == SelectFails {
      return ServerError;
    }
    if HasName(db.clientes, user, nombre) {
      return Duplicate;
    }
    if fault == InsertDuplicate {
      return Duplicate;
    }
    if fault != NoFault {
      return ServerError;
    }
    ghost var before := db.Snapshot();
    InsertKeepsTablesValid(before, db.nextClientId, db.nextProductId, db.nextOrderId, session, body, fault);
    var id := db.InsertClient(user, nombre, telefono, direccion);
    r := Created(id);
  }
}
