/** `/api/pedidos`: the signed-in user's orders joined with client and product
    names (GET) and the creation of an order, which checks the input, checks that
    the client and the product are the user's own and that there is enough stock,
    then inserts the order and debits the stock in one transaction (POST). */
module PedidosRoute {
  import opened Wrappers
  import opened Domain
  import opened Text
  import opened Dates
  import opened Lists
  import opened Database

  // ---------------------------------------------------------------- GET

  /** One row of the GET answer. */
  datatype OrderView = OrderView(
    id: nat, userId: UserId, clienteId: int, clienteNombre: string,
    productoId: int, productoNombre: string, cantidad: int, fechaEntrega: string, estado: Estado)

  /** The order `o` joined with its client and its product, which must belong to the
      order's own user (`c.user_id = p.user_id`, `pr.user_id = p.user_id`). */
  function JoinRow(t: Tables, o: OrderRow): (r: Option<OrderView>)
    ensures r.Some? <==>
      FindClient(t.clientes, o.clienteId, o.userId).Some? && FindProduct(t.productos, o.productoId, o.userId).Some?
    ensures r.Some? ==>
      && r.value.id == o.id && r.value.userId == o.userId
      && r.value.clienteId == o.clienteId && r.value.productoId == o.productoId
      && r.value.cantidad == o.cantidad && r.value.fechaEntrega == o.fechaEntrega && r.value.estado == o.estado
  {
    match FindClient(t.clientes, o.clienteId, o.userId)
    case None => None
    case Some(i) =>
      match FindProduct(t.productos, o.productoId, o.userId)
      case None => None
      case Some(j) =>
        Some(OrderView(o.id, o.userId, o.clienteId, t.clientes[i].nombre,
                       o.productoId, t.productos[j].nombre, o.cantidad, o.fechaEntrega, o.estado))
  }

  /** The rows of `os` that belong to `user` and survive the join. */
  function JoinOrders(t: Tables, os: seq<OrderRow>, user: UserId): (r: seq<OrderView>)
    ensures |r| <= |os|
  {
    if os == [] then []
    else
      var rest := JoinOrders(t, os[1..], user);
      if os[0].userId == user && JoinRow(t, os[0]).Some? then [JoinRow(t, os[0]).value] + rest else rest
  }

  /** A view is in the join exactly when it comes from one of the user's orders. */
  lemma {:induction false} JoinOrdersExact(t: Tables, os: seq<OrderRow>, user: UserId, v: OrderView)
    ensures v in JoinOrders(t, os, user) <==>
      exists i :: 0 <= i < |os| && os[i].userId == user && JoinRow(t, os[i]) == Some(v)
    decreases |os|
  {
    if os != [] {
      JoinOrdersExact(t, os[1..], user, v);
      if exists i :: 0 <= i < |os| && os[i].userId == user && JoinRow(t, os[i]) == Some(v) {
        var i :| 0 <= i < |os| && os[i].userId == user && JoinRow(t, os[i]) == Some(v);
        if i > 0 {
          assert os[1..][i - 1] == os[i];
        }
      }
      if exists j :: 0 <= j < |os[1..]| && os[1..][j].userId == user && JoinRow(t, os[1..][j]) == Some(v) {
        var j :| 0 <= j < |os[1..]| && os[1..][j].userId == user && JoinRow(t, os[1..][j]) == Some(v);
        assert os[j + 1] == os[1..][j];
      }
    }
  }

  /** `ORDER BY p.fecha_entrega DESC, p.id DESC` as an ordering: `a` may come before `b`. */
  predicate NewerFirst(a: OrderView, b: OrderView) {
    TimeKey(a.fechaEntrega) > TimeKey(b.fechaEntrega)
    || (TimeKey(a.fechaEntrega) == TimeKey(b.fechaEntrega) && a.id >= b.id)
  }

  lemma NewerFirstTotal()
    ensures Total(NewerFirst)
  {
  }

  /** GET: `None` stands for the 401 answer to a request without a session. */
  function ListOrders(t: Tables, session: Option<UserId>): (r: Option<seq<OrderView>>)
    ensures r.None? <==> session.None?
    ensures r.Some? ==> SortedBy(r.value, NewerFirst)
    ensures r.Some? ==> multiset(r.value) == multiset(JoinOrders(t, t.pedidos, session.value))
  {
    match session
    case None => None
    case Some(user) =>
      var rows := JoinOrders(t, t.pedidos, user);
      NewerFirstTotal();
      SortBySorted(rows, NewerFirst);
      Some(SortBy(rows, NewerFirst))
  }

  /** Every order the user can join shows up in the list, and nothing else does: no
      other user's order, no order whose client or product is missing. */
  lemma {:induction false} ListOrdersExact(t: Tables, user: UserId, v: OrderView)
    ensures v in ListOrders(t, Some(user)).value <==>
      exists i :: 0 <= i < |t.pedidos| && t.pedidos[i].userId == user && JoinRow(t, t.pedidos[i]) == Some(v)
  {
    var listed := ListOrders(t, Some(user)).value;
    var rows := JoinOrders(t, t.pedidos, user);
    assert v in listed <==> v in multiset(listed);
    assert v in rows <==> v in multiset(rows);
    JoinOrdersExact(t, t.pedidos, user, v);
  }

  // --------------------------------------------------------------- POST

  /** The JSON body after `Number(...)`; `fechaEntrega` is `None` when absent or `null`
      and `String(v)` otherwise. A body that is not JSON or is `null` is `None`. */
  datatype OrderBody = OrderBody(clienteId: JsNumber, productoId: JsNumber, cantidad: JsNumber, fechaEntrega: Option<string>)

  /** The four 400 answers. */
  datatype InputProblem =
    | MalformedEntry     // "Error de entrada": the body is not JSON, or no connection
    | InvalidData        // "Datos inválidos"
    | InvalidDateFormat  // "Fecha inválida (YYYY-MM-DD)"
    | PastDate           // "La fecha de entrega no puede ser pasada"

  datatype Missing = MissingClient | MissingProduct

  datatype CreateOrderResult =
    | Created(id: nat)
    | Unauthorized
    | BadInput(problem: InputProblem)
    | NotFound(missing: Missing)
    | InsufficientStock
    | Internal

  /** The HTTP status of each answer. */
  function HttpStatus(r: CreateOrderResult): (code: int)
    ensures code == 201 <==> r.Created?
    ensures code == 401 <==> r.Unauthorized?
    ensures code == 400 <==> r.BadInput? || r.InsufficientStock?
    ensures code == 404 <==> r.NotFound?
    ensures code == 500 <==> r.Internal?
  {
    match r
    case Created(_) => 201
    case Unauthorized => 401
    case BadInput(_) => 400
    case NotFound(_) => 404
    case InsufficientStock => 400
    case Internal => 500
  }

  /** A body that passed validation. */
  datatype ValidOrder = ValidOrder(clienteId: int, productoId: int, cantidad: int, fechaEntrega: string)

  /** `f < hoy` for a date string that matched the pattern: a date that is not a
      calendar date makes `new Date` invalid, and the comparison is then false. */
  predicate IsPast(fecha: string, today: Date)
    requires MatchesIsoPattern(fecha)
  {
    var d := ParseIso(fecha).value;
    IsCalendarDate(d) && Before(d, today)
  }

  /** The three checks before the database is touched, in the source's order. */
  function ValidateOrder(b: OrderBody, today: Date): (r: Result<ValidOrder, InputProblem>)
    ensures r.Success? ==>
      && b.clienteId == Finite(r.value.clienteId) && b.productoId == Finite(r.value.productoId)
      && b.cantidad == Finite(r.value.cantidad) && r.value.cantidad > 0
      && r.value.fechaEntrega == Trim(b.fechaEntrega.GetOr(""))
      && MatchesIsoPattern(r.value.fechaEntrega) && !IsPast(r.value.fechaEntrega, today)
    ensures r == Failure(InvalidData) <==>
      !(b.clienteId.Finite? && b.productoId.Finite? && b.cantidad.IsPositive())
    ensures r.Failure? ==> r.error != MalformedEntry
  {
    var fecha := Trim(b.fechaEntrega.GetOr(""));
    if !(b.clienteId.Finite? && b.productoId.Finite? && b.cantidad.IsPositive()) then Failure(InvalidData)
    else if !MatchesIsoPattern(fecha) then Failure(InvalidDateFormat)
    else if IsPast(fecha, today) then Failure(PastDate)
    else Success(ValidOrder(b.clienteId.value, b.productoId.value, b.cantidad.value, fecha))
  }

  /** A string of the `YYYY-MM-DD` shape has no white space to trim. */
  lemma IsoIsTrimmed(s: string)
    requires MatchesIsoPattern(s)
    ensures Trim(s) == s
  {
    assert !IsJsSpace(s[0]) by { assert IsDigit(s[0]); }
    assert !IsJsSpace(s[9]) by { assert IsDigit(s[9]); }
    assert TrimStart(s) == s;
    assert TrimEnd(s) == s;
  }

  /** Once the numbers are valid, a trimmed date string of the right shape is judged
      by `IsPast` alone, and is stored trimmed. */
  lemma ValidateOnDate(b: OrderBody, today: Date, s: string)
    requires b.clienteId.Finite? && b.productoId.Finite? && b.cantidad.IsPositive()
    requires Trim(b.fechaEntrega.GetOr("")) == s && MatchesIsoPattern(s)
    ensures ValidateOrder(b, today) == if IsPast(s, today) then Failure(PastDate)
      else Success(ValidOrder(b.clienteId.value, b.productoId.value, b.cantidad.value, s))
  {
  }

  lemma TrimmedDate(b: OrderBody, s: string)
    requires b.fechaEntrega == Some(s) && MatchesIsoPattern(s)
    ensures Trim(b.fechaEntrega.GetOr("")) == s
  {
    IsoIsTrimmed(s);
  }

  /** A calendar date before today is refused as past. */
  lemma {:induction false} PastDateRejected(b: OrderBody, d: Date, today: Date)
    requires b.clienteId.Finite? && b.productoId.Finite? && b.cantidad.IsPositive()
    requires 0 <= d.year <= 9999 && IsCalendarDate(d) && Before(d, today)
    requires b.fechaEntrega == Some(FormatIso(d))
    ensures ValidateOrder(b, today) == Failure(PastDate)
  {
    ParseFormat(d);
    TrimmedDate(b, FormatIso(d));
    ValidateOnDate(b, today, FormatIso(d));
  }

  /** Today's date, and any later one, is accepted. */
  lemma {:induction false} TodayOrLaterAccepted(b: OrderBody, d: Date, today: Date)
    requires b.clienteId.Finite? && b.productoId.Finite? && b.cantidad.IsPositive()
    requires 0 <= d.year <= 9999 && 0 <= d.month <= 99 && 0 <= d.day <= 99 && !Before(d, today)
    requires b.fechaEntrega == Some(FormatIso(d))
    ensures ValidateOrder(b, today).Success?
    ensures ValidateOrder(b, today).value.fechaEntrega == FormatIso(d)
  {
    ParseFormat(d);
    TrimmedDate(b, FormatIso(d));
    ValidateOnDate(b, today, FormatIso(d));
  }

  /** Surrounding white space is trimmed before the pattern is tested. */
  lemma {:induction false} PaddedDateAccepted(b: OrderBody, today: Date, s: string)
    requires b.clienteId.Finite? && b.productoId.Finite? && b.cantidad.IsPositive()
    requires MatchesIsoPattern(s) && !IsPast(s, today)
    requires b.fechaEntrega == Some([' '] + s + ['\n'])
    ensures ValidateOrder(b, today) == Success(ValidOrder(b.clienteId.value, b.productoId.value, b.cantidad.value, s))
  {
    PaddedTrim(s);
    ValidateOnDate(b, today, s);
  }

  lemma PaddedTrim(s: string)
    requires MatchesIsoPattern(s)
    ensures Trim([' '] + s + ['\n']) == s
  {
    var raw := [' '] + s + ['\n'];
    assert !IsJsSpace(s[0]) && !IsJsSpace(s[9]) by { assert IsDigit(s[0]) && IsDigit(s[9]); }
    assert raw[1..] == s + ['\n'];
    assert TrimStart(s + ['\n']) == s + ['\n'];
    assert TrimStart(raw) == s + ['\n'];
    assert (s + ['\n'])[..|s|] == s;
    assert TrimEnd(s) == s;
    assert TrimEnd(s + ['\n']) == s;
  }

  /** A date of the right shape that is not a calendar date is never refused as past. */
  lemma {:induction false} NonCalendarDateNotPast(b: OrderBody, today: Date)
    requires b.clienteId.Finite? && b.productoId.Finite? && b.cantidad.IsPositive()
    requires b.fechaEntrega == Some("2000-13-40")
    ensures ValidateOrder(b, today).Success?
  {
    NonCalendarShape();
    TrimmedDate(b, "2000-13-40");
    ValidateOnDate(b, today, "2000-13-40");
  }

  lemma NonCalendarShape()
    ensures MatchesIsoPattern("2000-13-40") && !IsCalendarDate(ParseIso("2000-13-40").value)
  {
    var s := "2000-13-40";
    assert MatchesIsoPattern(s);
    assert ParseIso(s).value.month == DigitValue(s[5]) * 10 + DigitValue(s[6]);
    assert DigitValue(s[5]) == 1 && DigitValue(s[6]) == 3;
  }

  /** The statement that throws, if any: the source's `try` blocks turn an exception
      at getConnection into "Error de entrada" (400) and one inside the transaction
      into a ROLLBACK and "Error al crear pedido" (500). */
  datatype Step = AtConnect | AtBegin | AtSelectClient | AtSelectProduct | AtInsert | AtUpdate | AtCommit
  datatype Fault = NoFault | ThrowsAt(step: Step)

  /** How one POST ends. */
  datatype Decision =
    | Reject(result: CreateOrderResult)                   // nothing written
    | RolledBack                                          // the INSERT ran, then was rolled back
    | Commits(user: UserId, order: ValidOrder, product: nat)  // `product` is the debited row

  /** The transaction of a POST whose body is valid, on tables `t`. */
  function Transact(t: Tables, user: UserId, order: ValidOrder, fault: Fault): (d: Decision)
    ensures d.Commits? ==>
      && fault == NoFault && d.user == user && d.order == order
      && FindClient(t.clientes, order.clienteId, user).Some?
      && FindProduct(t.productos, order.productoId, user) == Some(d.product)
      && order.cantidad <= t.productos[d.product].cantidad
    ensures d.RolledBack? ==> fault.ThrowsAt? && fault.step != AtInsert
    ensures d.Reject? ==> !d.result.Created? && !d.result.BadInput?
    ensures fault == ThrowsAt(AtBegin) || fault == ThrowsAt(AtSelectClient) ==> d == Reject(Internal)
    ensures fault != ThrowsAt(AtBegin) && fault != ThrowsAt(AtSelectClient) ==>
      var client, product := FindClient(t.clientes, order.clienteId, user), FindProduct(t.productos, order.productoId, user);
      && (client.None? ==> d == Reject(NotFound(MissingClient)))
      && (client.Some? && fault == ThrowsAt(AtSelectProduct) ==> d == Reject(Internal))
      && (client.Some? && fault != ThrowsAt(AtSelectProduct) ==>
          && (product.None? ==> d == Reject(NotFound(MissingProduct)))
          && (product.Some? && t.productos[product.value].cantidad < order.cantidad ==> d == Reject(InsufficientStock))
          && (product.Some? && order.cantidad <= t.productos[product.value].cantidad ==>
              && (fault == NoFault ==> d == Commits(user, order, product.value))
              && (fault == ThrowsAt(AtInsert) ==> d == Reject(Internal))
              && (fault == ThrowsAt(AtUpdate) || fault == ThrowsAt(AtCommit) ==> d == RolledBack)))
  {
    if fault == ThrowsAt(AtBegin) || fault == ThrowsAt(AtSelectClient) then Reject(Internal)
    else if FindClient(t.clientes, order.clienteId, user).None? then Reject(NotFound(MissingClient))
    else if fault == ThrowsAt(AtSelectProduct) then Reject(Internal)
    else match FindProduct(t.productos, order.productoId, user)
      case None => Reject(NotFound(MissingProduct))
      case Some(k) =>
        if t.productos[k].cantidad < order.cantidad then Reject(InsufficientStock)
        else if fault == ThrowsAt(AtInsert) then Reject(Internal)
        else if fault.ThrowsAt? then RolledBack  // at the UPDATE or at COMMIT
        else Commits(user, order, k)
  }

  /** The outcome of a POST on tables `t`, following the handler step by step. A body
      that is not JSON or is `null` (`None`) and a failing `getConnection` both end in
      the outer `catch`, which answers 400. */
  function Decide(t: Tables, session: Option<UserId>, body: Option<OrderBody>, today: Date, fault: Fault): (d: Decision)
    ensures d.Commits? ==>
      && fault == NoFault && session == Some(d.user) && body.Some?
      && ValidateOrder(body.value, today) == Success(d.order)
      && FindClient(t.clientes, d.order.clienteId, d.user).Some?
      && FindProduct(t.productos, d.order.productoId, d.user) == Some(d.product)
      && d.order.cantidad <= t.productos[d.product].cantidad
    ensures d.Reject? ==> !d.result.Created?
    ensures session.None? ==> d == Reject(Unauthorized)
    ensures session.Some? && body.None? ==> d == Reject(BadInput(MalformedEntry))
    ensures session.Some? && body.Some? ==>
      var v := ValidateOrder(body.value, today);
      && (v.Failure? ==> d == Reject(BadInput(v.error)))
      && (v.Success? && fault == ThrowsAt(AtConnect) ==> d == Reject(BadInput(MalformedEntry)))
      && (v.Success? && fault != ThrowsAt(AtConnect) ==> d == Transact(t, session.value, v.value, fault))
  {
    if session.None? then Reject(Unauthorized)
    else if body.None? then Reject(BadInput(MalformedEntry))
    else match ValidateOrder(body.value, today)
      case Failure(problem) => Reject(BadInput(problem))
      case Success(order) =>
        if fault == ThrowsAt(AtConnect) then Reject(BadInput(MalformedEntry))
        else Transact(t, session.value, order, fault)
  }

  /** A signed-in request with a valid body, the user's own client and product and
      enough stock commits when nothing throws; equal stock is enough. */
  lemma ValidStockedOrderCommits(t: Tables, user: UserId, body: OrderBody, today: Date)
    requires ValidateOrder(body, today).Success?
    requires var o := ValidateOrder(body, today).value;
      && FindClient(t.clientes, o.clienteId, user).Some?
      && FindProduct(t.productos, o.productoId, user).Some?
      && o.cantidad <= t.productos[FindProduct(t.productos, o.productoId, user).value].cantidad
    ensures var o := ValidateOrder(body, today).value;
      Decide(t, Some(user), Some(body), today, NoFault)
      == Commits(user, o, FindProduct(t.productos, o.productoId, user).value)
  {
  }

  /** The order row a committed POST inserts under key `id`. */
  function NewOrder(id: nat, d: Decision): OrderRow
    requires d.Commits?
  {
    OrderRow(id, d.user, d.order.clienteId, d.order.productoId, d.order.cantidad, d.order.fechaEntrega, Pendiente)
  }

  /** The tables after a committed POST. */
  function Committed(t: Tables, id: nat, d: Decision): Tables
    requires d.Commits?
  {
    Tables(t.clientes, Debit(t.productos, d.order.productoId, d.user, d.order.cantidad), t.pedidos + [NewOrder(id, d)])
  }

  /** A commit keeps every table invariant; in particular no stock goes negative. */
  lemma {:induction false} CommitKeepsTablesValid(t: Tables, nc: nat, np: nat, no: nat, d: Decision)
    requires TablesValid(t, nc, np, no)
    requires d.Commits? && FindProduct(t.productos, d.order.productoId, d.user) == Some(d.product)
    requires 0 < d.order.cantidad <= t.productos[d.product].cantidad
    ensures TablesValid(Committed(t, no, d), nc, np, no + 1)
  {
    var k := d.product;
    DebitOneRow(t.productos, np, k, d.order.cantidad);
    var t' := Committed(t, no, d);
    assert t'.productos == t.productos[k := t.productos[k].(cantidad := t.productos[k].cantidad - d.order.cantidad)];
    assert OrderKeys(t'.pedidos, no + 1) by {
      assert forall i :: 0 <= i < |t.pedidos| ==> t'.pedidos[i] == t.pedidos[i];
    }
    assert PositiveQuantities(t'.pedidos) by {
      assert forall i :: 0 <= i < |t.pedidos| ==> t'.pedidos[i] == t.pedidos[i];
    }
  }

  /** Stock plus the units held by orders is the same before and after a commit, for
      every product row: what the order takes from the shelf it records. */
  lemma {:induction false} CommitConservesUnits(t: Tables, id: nat, d: Decision, i: nat)
    requires d.Commits? && i < |t.productos|
    ensures var p := t.productos[i];
      Committed(t, id, d).productos[i].cantidad + Ordered(Committed(t, id, d).pedidos, p.id, p.userId)
      == p.cantidad + Ordered(t.pedidos, p.id, p.userId)
  {
    OrderedAppend(t.pedidos, NewOrder(id, d), t.productos[i].id, t.productos[i].userId);
  }

  /** Ordering the last units of a product empties it, and from then on no order for
      that product can be committed. */
  lemma {:induction false} SoldOutStaysRejected(
    t: Tables, nc: nat, np: nat, no: nat, session: Option<UserId>, body: Option<OrderBody>, today: Date,
    body2: Option<OrderBody>, today2: Date, fault2: Fault)
    requires TablesValid(t, nc, np, no)
    requires Decide(t, session, body, today, NoFault).Commits?
    requires var d := Decide(t, session, body, today, NoFault);
      t.productos[d.product].cantidad == d.order.cantidad
    requires body2.Some? && ValidateOrder(body2.value, today2).Success?
    requires ValidateOrder(body2.value, today2).value.productoId == Decide(t, session, body, today, NoFault).order.productoId
    ensures var d := Decide(t, session, body, today, NoFault);
      var t' := Committed(t, no, d);
      && t'.productos[d.product].cantidad == 0
      && !Decide(t', session, body2, today2, fault2).Commits?
  {
    var d := Decide(t, session, body, today, NoFault);
    var k := d.product;
    var t' := Committed(t, no, d);
    DebitOneRow(t.productos, np, k, d.order.cantidad);
  }

  /** POST /api/pedidos. */
  method CreateOrder(db: Store, session: Option<UserId>, body: Option<OrderBody>, today: Date, fault: Fault)
    returns (r: CreateOrderResult)
    requires db.Valid()
    modifies db
    ensures db.Valid()
    ensures var d := Decide(old(db.Snapshot()), session, body, today, fault);
      && (d.Reject? ==> r == d.result && db.Snapshot() == old(db.Snapshot()) && db.nextOrderId == old(db.nextOrderId))
      && (d.RolledBack? ==> r == Internal && db.Snapshot() == old(db.Snapshot()) && db.nextOrderId == old(db.nextOrderId) + 1)
      && (d.Commits? ==> r == Created(old(db.nextOrderId)) && db.nextOrderId == old(db.nextOrderId) + 1
                         && db.Snapshot() == Committed(old(db.Snapshot()), old(db.nextOrderId), d))
    ensures db.nextClientId == old(db.nextClientId) && db.nextProductId == old(db.nextProductId)
  {
    if session.None? {
      return Unauthorized;
    }
    if body.None? {
      return BadInput(MalformedEntry);
    }
    var v := ValidateOrder(body.value, today);
    if v.Failure? {
      return BadInput(v.error);
    }
    if fault == ThrowsAt(AtConnect) {
      return BadInput(MalformedEntry);
    }
    r := RunTransaction(db, session.value, v.value, fault);
  }

  /** The transaction. On every path that does not commit the tables are rolled back
      to what they were at BEGIN; the order key stays used once the INSERT has run. */
  method RunTransaction(db: Store, user: UserId, order: ValidOrder, fault: Fault) returns (r: CreateOrderResult)
    requires db.Valid() && order.cantidad > 0
    modifies db
    ensures db.Valid()
    ensures var d := Transact(old(db.Snapshot()), user, order, fault);
      && (d.Reject? ==> r == d.result && db.Snapshot() == old(db.Snapshot()) && db.nextOrderId == old(db.nextOrderId))
      && (d.RolledBack? ==> r == Internal && db.Snapshot() == old(db.Snapshot()) && db.nextOrderId == old(db.nextOrderId) + 1)
      && (d.Commits? ==> r == Created(old(db.nextOrderId)) && db.nextOrderId == old(db.nextOrderId) + 1
                         && db.Snapshot() == Committed(old(db.Snapshot()), old(db.nextOrderId), d))
    ensures db.nextClientId == old(db.nextClientId) && db.nextProductId == old(db.nextProductId)
  {
    // BEGIN
    var saved := db.Snapshot();
    ghost var firstOrderId := db.nextOrderId;
    if fault == ThrowsAt(AtBegin) || fault == ThrowsAt(AtSelectClient) {
      db.Rollback(saved);
      return Internal;
    }
    var c := FindClient(db.clientes, order.clienteId, user);
    if c.None? {
      db.Rollback(saved);
      return NotFound(MissingClient);
    }
    if fault == ThrowsAt(AtSelectProduct) {
      db.Rollback(saved);
      return Internal;
    }
    var p := FindProduct(db.productos, order.productoId, user);
    if p.None? {
      db.Rollback(saved);
      return NotFound(MissingProduct);
    }
    if db.productos[p.value].cantidad < order.cantidad {
      db.Rollback(saved);
      return InsufficientStock;
    }
    if fault == ThrowsAt(AtInsert) {
      db.Rollback(saved);
      return Internal;
    }
    var id := db.InsertOrder(user, order.clienteId, order.productoId, order.cantidad, order.fechaEntrega);
    if fault == ThrowsAt(AtUpdate) {
      db.Rollback(saved);
      return Internal;
    }
    db.DebitStock(order.productoId, user, order.cantidad);
    if fault.ThrowsAt? {  // the only exception left is the one at COMMIT
      db.Rollback(saved);
      return Internal;
    }
    // COMMIT
    CommitKeepsTablesValid(saved, db.nextClientId, db.nextProductId, firstOrderId, Transact(saved, user, order, fault));
    r := Created(id);
  }
}
