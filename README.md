# feria_manager in Dafny

feria_manager is a small web application for a market-stall seller. It keeps a
list of clients, a product inventory and the orders placed against it. This
project covers two parts of it:

- **The three server route handlers.** `GET` and `POST` on `/api/pedidos`
  (orders), `/api/productos` (products) and `/api/clientes` (clients). They read
  and write three MySQL tables scoped by `user_id`.
- **The dashboard pages and the middleware.** The pages filter, count, sort and
  rewrite the lists the browser keeps in `localStorage`. The sidebar highlights
  the current page. The middleware sends visitors without a session cookie away
  from `/dashboard`.

Layout, one module per concern:

- `Wrappers`, `Domain`, `Text`, `Dates` and `Lists` hold the building blocks.
  - `Wrappers`: `Option`/`Result`.
  - `Domain`: numbers as `Number()` yields them, and the order states.
  - `Text`: the JavaScript string operations used: `trim`, `toLowerCase`,
    `split`, `includes`, and code-point order.
  - `Dates`: the `YYYY-MM-DD` pattern and calendar order.
  - `Lists`: `filter`, `find`, `some`, sorting, and the classes of equal-key elements
    that stability is stated with.
- `Database` holds the tables as a `Store` class. Its constructor is the model's own
  starting state (empty tables, every key counter at 1); the connection pool the
  routes draw from has no counterpart here.
  - Each table is a sequence of rows, and each `AUTO_INCREMENT` counter is a field.
  - The one-statement methods are `InsertOrder`, `DebitStock`, `InsertProduct`,
    `InsertClient` and `Rollback`. They change only what they name.
  - `TablesValid` is the invariant between requests. It requires:
    - keys ascending and below the counter;
    - names unique per user;
    - stock never negative;
    - order quantities positive.
- `PedidosRoute`, `ProductosRoute` and `ClientesRoute` are the handlers.
  - Each POST is a method on the `Store`. The method is proved against a pure
    decision function (`Decide`), which follows the handler's branches in order.
  - Failures of the database driver are an explicit fault parameter. It names
    the statement that throws.
  - The order POST runs a transaction. On any failure, rollback restores all three
    tables.
- `Records` holds the browser-side records and `localStorage`: four JSON keys
  plus everything else.
- One module per page:
  - `ProductosPage`, `PedidosPage`, `HistorialPage` and `ClientesPage` (the list pages);
  - `PedidosNuevoPage`, `ProductosNuevoPage` and `ClientesNuevoPage` (the forms);
  - `DashboardPage`, `PerfilPage`, `AppSidebar` and `Middleware`.
- The two order list pages sort an array in place. `PedidosPage.SortNewestFirst` is an
  insertion sort on an `array`. It is proved sorted, a permutation and stable: orders
  due the same day keep their stored order. `PedidosPage.StableSortUnique` shows that
  these three facts leave exactly one possible result.

Inputs the handlers get from outside are parameters:

- the verified session (`requireSession`);
- the parsed JSON body, or `None` when it is not JSON, is `null`, or (products and
  clients) has a `nombre` that is not a string, all of which end in the outer `catch`;
- today's date;
- the driver fault;
- `Date.now()` ids;
- the result of `confirm()`;
- the HTTP status of a `fetch`.

## Model

| member | source | states |
|---|---|---|
| Database.Store.InsertOrder | app/api/pedidos/route.ts:96-102 | Appends one `Pendiente` row under the next order key and advances that counter. Nothing else changes. |
| Database.Store.DebitStock | app/api/pedidos/route.ts:105-108 | `UPDATE ... SET cantidad = cantidad - ?`: exactly the rows with that id and user lose `q` units. Nothing else changes. |
| Database.Store.InsertProduct | app/api/productos/route.ts:64-67 | Appends one product row under the next product key and advances that counter. The other tables stay as they were. |
| Database.Store.InsertClient | app/api/clientes/route.ts:51-54 | Appends one client row under the next client key and advances that counter. The other tables stay as they were. |
| Database.Store.Rollback | app/api/pedidos/route.ts:112-113 | Restores the saved tables; every `AUTO_INCREMENT` counter keeps its value. |
| Database.FindClient | app/api/pedidos/route.ts:73-76 | The lookup finds a row with that id owned by that user, or none exists. |
| Database.FindProduct | app/api/pedidos/route.ts:82-85 | The lookup finds a product row with that id owned by that user, or none exists. |
| Database.Debit | app/api/pedidos/route.ts:105-108 | The matching rows lose `q` units. Every other row and every other column is unchanged. |
| Database.DebitOneRow | app/api/pedidos/route.ts:105-108 | Keys are unique, so the update touches exactly one row. |
| Database.OrderedAppend | app/api/pedidos/route.ts:96-102 | A new order adds its quantity to its own product's ordered total and to no other product's. |
| PedidosRoute.JoinRow | app/api/pedidos/route.ts:17-29 | A stored order appears iff its client and its product both exist under the same user. The view carries the order's own columns. |
| PedidosRoute.JoinOrders | app/api/pedidos/route.ts:27-30 | `FROM pedidos p JOIN clientes ... JOIN productos ... WHERE p.user_id = ?`: never more views than orders. `PedidosRoute.JoinOrdersExact` states which views. |
| PedidosRoute.JoinOrdersExact | app/api/pedidos/route.ts:27-30 | A view is listed iff it comes from an order row of the session's user whose joins succeed. |
| PedidosRoute.NewerFirstTotal | app/api/pedidos/route.ts:31 | `ORDER BY fecha_entrega DESC, id DESC` compares any two orders. |
| PedidosRoute.ListOrders | app/api/pedidos/route.ts:9-35 | No session gives 401. Otherwise the rows are sorted latest delivery first and are a permutation of the user's joined orders. |
| PedidosRoute.ListOrdersExact | app/api/pedidos/route.ts:15-35 | The listed views are exactly the user's joinable orders. |
| PedidosRoute.HttpStatus | app/api/pedidos/route.ts:46-121 | 201 iff created, 401 iff unauthorized, 404 iff a client or product is missing. 400 for bad input or short stock; 500 iff the transaction failed. |
| PedidosRoute.ValidateOrder | app/api/pedidos/route.ts:50-66 | "Datos inválidos" comes back iff an id is not finite or the quantity is not a positive finite number. An accepted order carries those numbers and the trimmed date. That date matches `YYYY-MM-DD` and is not before today. |
| PedidosRoute.IsoIsTrimmed | app/api/pedidos/route.ts:53 | A string of the date pattern has nothing to trim. |
| PedidosRoute.ValidateOnDate | app/api/pedidos/route.ts:58-66 | With valid numbers and a well-formed date, the result is `PastDate` exactly when the date is before today. Otherwise the order is accepted as given. |
| PedidosRoute.PastDateRejected | app/api/pedidos/route.ts:62-66 | Every calendar date before today is refused. |
| PedidosRoute.TodayOrLaterAccepted | app/api/pedidos/route.ts:62-66 | Today and every later date are accepted, carrying the same date string. |
| PedidosRoute.PaddedDateAccepted | app/api/pedidos/route.ts:53-66 | Surrounding white space is trimmed before the pattern check. |
| PedidosRoute.NonCalendarDateNotPast | app/api/pedidos/route.ts:58-66 | `2000-13-40` passes the pattern but is no calendar date. `new Date` makes it Invalid Date, `f < hoy` is false, and the order is accepted. |
| PedidosRoute.Transact | app/api/pedidos/route.ts:70-115 | The error mapping step by step: a throw at BEGIN or at the client SELECT gives 500; a client the user does not own gives 404; a throw at the product SELECT gives 500; a product the user does not own gives 404; stock below `cantidad` gives 400 "Stock insuficiente"; with enough stock (equal included) no fault commits, a throw at the INSERT gives 500 with nothing written, and a throw at the UPDATE or COMMIT rolls back. Conversely a commit requires no fault, both rows owned and enough stock. |
| PedidosRoute.Decide | app/api/pedidos/route.ts:44-122 | No session gives 401; a body that is not JSON gives 400 "Error de entrada"; a failed validation gives 400 with its own message; a failing connection gives 400 "Error de entrada"; otherwise the outcome is the transaction's. Conversely a commit happens only with a session, a validated body, an owned client and product, enough stock and no fault. |
| PedidosRoute.ValidStockedOrderCommits | app/api/pedidos/route.ts:44-115 | A signed-in, valid order for the user's own client and product with enough stock commits when nothing throws. |
| PedidosRoute.CommitKeepsTablesValid | app/api/pedidos/route.ts:96-111 | Committing an order that is within stock keeps the table invariant, with stock still never negative. |
| PedidosRoute.CommitConservesUnits | app/api/pedidos/route.ts:96-108 | For every product, stock plus units ordered is the same before and after a commit. |
| PedidosRoute.SoldOutStaysRejected | app/api/pedidos/route.ts:90-93 | After an order takes the last unit, no later order for that product can commit, whatever its fault. |
| PedidosRoute.RunTransaction | app/api/pedidos/route.ts:68-118 | The method's effect matches `Transact`. A rejection leaves everything unchanged. A rollback restores the tables but consumes the order key. A commit appends the order and debits the stock. |
| PedidosRoute.CreateOrder | app/api/pedidos/route.ts:44-123 | The whole POST: the result and new state are those `Decide` prescribes, and the table invariant is kept. |
| ProductosRoute.OwnedProductsExact | app/api/productos/route.ts:17-26 | A view is selected iff it comes from a product row of the session's user. |
| ProductosRoute.ByNameTotal | app/api/productos/route.ts:18 | `ORDER BY nombre ASC` compares any two products. |
| ProductosRoute.ListProducts | app/api/productos/route.ts:10-28 | No session at all crashes. A non-numeric user id gives 401. Otherwise the rows are sorted by name and are a permutation of the user's products. |
| ProductosRoute.ListProductsExact | app/api/productos/route.ts:17-28 | The listed views are exactly the user's products. |
| ProductosRoute.HttpStatus | app/api/productos/route.ts:41-82 | 201 iff created, 401 iff unauthorized, 400 iff the name is missing, 409 iff duplicate, 500 otherwise. |
| ProductosRoute.NormalizeName | app/api/productos/route.ts:45 | `(nombre ?? "").trim().toLowerCase()`. It is empty iff the input is all white space, and has no upper-case letters. |
| ProductosRoute.NormalizeNameIdempotent | app/api/productos/route.ts:45 | Normalising twice equals normalising once. |
| ProductosRoute.CoerceQuantity | app/api/productos/route.ts:46-47 | A finite non-negative quantity is kept; anything else becomes 0. |
| ProductosRoute.Decide | app/api/productos/route.ts:38-84 | An insert needs a finite session id, a JSON body and no fault. The name must be normalised, non-empty and not yet used by that user. The quantity must be coerced. No rejection reports success. |
| ProductosRoute.DecideOutcomes | app/api/productos/route.ts:38-84 | No session crashes (500), a non-finite id gives 401, a body that is not JSON gives 500. An empty normalised name gives 400; a failing connect or SELECT gives 500; a name the user already has gives 409; for a new name an `ER_DUP_ENTRY` INSERT gives 409, another INSERT failure 500, and no fault inserts the normalised name with the coerced quantity. |
| ProductosRoute.AppendFreshProduct | app/api/productos/route.ts:56-67 | A fresh key, a new name and non-negative stock keep the product invariants. |
| ProductosRoute.InsertKeepsTablesValid | app/api/productos/route.ts:56-70 | An accepted POST keeps the table invariant. |
| ProductosRoute.SecondCreateIsDuplicate | app/api/productos/route.ts:56-62 | Posting the same normalised name again is answered 409. |
| ProductosRoute.CreateProduct | app/api/productos/route.ts:38-84 | The method's effect matches `Decide`. A rejection changes nothing. An insert appends the row and consumes one product key. |
| ClientesRoute.OwnedClientsExact | app/api/clientes/route.ts:15-18 | A view is selected iff it comes from a client row of the session's user. |
| ClientesRoute.ByNameTotal | app/api/clientes/route.ts:16 | `ORDER BY nombre ASC` compares any two clients. |
| ClientesRoute.ListClients | app/api/clientes/route.ts:8-19 | No session crashes. A non-numeric id gives 401. Otherwise the rows are sorted by name and are a permutation of the user's clients. |
| ClientesRoute.ListClientsExact | app/api/clientes/route.ts:15-19 | The listed views are exactly the user's clients. |
| ClientesRoute.HttpStatus | app/api/clientes/route.ts:31-68 | 201 iff created, 401 iff unauthorized, 400 iff the name is missing, 409 iff duplicate, 500 otherwise. |
| ClientesRoute.NormalizeOptional | app/api/clientes/route.ts:36-37 | A missing or empty phone or address becomes `null`. Otherwise it is trimmed and lower-cased. |
| ClientesRoute.BlankOptionalIsEmptyString | app/api/clientes/route.ts:36-37 | A value of only spaces is truthy, so it is stored as `""` and not as `null`. |
| ClientesRoute.NormalizeOptionalIdempotent | app/api/clientes/route.ts:36-37 | A stored non-empty value normalises to itself. |
| ClientesRoute.Decide | app/api/clientes/route.ts:28-70 | An insert needs a finite session id, a JSON body and no fault. The name must be normalised, non-empty and new for that user, and the optional fields normalised. No rejection reports success. |
| ClientesRoute.DecideOutcomes | app/api/clientes/route.ts:28-70 | No session crashes (500), a non-finite id gives 401, a body that is not JSON gives 500. An empty normalised name gives 400; a failing connect or SELECT gives 500; a name the user already has gives 409; for a new name an `ER_DUP_ENTRY` INSERT gives 409, another INSERT failure 500, and no fault inserts the normalised name and optional fields. |
| ClientesRoute.AppendFreshClient | app/api/clientes/route.ts:43-54 | A fresh key and a new name keep the client invariants. |
| ClientesRoute.InsertKeepsTablesValid | app/api/clientes/route.ts:43-56 | An accepted POST keeps the table invariant. |
| ClientesRoute.SecondCreateIsDuplicate | app/api/clientes/route.ts:43-49 | Posting the same normalised name again is answered 409. |
| ClientesRoute.CreateClient | app/api/clientes/route.ts:28-70 | The method's effect matches `Decide`. A rejection changes nothing. An insert appends the row and consumes one client key. |
| Domain.NameInjective | types/pedido.ts:2 | The three order states are told apart by their stored names. |
| Text.Trim | app/api/productos/route.ts:45 | `trim()` removes white space from both ends only, and yields `""` iff the string is all white space. |
| Text.TrimIdempotent | app/api/pedidos/route.ts:53 | Trimming twice equals trimming once. |
| Text.TrimLowerCommute | app/api/clientes/route.ts:35 | Trimming and lower-casing commute. |
| Text.LowerIdempotent | app/dashboard/productos/page.tsx:29-31 | Lower-casing twice equals once, and leaves no upper-case letter. |
| Text.ContainsIffOccurs | app/dashboard/clientes/page.tsx:30-32 | `includes` holds iff the needle occurs at some position. |
| Text.JoinSplit | app/dashboard/perfil/page.tsx:30-36 | Joining the pieces of `split` gives back the string. |
| Text.SplitJoin | app/dashboard/perfil/page.tsx:30-36 | Splitting the join of separator-free pieces gives back the pieces. |
| Text.FirstWordIsPrefix | app/dashboard/page.tsx:43 | `split(" ")[0]` is the longest space-free prefix. |
| Text.StrLeTotal | app/api/clientes/route.ts:16 | The name order compares any two strings. |
| Text.StrLeAntisymmetric | app/api/clientes/route.ts:16 | Two names ordered both ways are equal. |
| Dates.ParseIso | app/api/pedidos/route.ts:58-60 | A parse succeeds iff the string matches `^\d{4}-\d{2}-\d{2}$`. |
| Dates.ParseFormat | app/api/pedidos/route.ts:58-63 | Formatting a date and parsing it gives the date back. |
| Dates.FormatParse | app/api/pedidos/route.ts:58-63 | Parsing a pattern string and formatting it gives the string back. |
| Dates.OrdinalOrdersDates | app/api/pedidos/route.ts:31-64 | The numeric date key agrees with calendar order, and equal keys mean equal dates. |
| Lists.FilterIsSubsequence | app/dashboard/productos/page.tsx:46 | `filter` keeps the order of what it keeps. |
| Lists.FilterConjunction | app/dashboard/historial/page.tsx:34-38 | Filtering by a conjunction equals filtering twice. |
| Lists.ComplementaryFilters | app/dashboard/productos/page.tsx:45-48 | What a predicate keeps and what its negation keeps add up to the whole list. |
| Lists.FindFirst | app/dashboard/pedidos/nuevo/page.tsx:44-45 | `find` yields the first position that matches, or none when nothing matches. |
| Lists.AnyIffExists | app/dashboard/middleware.ts:11-13 | `some` holds iff some element matches. |
| Lists.SortBySorted | app/api/pedidos/route.ts:31 | Insertion sort under a total order, as the `ORDER BY` of the three `GET`s, yields a sorted permutation. |
| Lists.Ties | app/dashboard/pedidos/page.tsx:131-132 | The elements with one key, in their order; all of them carry that key. |
| Lists.TiesAppend | app/dashboard/pedidos/page.tsx:131-132 | The elements with a key in a concatenation are those of each part, in turn. |
| Lists.TiesSwapPair | app/dashboard/pedidos/page.tsx:131-132 | Exchanging two neighbours with different keys changes no key's elements. |
| Lists.TiesPair | app/dashboard/pedidos/page.tsx:131-132 | Two elements with different keys, in either order, give every key the same ties. |
| Lists.SwapKeepsTies | app/dashboard/pedidos/page.tsx:131-132 | Such an exchange inside a sequence keeps every tie in its order. |
| Lists.SameTiesTrans | app/dashboard/pedidos/page.tsx:131-132 | Keeping the ties is transitive across steps. |
| Records.StoredOrders | app/dashboard/page.tsx:26 | `JSON.parse(getItem(k) \|\| "[]")`: the stored list, or the empty list when the key is absent. |
| Records.RemoveSessionKeys | app/dashboard/perfil/page.tsx:22-25 | The four app keys are gone and every other key is kept. |
| ProductosPage.AdjustStock | app/dashboard/productos/page.tsx:38-43 | Only the product with that id changes, and only its quantity. The new quantity is old plus change, or 0 when that would be negative. |
| ProductosPage.AdjustStockKeepsNonNegative | app/dashboard/productos/page.tsx:38-43 | Stock that is never negative stays never negative. |
| ProductosPage.IncrementThenDecrement | app/dashboard/productos/page.tsx:133-147 | `+1` then `−1` restores the list. |
| ProductosPage.DecrementAtZeroChangesNothing | app/dashboard/productos/page.tsx:133-134 | `−1` on a product at 0 changes nothing, which is why the button is disabled there. |
| ProductosPage.RemoveProduct | app/dashboard/productos/page.tsx:45-48 | No product with that id remains, and every other product does. |
| ProductosPage.RemoveProductExact | app/dashboard/productos/page.tsx:45-48 | Order is kept, and exactly the products with that id are dropped. |
| ProductosPage.FilterProducts | app/dashboard/productos/page.tsx:29-31 | Exactly the products whose lower-cased name contains the lower-cased filter are shown. |
| ProductosPage.EmptyFilterKeepsAll | app/dashboard/productos/page.tsx:29-31 | An empty search shows every product. |
| ProductosPage.FilterIgnoresCase | app/dashboard/productos/page.tsx:29-31 | The search ignores the case of what was typed. |
| ProductosPage.StockBadge | app/dashboard/productos/page.tsx:50-62 | "Disponible" iff more than 10, "Poco stock" iff 1 to 10, "Agotado" iff 0 or less. |
| ProductosPage.BadgeMonotone | app/dashboard/productos/page.tsx:50-62 | The badge never gets worse as stock grows. |
| ProductosPage.ReplaceEdited | app/dashboard/productos/page.tsx:188-191 | The selected product is replaced by the edited one and every other is kept. |
| ProductosPage.ReplaceEditedIdempotent | app/dashboard/productos/page.tsx:188-191 | Saving the same edit twice equals saving it once. |
| PedidosPage.FormatDate | app/dashboard/pedidos/page.tsx:20-23 | `formatearFecha`: the `split("-")` pieces in the order day, month, year, joined by `-`, where a missing piece prints as `undefined`. The lemmas below state what it yields. |
| PedidosPage.FormatDateReversesPieces | app/dashboard/pedidos/page.tsx:20-23 | `Y-M-D` is shown as `D-M-Y`. |
| PedidosPage.FormatIsoDate | app/dashboard/pedidos/page.tsx:20-23 | A `YYYY-MM-DD` date is shown as `DD-MM-YYYY`. |
| PedidosPage.FormatDateInvolution | app/dashboard/pedidos/page.tsx:20-23 | Formatting twice gives back a three-piece date. |
| PedidosPage.FormatDateWithoutDash | app/dashboard/pedidos/page.tsx:20-23 | A date without `-` is shown as `undefined-undefined-` followed by the date. |
| PedidosPage.ChangeStatus | app/dashboard/pedidos/page.tsx:41-44 | Only the order with that id changes, and only its state. |
| PedidosPage.RemoveOrder | app/dashboard/pedidos/page.tsx:46-49 | No order with that id remains, and every other order does. |
| PedidosPage.RemoveOrderExact | app/dashboard/pedidos/page.tsx:46-49 | Order is kept, and exactly the orders with that id are dropped. |
| PedidosPage.CountIsPositions | app/dashboard/pedidos/page.tsx:64-65 | A state's count is the number of positions holding that state. |
| PedidosPage.PendingPlusDeliveredBounded | app/dashboard/pedidos/page.tsx:64-65 | The pending and delivered counts never add up to more than the orders. |
| PedidosPage.MarkDeliveredMovesCount | app/dashboard/pedidos/page.tsx:157-169 | Marking a uniquely-identified pending order delivered moves one from the pending count to the delivered count. |
| PedidosPage.CardActions | app/dashboard/pedidos/page.tsx:157-181 | Every card can be deleted. "Marcar Entregado" appears iff the order is pending. |
| PedidosPage.MarkedOrdersLoseButton | app/dashboard/pedidos/page.tsx:157-169 | Once marked delivered, the order's card no longer offers the button. |
| PedidosPage.LaterFirstTotal | app/dashboard/pedidos/page.tsx:131-132 | The comparator compares any two orders. |
| PedidosPage.SortNewestFirst | app/dashboard/pedidos/page.tsx:131-132 | In place, the array becomes sorted latest delivery first and holds the same orders. Orders due the same day keep their relative order, as `Array.prototype.sort` is stable. |
| PedidosPage.SortDescending | app/dashboard/pedidos/page.tsx:131-132 | In place, the array becomes non-increasing in the key, holds the same elements and keeps every tie in its order. |
| PedidosPage.SinkIntoPlace | app/dashboard/pedidos/page.tsx:131-132 | One insertion step extends the sorted prefix by one element, keeps the elements and keeps every tie in its order. |
| PedidosPage.SinkStops | app/dashboard/pedidos/page.tsx:131-132 | Where an insertion step stops, the sorted runs on both sides join into one sorted prefix. |
| PedidosPage.DescendingBelowHead | app/dashboard/pedidos/page.tsx:131-132 | In a sorted result no key exceeds the first. |
| PedidosPage.NoTies | app/dashboard/pedidos/page.tsx:131-132 | A key that no element has selects nothing. |
| PedidosPage.TiesOfHead | app/dashboard/pedidos/page.tsx:131-132 | The first element opens its own key's ties, and the other keys' ties lie in the rest. |
| PedidosPage.SameHead | app/dashboard/pedidos/page.tsx:131-132 | Two sorted sequences with the same ties start with the same element. |
| PedidosPage.SameTiesTail | app/dashboard/pedidos/page.tsx:131-132 | Dropping a shared first element keeps the ties equal. |
| PedidosPage.DescendingTail | app/dashboard/pedidos/page.tsx:131-132 | The rest of a sorted sequence is sorted. |
| PedidosPage.StableSortUnique | app/dashboard/pedidos/page.tsx:131-132 | Sorted by descending key with every tie kept in order, the result is unique: it is the stable sort of the input. |
| HistorialPage.FilterOrdersAsWritten | app/dashboard/historial/page.tsx:34-38 | Keeps exactly the orders passing the two tests as written, where `"all"` is a literal value. |
| HistorialPage.AllStatesShowsNothing | app/dashboard/historial/page.tsx:34-38 | Picking "Todos los estados" shows no order at all. |
| HistorialPage.AllClientsShowsNothing | app/dashboard/historial/page.tsx:34-38 | Picking "Todos los clientes" shows no order at all. |
| HistorialPage.FilterOrders | app/dashboard/historial/page.tsx:34-38 | Keeps exactly the orders passing each filter, where `""` and `"all"` restrict nothing. |
| HistorialPage.AllOptionsShowEverything | app/dashboard/historial/page.tsx:119-136 | With both "all" options picked, every order is shown. |
| HistorialPage.FilterAgreesWithoutAll | app/dashboard/historial/page.tsx:34-38 | Except for "all", the corrected filter is the filter as written. |
| HistorialPage.FiltersConjoin | app/dashboard/historial/page.tsx:34-38 | Both filters together equal applying one and then the other. |
| HistorialPage.StateFilterMatchesCount | app/dashboard/historial/page.tsx:58-60 | Filtering by one state lists as many orders as that state's count. |
| HistorialPage.FilteredIsSubsequence | app/dashboard/historial/page.tsx:34-38 | Filtering keeps the stored order. |
| HistorialPage.ClearFilters | app/dashboard/historial/page.tsx:53-56 | Clearing leaves neither filter restricting. |
| HistorialPage.ClearedFiltersShowEverything | app/dashboard/historial/page.tsx:53-56 | After clearing, every order is shown, by both the written and the corrected filter. |
| HistorialPage.HistoryCounts | app/dashboard/historial/page.tsx:58-60 | The total, delivered and pending counts, with delivered plus pending at most the total. |
| HistorialPage.ShownOrders | app/dashboard/historial/page.tsx:34-176 | The page as written: a fresh array holding exactly the orders the literal filter keeps, sorted latest delivery first, with same-day orders in stored order. With an "all" state it is empty, as `HistorialPage.AllStatesShowsNothing` shows. |
| HistorialPage.ShownOrdersCorrected | app/dashboard/historial/page.tsx:34-176 | The same list built on the corrected filter, so both "all" options show every order. |
| ClientesPage.FilterClients | app/dashboard/clientes/page.tsx:30-32 | Exactly the clients matching the filter are shown. A match is the lower-cased filter in the lower-cased name, or the filter as typed in the phone. |
| ClientesPage.EmptyFilterKeepsAll | app/dashboard/clientes/page.tsx:30-32 | An empty search shows every client. |
| ClientesPage.FilteredIsSubsequence | app/dashboard/clientes/page.tsx:30-32 | The search keeps the stored order. |
| ClientesPage.CountClientOrders | app/dashboard/clientes/page.tsx:34-37 | The number of stored orders naming that client. |
| ClientesPage.RemoveClient | app/dashboard/clientes/page.tsx:39-43 | No client with that id remains, and every other client does. |
| ClientesPage.StoreAfterRemove | app/dashboard/clientes/page.tsx:39-43 | Only the `clientes` key is rewritten. |
| ClientesPage.RemoveClientExact | app/dashboard/clientes/page.tsx:39-43 | Order is kept, and exactly the clients with that id are dropped. |
| ClientesPage.RemoveClientKeepsOrders | app/dashboard/clientes/page.tsx:34-43 | Deleting a client leaves every order, and every client's order count, as it was. |
| ClientesPage.ReplaceEditedClient | app/dashboard/clientes/page.tsx:153-157 | The selected client is replaced by the edited one and every other is kept. |
| ClientesPage.ReplaceEditedIdempotent | app/dashboard/clientes/page.tsx:153-157 | Saving the same edit twice equals saving it once. |
| PedidosNuevoPage.ClientName | app/dashboard/pedidos/nuevo/page.tsx:44-51 | The name of the first client with that id, or `""` when there is none. |
| PedidosNuevoPage.ProductName | app/dashboard/pedidos/nuevo/page.tsx:45-53 | The name of the first product with that id, or `""` when there is none. |
| PedidosNuevoPage.NewOrder | app/dashboard/pedidos/nuevo/page.tsx:48-57 | The new order carries the form's fields and the looked-up names, and is `Pendiente`. |
| PedidosNuevoPage.Submit | app/dashboard/pedidos/nuevo/page.tsx:41-61 | The new order is appended to the stored orders and no other key changes. The page goes to `/dashboard/pedidos`. |
| PedidosNuevoPage.SubmitAppendsOne | app/dashboard/pedidos/nuevo/page.tsx:47-59 | Exactly one order is added, at the end. It is pending, and the stored stock is untouched. |
| PedidosNuevoPage.SubmitAddsOnePending | app/dashboard/pedidos/nuevo/page.tsx:56-59 | The pending count grows by one and the delivered count stays. |
| ClientesNuevoPage.NewClient | app/dashboard/clientes/nuevo/page.tsx:25-28 | The new client carries the fresh id and the form's fields unchanged. |
| ClientesNuevoPage.Submit | app/dashboard/clientes/nuevo/page.tsx:21-32 | The new client is appended and no other key changes. The page goes to `/dashboard/clientes`. |
| ClientesNuevoPage.SubmitAppendsOne | app/dashboard/clientes/nuevo/page.tsx:24-30 | Exactly one client is added, at the end. |
| ClientesNuevoPage.SameNameTwice | app/dashboard/clientes/nuevo/page.tsx:24-30 | The page does no duplicate check: the same name submitted twice is stored twice. |
| ProductosNuevoPage.BuildRequest | app/dashboard/productos/nuevo/page.tsx:23-36 | The form is refused iff the trimmed name is empty or the quantity is not a finite number ≥ 0. Otherwise it sends the trimmed name and that quantity. |
| ProductosNuevoPage.OnResponse | app/dashboard/productos/nuevo/page.tsx:39-58 | A network failure alerts. 401 goes to login and 409 is the duplicate alert. 2xx goes to the list; any other status alerts. |
| ProductosNuevoPage.Submit | app/dashboard/productos/nuevo/page.tsx:20-59 | The invalid-form alert comes iff the check refuses. Going to the list needs a valid form and a 2xx. |
| ProductosNuevoPage.CheckedNameSurvives | app/dashboard/productos/nuevo/page.tsx:23-26 | A name the page accepts is still non-empty after the server normalises it. |
| ProductosNuevoPage.ServerAcceptsNamedRequest | app/api/productos/route.ts:45-51 | The server does not refuse a non-empty name and keeps the non-negative quantity it is sent. |
| ProductosNuevoPage.ServerAcceptsCheckedForm | app/dashboard/productos/nuevo/page.tsx:23-36 | A form the page accepts is never refused by the server for its name, and its quantity arrives as typed. |
| ProductosNuevoPage.ServerResultOutcome | app/dashboard/productos/nuevo/page.tsx:39-54 | The page goes to the list iff the server created the product, and shows the duplicate alert iff it reported a duplicate. It goes to login iff unauthorized. |
| DashboardPage.ComputeStats | app/dashboard/page.tsx:24-36 | Client and product counts are the stored lengths; pending and delivered are the positions in those states. Their sum is at most the order count. |
| DashboardPage.EmptyStorageStats | app/dashboard/page.tsx:24-36 | With nothing stored, every count is 0. |
| DashboardPage.Greeting | app/dashboard/page.tsx:43 | Never empty and space-free. With no name it is "Usuario"; otherwise the first word, or "Usuario" when that word is empty. |
| DashboardPage.GreetingIsFirstWord | app/dashboard/page.tsx:43 | For a name not starting with a space, the greeting is the name up to its first space. |
| DashboardPage.LeadingSpaceGreetsDefault | app/dashboard/page.tsx:43 | A name starting with a space greets "Usuario". |
| PerfilPage.Initials | app/dashboard/perfil/page.tsx:30-36 | `getInitials`: split on `" "`, take `n[0]` of each piece, join and upper-case. `PerfilPage.InitialsPerWord` states what it yields. |
| PerfilPage.HeadsSkipEmpty | app/dashboard/perfil/page.tsx:33-34 | Empty pieces add nothing: `n[0]` is `undefined` and joins as `""`. |
| PerfilPage.InitialsPerWord | app/dashboard/perfil/page.tsx:30-36 | One capital per non-empty word: the upper-cased first letter of each. |
| PerfilPage.InitialsOfEmpty | app/dashboard/perfil/page.tsx:30-36 | An empty name has no initials. |
| PerfilPage.InitialsOnlySpaceSplits | app/dashboard/perfil/page.tsx:32 | Only spaces split a name, so a space-free name has one initial. |
| PerfilPage.Logout | app/dashboard/perfil/page.tsx:20-28 | Cancelled, nothing changes. Confirmed, the four keys are removed, the rest is kept and the page goes to `/`. |
| PerfilPage.LogoutIdempotent | app/dashboard/perfil/page.tsx:20-28 | Logging out twice equals logging out once. |
| AppSidebar.IsActive | components/app-sidebar.tsx:100 | A menu item is marked active when the current path equals its url exactly. The lemmas below state what it implies for the menu. |
| AppSidebar.AtMostOneActive | components/app-sidebar.tsx:23-100 | At most one menu item is highlighted. |
| AppSidebar.SubRouteNotActive | components/app-sidebar.tsx:100 | Sub-pages of an item do not highlight it. |
| AppSidebar.NewOrderFormHighlightsNothing | components/app-sidebar.tsx:23-100 | On `/dashboard/pedidos/nuevo`, no item is highlighted. |
| AppSidebar.DisplayName | components/app-sidebar.tsx:122 | The shown name is the part of the name before its first space. |
| AppSidebar.AvatarSource | components/app-sidebar.tsx:118 | The photo URL when it is set, the placeholder otherwise. Never empty. |
| AppSidebar.Logout | components/app-sidebar.tsx:63-69 | The four keys are removed and the page goes to `/`, with no confirmation. |
| AppSidebar.LogoutIsConfirmedProfileLogout | components/app-sidebar.tsx:63-69 | The sidebar logout equals the profile page's logout once confirmed. |
| Middleware.IsProtected | app/dashboard/middleware.ts:9-13 | A path is protected when some listed prefix equals it or is followed in it by `/`. `Middleware.ProtectedIff` is what it means. |
| Middleware.ProtectedIff | app/dashboard/middleware.ts:9-13 | A path is protected iff it is `/dashboard` or under `/dashboard/`. |
| Middleware.DashboardXNotProtected | app/dashboard/middleware.ts:11-13 | `/dashboardX` shares the prefix but is not protected. |
| Middleware.Handle | app/dashboard/middleware.ts:5-27 | Redirect iff the path is protected and there is no non-empty token. The redirect goes to `/` with `from` set to the path. |
| Middleware.TokenPasses | app/dashboard/middleware.ts:15-26 | Any non-empty session cookie lets the request through. |
| Middleware.NoTokenRedirects | app/dashboard/middleware.ts:15-23 | Without a cookie, a dashboard sub-page redirects to `/`, remembering the path. |

## Left out

- `app/api/pedidos/[id]/route.ts`, `app/api/productos/[id]/route.ts` and `app/api/clientes/[id]/route.ts` (updating and deleting one row) are not part of this model. Neither are the Google sign-in and session routes (`app/api/auth/google/route.ts`, `app/api/session/route.ts`).
- Signing and verifying the session token (`lib/auth.ts`): the verified session is a parameter. For the products and clients routes it is the number `Number(session.userId ?? session.id ?? session.uid)` yields.
- The MySQL pool, connections and `release`, and concurrency between requests. A concurrent insert with the same name is represented only by the `InsertDuplicate` fault, which the handler answers 409.
- A rollback that itself throws.
- PedidosRoute.ListOrders, ProductosRoute.ListProducts, ClientesRoute.ListClients: the query failing and answering 500 is not modelled, nor the connection failure before the `try` in the orders `GET`.
- Database.Store.InsertProduct, Database.Store.InsertClient: an INSERT that fails does not consume an `AUTO_INCREMENT` key in this model. In the orders transaction, a throw after the INSERT does consume the key.
- Time zones: `new Date("YYYY-MM-DD")` is midnight UTC, and `setHours(0,0,0,0)` works in local time. The model compares calendar days, so it omits the shift that makes today count as past west of UTC. Today's date is a parameter.
- PedidosRoute.CreateOrder: the `fecha_entrega` column is a MySQL `DATE`, whose own check of the value is not modelled. A pattern string that is no calendar date, such as `2000-13-40`, passes validation and commits here, where MySQL in strict mode would refuse the INSERT.
- Day rollover inside `Date`: a pattern date with month 1-12 and day 1-31 is taken as that calendar day, ignoring that `2024-02-30` becomes March 1. Month or day out of those ranges is Invalid Date.
- PedidosPage.DeliveryKey: the client-side sort compares `getTime()`. The model gives an unparseable date key 0 where JavaScript gives `NaN`, so it does not model the comparator misbehaving on such dates.
- Fractional numbers: `JsNumber` is an integer or not finite, and `Number`/`parseInt` of form text are parameters.
- `Date.now()` ids and the default delivery date of the new-order form ("tomorrow"): parameters.
- PerfilPage.Initials: strings are sequences of Unicode code points, where JavaScript's are sequences of UTF-16 code units. A word that starts outside the Basic Multilingual Plane gives its whole character as the initial (`"😀 Ana"` gives `"😀A"`), where `n[0]` in JavaScript gives the lone high surrogate. Splitting on a space, trimming and `includes` give the same text either way, since none of them cuts a pair in two; a string holding a lone surrogate cannot be represented at all.
- String case mapping covers ASCII letters only. MySQL's collation (case- and accent-insensitive) is modelled as code-point order, both for `ORDER BY nombre` and for the `UNIQUE` name check.
- `confirm()` is a boolean parameter. `alert`, rendering, the loading skeleton and the mobile edit dialogs' own forms are left out. From those dialogs only the saved record is modelled.
- Which client and product the new-order form shows for its current selection (`app/dashboard/pedidos/nuevo/page.tsx:63-64`). It is the same `find` as `PedidosNuevoPage.ClientName`, so it is not modelled twice.
- The products list page reads `localStorage`, while the new-product form writes through `/api/productos`. Each side is modelled as written; nothing links the two stores.
- `AppSidebar`'s own `getInitials` is the same function as the profile page's, and is modelled once as `PerfilPage.Initials`.

## Findings

| source | as written | input that shows it | evidently intended | confidence | as-written member | corrected member |
|---|---|---|---|---|---|---|
| app/dashboard/historial/page.tsx:34-38 | The "Todos los clientes" and "Todos los estados" options (lines 119 and 136) set the filter to `"all"`. The filter treats only `""` as "no filter", so it keeps orders whose client id or state equals the literal `"all"`. | Pick "Todos los estados": no state is named `"all"`, so the list is empty. | `"all"` restricts nothing, like `""`. | not executed | HistorialPage.AllStatesShowsNothing | HistorialPage.AllOptionsShowEverything |
