/** The new-product form (`app/dashboard/productos/nuevo/page.tsx`): `handleSubmit`
    checks the form, posts it to `/api/productos`, and reacts to the response status.
    The response (or the network failure) is a parameter. */
module ProductosNuevoPage {
  import opened Wrappers
  import opened Domain
  import opened Text
  import opened Database
  import ProductosRoute

  /** The form as `handleSubmit` reads it: the name as typed, and `Number(cantidad)`. */
  datatype ProductForm = ProductForm(nombre: string, cantidad: JsNumber)

  /** The JSON body `{ nombre, cantidad }` sent to the server. */
  datatype Request = Request(nombre: string, cantidad: int)

  /** The check before the request: a non-empty trimmed name and a finite,
      non-negative quantity. */
  function BuildRequest(form: ProductForm): (r: Option<Request>)
    ensures r.None? <==> Trim(form.nombre) == "" || !form.cantidad.Finite? || form.cantidad.value < 0
    ensures r.Some? ==> r.value.nombre == Trim(form.nombre) && r.value.cantidad == form.cantidad.value
    ensures r.Some? ==> r.value.nombre != "" && r.value.cantidad >= 0
  {
    var nombre := Trim(form.nombre);
    if nombre == "" || !form.cantidad.Finite? || form.cantidad.value < 0 then None
    else Some(Request(nombre, form.cantidad.value))
  }

  /** What the page does in the end. */
  datatype Outcome =
    | InvalidAlert    // "Completa nombre y cantidad válidos", no request
    | RedirectToLogin // `router.replace("/")`
    | DuplicateAlert  // the 409 message, stays on the form
    | ErrorAlert      // any other failure status, stays on the form
    | GoToList        // `router.push("/dashboard/productos")`
    | NetworkAlert    // `fetch` threw

  /** The branch chain on `res.status`; `None` is a failed `fetch`. */
  function OnResponse(status: Option<int>): (o: Outcome)
    ensures o == NetworkAlert <==> status.None?
    ensures o == RedirectToLogin <==> status == Some(401)
    ensures o == DuplicateAlert <==> status == Some(409)
    ensures o == GoToList <==> status.Some? && 200 <= status.value <= 299
    ensures o != InvalidAlert
  {
    match status
    case None => NetworkAlert
    case Some(code) =>
      if code == 401 then RedirectToLogin
      else if code == 409 then DuplicateAlert
      else if !(200 <= code <= 299) then ErrorAlert
      else GoToList
  }

  /** `handleSubmit`, given the response the server would give to the request. */
  function Submit(form: ProductForm, status: Option<int>): (o: Outcome)
    ensures o == InvalidAlert <==> BuildRequest(form).None?
    ensures o == GoToList ==> BuildRequest(form).Some? && status.Some? && 200 <= status.value <= 299
  {
    if BuildRequest(form).None? then InvalidAlert else OnResponse(status)
  }

  /** The body the route handler parses from the request. */
  function BodyOf(req: Request): ProductosRoute.ProductBody {
    ProductosRoute.ProductBody(Some(req.nombre), Finite(req.cantidad))
  }

  /** A request that passed the form's check is never refused by the server for its
      name, and the server stores the quantity that was typed. */
  lemma {:induction false} ServerAcceptsCheckedForm(t: Tables, session: Option<JsNumber>, form: ProductForm, fault: ProductosRoute.DbFault)
    requires BuildRequest(form).Some?
    ensures var d := ProductosRoute.Decide(t, session, Some(BodyOf(BuildRequest(form).value)), fault);
      && d != ProductosRoute.Reject(ProductosRoute.NameRequired)
      && (d.Inserts? ==> d.cantidad == form.cantidad.value)
  {
    var req := BuildRequest(form).value;
    CheckedNameSurvives(form.nombre);
    ServerAcceptsNamedRequest(t, session, req, fault);
  }

  lemma ServerAcceptsNamedRequest(t: Tables, session: Option<JsNumber>, req: Request, fault: ProductosRoute.DbFault)
    requires ProductosRoute.NormalizeName(Some(req.nombre)) != "" && req.cantidad >= 0
    ensures var d := ProductosRoute.Decide(t, session, Some(BodyOf(req)), fault);
      && d != ProductosRoute.Reject(ProductosRoute.NameRequired)
      && (d.Inserts? ==> d.cantidad == req.cantidad)
  {
  }

  /** The server's normalisation of a name the form let through is not empty. */
  lemma CheckedNameSurvives(typed: string)
    requires Trim(typed) != ""
    ensures ProductosRoute.NormalizeName(Some(Trim(typed))) != ""
  {
    var n := Trim(typed);
    assert !IsJsSpace(n[0]);
    assert !AllSpace(n);
  }

  /** How the page reacts to each server result: it goes to the list exactly when the
      product was created, shows the duplicate message exactly on a duplicate, and
      sends the user to the login page exactly on 401. */
  lemma ServerResultOutcome(r: ProductosRoute.CreateResult)
    ensures OnResponse(Some(ProductosRoute.HttpStatus(r))) == GoToList <==> r.Created?
    ensures OnResponse(Some(ProductosRoute.HttpStatus(r))) == DuplicateAlert <==> r.Duplicate?
    ensures OnResponse(Some(ProductosRoute.HttpStatus(r))) == RedirectToLogin <==> r.Unauthorized?
    ensures OnResponse(Some(ProductosRoute.HttpStatus(r))) == ErrorAlert <==> r.NameRequired? || r.ServerError? || r.Crashed?
  {
  }
}
