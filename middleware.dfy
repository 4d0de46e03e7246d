/** The request filter (`app/dashboard/middleware.ts`): protected paths without a
    `session` cookie are redirected to the login page. The cookie's value is a
    parameter. */
module Middleware {
  import opened Wrappers
  import opened Text
  import opened Lists

  /** `protectedPaths` */
  const ProtectedPaths: seq<string> := ["/dashboard"]

  /** `pathname === p || pathname.startsWith(`${p}/`)` */
  predicate Covers(p: string, pathname: string) {
    pathname == p || StartsWith(pathname, p + "/")
  }

  /** `isProtected` */
  predicate IsProtected(pathname: string) {
    Any(ProtectedPaths, (p: string) => Covers(p, pathname))
  }

  /** A path is protected exactly when it is `/dashboard` or lies below it. */
  lemma ProtectedIff(pathname: string)
    ensures IsProtected(pathname) <==> pathname == "/dashboard" || StartsWith(pathname, "/dashboard/")
  {
    AnyIffExists(ProtectedPaths, (p: string) => Covers(p, pathname));
    assert ProtectedPaths[0] == "/dashboard";
  }

  /** A path that only shares the prefix is not protected. */
  lemma DashboardXNotProtected()
    ensures !IsProtected("/dashboardX")
  {
    ProtectedIff("/dashboardX");
    assert "/dashboardX"[10] != "/dashboard/"[10];
  }

  /** The two answers the filter gives. */
  datatype Response =
    | Redirect(pathname: string, from: string) // to `pathname`, with `?from=` the original path
    | Next                                     // `NextResponse.next()`

  /** `middleware(req)`; `token` is `req.cookies.get("session")?.value`. */
  function Handle(pathname: string, token: Option<string>): (r: Response)
    ensures r.Redirect? <==> IsProtected(pathname) && (token.None? || token.value == "")
    ensures r.Redirect? ==> r.pathname == "/" && r.from == pathname
  {
    if IsProtected(pathname) && (token.None? || token.value == "") then Redirect("/", pathname) else Next
  }

  /** A request carrying a non-empty session cookie always passes. */
  lemma TokenPasses(pathname: string, token: string)
    requires token != ""
    ensures Handle(pathname, Some(token)) == Next
  {
  }

  /** Without a cookie, every page below `/dashboard` sends the user to the login page. */
  lemma NoTokenRedirects(pathname: string)
    requires StartsWith(pathname, "/dashboard/")
    ensures Handle(pathname, None) == Redirect("/", pathname)
  {
    ProtectedIff(pathname);
  }
}
