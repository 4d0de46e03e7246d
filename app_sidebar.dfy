/** The sidebar (`components/app-sidebar.tsx`): the menu and its active item, the
    user's first name and avatar, and the logout without confirmation. Its
    `getInitials` is the same expression as the profile page's and is modelled once,
    by `PerfilPage.Initials`. */
module AppSidebar {
  import opened Wrappers
  import opened Text
  import opened Records
  import PerfilPage

  datatype MenuItem = MenuItem(title: string, url: string)

  /** `menuItems` */
  const MenuItems: seq<MenuItem> := [
    MenuItem("Dashboard", "/dashboard"),
    MenuItem("Clientes", "/dashboard/clientes"),
    MenuItem("Productos", "/dashboard/productos"),
    MenuItem("Pedidos", "/dashboard/pedidos"),
    MenuItem("Historial", "/dashboard/historial")
  ]

  /** `isActive={pathname === item.url}` */
  predicate IsActive(pathname: string, item: MenuItem) {
    pathname == item.url
  }

  /** No two menu items share a url, so at most one is active. */
  lemma AtMostOneActive(pathname: string, i: nat, j: nat)
    requires i < |MenuItems| && j < |MenuItems|
    requires IsActive(pathname, MenuItems[i]) && IsActive(pathname, MenuItems[j])
    ensures i == j
  {
    assert MenuItems[2].url[11] != MenuItems[4].url[11];
  }

  /** A page below a menu item does not highlight it. */
  lemma SubRouteNotActive(pathname: string, item: MenuItem)
    requires StartsWith(pathname, item.url + "/")
    ensures !IsActive(pathname, item)
  {
  }

  /** The new-order form, below "Pedidos", highlights no item at all. */
  lemma NewOrderFormHighlightsNothing(k: nat)
    requires k < |MenuItems|
    ensures !IsActive("/dashboard/pedidos/nuevo", MenuItems[k])
  {
  }

  /** `user.nombre.split(" ")[0]`: the text before the first space. */
  function DisplayName(nombre: string): (n: string)
    ensures StartsWith(nombre, n) && ' ' !in n
    ensures n == nombre || nombre[|n|] == ' '
  {
    FirstWordIsPrefix(nombre);
    FirstWord(nombre)
  }

  /** `user.foto_url || "/placeholder.svg"` */
  function AvatarSource(fotoUrl: string): (src: string)
    ensures src != ""
    ensures fotoUrl != "" ==> src == fotoUrl
  {
    if fotoUrl == "" then "/placeholder.svg" else fotoUrl
  }

  /** `handleLogout`: the same four keys go, with no confirmation asked. */
  function Logout(s: Storage): (r: PerfilPage.LoggedOut)
    ensures r.storage == RemoveSessionKeys(s) && r.navigateTo == Some("/")
  {
    PerfilPage.LoggedOut(RemoveSessionKeys(s), Some("/"))
  }

  /** The sidebar's logout is the profile page's once confirmed. */
  lemma LogoutIsConfirmedProfileLogout(s: Storage)
    ensures Logout(s) == PerfilPage.Logout(s, true)
  {
  }
}
