/** The navigation bar: which of its three tabs is highlighted for the current path. */
module Navbar {
  import opened Text

  /** `isActive(path)`: the root is active only on itself, any other path on itself and below. */
  function IsActive(pathname: string, path: string): (r: bool)
    ensures r ==> StartsWith(pathname, path)
    ensures path != "/" && StartsWith(pathname, path) ==> r
    ensures path == "/" ==> (r <==> pathname == "/")
  {
    if path == "/" then pathname == "/" else StartsWith(pathname, path)
  }

  datatype Tab = Dashboard | Clientes | Visitas

  function TabPath(t: Tab): string {
    match t
    case Dashboard => "/"
    case Clientes => "/clientes"
    case Visitas => "/visitas"
  }

  /** The highlight test each tab's link uses. */
  predicate Highlighted(pathname: string, t: Tab)
    ensures Highlighted(pathname, t) <==>
              if t == Dashboard then pathname == "/" else StartsWith(pathname, TabPath(t))
  {
    match t
    case Dashboard => IsActive(pathname, "/") && pathname == "/"
    case Clientes => IsActive(pathname, "/clientes")
    case Visitas => IsActive(pathname, "/visitas")
  }

  /** The dashboard link's extra `pathname === '/'` test adds nothing to `isActive('/')`. */
  lemma DashboardTestIsRedundant(pathname: string)
    ensures (IsActive(pathname, "/") && pathname == "/") == IsActive(pathname, "/")
    ensures Highlighted(pathname, Dashboard) <==> pathname == "/"
  {
  }

  /** A sub-route such as `/clientes/novo` highlights its section's tab. */
  lemma SubRoutesHighlightSection(rest: string)
    ensures Highlighted("/clientes" + rest, Clientes)
    ensures Highlighted("/visitas" + rest, Visitas)
  {
    assert ("/clientes" + rest)[..9] == "/clientes";
    assert ("/visitas" + rest)[..8] == "/visitas";
  }

  /** Whatever the path, at most one tab is highlighted. */
  lemma AtMostOneTab(pathname: string, a: Tab, b: Tab)
    requires Highlighted(pathname, a) && Highlighted(pathname, b)
    ensures a == b
  {
    if Highlighted(pathname, Clientes) {
      assert pathname[1] == pathname[..9][1] == 'c';
    }
    if Highlighted(pathname, Visitas) {
      assert pathname[1] == pathname[..8][1] == 'v';
    }
  }
}
