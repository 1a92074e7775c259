/** The layout around every page: the menu item highlighted for the current
    route, and the route a menu click navigates to. */
module DashboardLayout {
  import opened Wrappers

  /** The menu items the layout knows, and their routes, position by
      position. */
  const Labels: seq<string> := ["Dashboard", "Yuk Angkut", "Yuk Buang", "Kuy Point", "Users", "Profile"]
  const Paths: seq<string> := ["/dashboard", "/yuk-angkut", "/yuk-buang", "/kuy-point", "/users", "/profile"]

  /** The items the sidebar offers. */
  const SidebarItems: seq<string> := ["Dashboard", "Yuk Angkut", "Yuk Buang", "Kuy Point", "Users", "Settings"]

  /** `getActiveItem`: the menu item of a route; any other route highlights
      "Dashboard". */
  function ActiveItem(pathname: string): (r: string)
    ensures r in Labels
  {
    match pathname
    case "/dashboard" => "Dashboard"
    case "/yuk-angkut" => "Yuk Angkut"
    case "/yuk-buang" => "Yuk Buang"
    case "/kuy-point" => "Kuy Point"
    case "/users" => "Users"
    case "/profile" => "Profile"
    case _ => "Dashboard"
  }

  /** `pathMap`. */
  const PathMap: map<string, string> := map[
    "Dashboard" := "/dashboard", "Yuk Angkut" := "/yuk-angkut", "Yuk Buang" := "/yuk-buang",
    "Kuy Point" := "/kuy-point", "Users" := "/users", "Profile" := "/profile"]

  /** `handleSetActiveItem`: the route `navigate` is called with, or `None`
      when the item has no route and nothing happens. */
  function Navigation(menuItem: string): (r: Option<string>)
    ensures r.Some? ==> r.value in Paths
  {
    if menuItem in PathMap then Some(PathMap[menuItem]) else None
  }

  /** The six items and their routes correspond one to one: clicking an
      item navigates to its route, and that route highlights the item. */
  lemma RoundTrip(i: nat)
    requires i < |Labels|
    ensures Navigation(Labels[i]) == Some(Paths[i])
    ensures ActiveItem(Paths[i]) == Labels[i]
  {
  }

  /** An item navigates exactly when it is one of the six, and then to a
      route that highlights it. */
  lemma NavigationIff(menuItem: string)
    ensures Navigation(menuItem).Some? <==> menuItem in Labels
    ensures Navigation(menuItem).Some? ==> ActiveItem(Navigation(menuItem).value) == menuItem
  {
    if menuItem in Labels {
      var i :| 0 <= i < |Labels| && Labels[i] == menuItem;
      RoundTrip(i);
    }
    if menuItem in PathMap {
      assert menuItem in PathMap.Keys;
      assert menuItem == Labels[0] || menuItem == Labels[1] || menuItem == Labels[2]
          || menuItem == Labels[3] || menuItem == Labels[4] || menuItem == Labels[5];
    }
  }

  /** Every route highlights one of the six items; a route that is not one
      of the six highlights "Dashboard", and one that is navigates back to
      itself. */
  lemma ActiveItemIsAnItem(pathname: string)
    ensures ActiveItem(pathname) in Labels
    ensures pathname !in Paths ==> ActiveItem(pathname) == "Dashboard"
    ensures pathname in Paths ==> Navigation(ActiveItem(pathname)) == Some(pathname)
  {
  }

  /** Of the sidebar's items, "Settings" has no route and triggers no
      navigation; every other one navigates to a route that highlights
      it. */
  lemma SidebarNavigation()
    ensures Navigation("Settings") == None
    ensures forall item :: item in SidebarItems && item != "Settings" ==>
      Navigation(item).Some? && ActiveItem(Navigation(item).value) == item
  {
    forall item | item in SidebarItems && item != "Settings"
      ensures Navigation(item).Some? && ActiveItem(Navigation(item).value) == item
    {
      NavigationIff(item);
    }
  }
}
