/**
 * The highlighted entries of the application sidebar
 * (src/components/layout/app-sidebar.tsx): which navigation items are
 * marked active for the current path and the world being viewed.
 */
module Navigation {
  import opened Text
  import opened Entities

  datatype NavItem = NavItem(title: string, href: string, active: bool)

  /** `isActive(path)`: the path itself or anything below it, never a sibling that merely shares the prefix. */
  predicate IsActive(pathname: string, path: string)
  {
    pathname == path || StartsWith(pathname, path + "/")
  }

  /** The same test stated through concatenation. */
  lemma IsActiveIffBelow(pathname: string, path: string)
    ensures IsActive(pathname, path) <==>
              pathname == path || exists rest :: pathname == path + "/" + rest
  {
    if StartsWith(pathname, path + "/") {
      var rest := pathname[|path| + 1..];
      assert pathname == path + "/" + rest;
    }
    if exists rest :: pathname == path + "/" + rest {
      var rest :| pathname == path + "/" + rest;
      assert pathname[..|path + "/"|] == path + "/";
    }
  }

  const DashboardPath := "/dashboard"
  const WorldsPath := "/dashboard/worlds"

  function WorldPath(worldId: Id): string
  {
    WorldsPath + "/" + worldId
  }

  function MainNavItems(pathname: string, currentWorld: Option<Id>): (r: seq<NavItem>)
    ensures |r| == 2
    ensures r[0].href == DashboardPath && (r[0].active <==> pathname == DashboardPath)
    ensures r[1].href == WorldsPath && (r[1].active <==> IsActive(pathname, WorldsPath) && currentWorld.None?)
  {
    [ NavItem("Dashboard", DashboardPath, pathname == DashboardPath),
      NavItem("Worlds", WorldsPath, IsActive(pathname, WorldsPath) && currentWorld.None?) ]
  }

  function WorldNavItems(pathname: string, currentWorld: Option<Id>): (r: seq<NavItem>)
    ensures currentWorld.None? <==> r == []
    ensures currentWorld.Some? ==>
      var base := WorldPath(currentWorld.value);
      && |r| == 3
      && r[0].href == base && (r[0].active <==> pathname == base)
      && r[1].href == base + "/cards" && (r[1].active <==> IsActive(pathname, base + "/cards"))
      && r[2].href == base + "/card-types" && (r[2].active <==> IsActive(pathname, base + "/card-types"))
  {
    match currentWorld
    case None => []
    case Some(id) =>
      var base := WorldPath(id);
      [ NavItem("Overview", base, pathname == base),
        NavItem("Cards", base + "/cards", IsActive(pathname, base + "/cards")),
        NavItem("Card Types", base + "/card-types", IsActive(pathname, base + "/card-types")) ]
  }

  function BottomNavItems(pathname: string): (r: seq<NavItem>)
    ensures |r| == 2
    ensures r[0].href == "/dashboard/profile" && (r[0].active <==> IsActive(pathname, "/dashboard/profile"))
    ensures r[1].href == "/dashboard/settings" && (r[1].active <==> IsActive(pathname, "/dashboard/settings"))
  {
    [ NavItem("Profile", "/dashboard/profile", IsActive(pathname, "/dashboard/profile")),
      NavItem("Settings", "/dashboard/settings", IsActive(pathname, "/dashboard/settings")) ]
  }

  /** A sibling path that only shares the prefix does not activate the item. */
  lemma SiblingNotActive()
    ensures !IsActive("/dashboard/worldsX", WorldsPath)
    ensures IsActive("/dashboard/worlds/w1/cards", WorldsPath)
  {
    assert ("/dashboard/worldsX")[..|WorldsPath + "/"|] != WorldsPath + "/" by {
      assert ("/dashboard/worldsX")[17] == 'X';
      assert (WorldsPath + "/")[17] == '/';
    }
    assert ("/dashboard/worlds/w1/cards")[..|WorldsPath + "/"|] == WorldsPath + "/";
  }

  /** An active path agrees with the item's path on every position of it. */
  lemma ActiveAgreesWithPath(pathname: string, path: string, k: nat)
    requires IsActive(pathname, path) && k < |path|
    ensures k < |pathname| && pathname[k] == path[k]
  {
    if pathname != path {
      assert pathname[..|path + "/"|][k] == (path + "/")[k];
    }
  }

  /** The Cards and Card Types entries of a world are never highlighted together. */
  lemma CardsAndCardTypesExclusive(pathname: string, worldId: Id)
    ensures var base := WorldPath(worldId);
      !(IsActive(pathname, base + "/cards") && IsActive(pathname, base + "/card-types"))
  {
    var base := WorldPath(worldId);
    var k := |base| + 5;
    assert (base + "/cards")[k] == 's';
    assert (base + "/card-types")[k] == '-';
    if IsActive(pathname, base + "/cards") && IsActive(pathname, base + "/card-types") {
      ActiveAgreesWithPath(pathname, base + "/cards", k);
      ActiveAgreesWithPath(pathname, base + "/card-types", k);
    }
  }

  /** Inside a world the Worlds entry is never highlighted, even though the path lies below it. */
  lemma WorldsDimInsideWorld(worldId: Id, rest: string)
    ensures var p := WorldPath(worldId) + rest;
      IsActive(p, WorldsPath) && !MainNavItems(p, Some(worldId))[1].active
  {
    var p := WorldPath(worldId) + rest;
    assert p[..|WorldsPath + "/"|] == WorldsPath + "/";
  }
}
