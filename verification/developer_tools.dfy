/**
 * The plug-in object (DeveloperTools) that installs and removes the tools:
 * the project action, the catalogue task type, the region-box command in the
 * View menu and on the context bar, and the five tracked tool windows. Each
 * registration is a toggle that is idempotent, and the host registries are
 * modelled by counts of what this plug-in has registered in them.
 */
module DeveloperToolsPlugin {
  import opened Text
  import opened DevTools

  /** The last build without the Cut Corners tool. */
  const LastBuildWithoutCutCorners: int := 4204
  /** The length of the tool-window array. */
  const ToolSlots: nat := 5
  /** The component name of the host's View menu. */
  const ViewMenuName: string := "viewMenu"

  /** The tool titles, slot by slot, for a host build number; null (None) for a tool the build lacks. */
  function ToolTitles(build: int): (r: seq<Option<string>>)
    ensures |r| == ToolSlots
    ensures forall p :: 0 <= p < ToolSlots - 1 ==> r[p].Some?
    ensures r[ToolSlots - 1].None? <==> build <= LastBuildWithoutCutCorners
  {
    [Some("Setting Explorer"), Some("Cache Manager"), Some("Memory Use"), Some("Log Viewer"),
     if build > LastBuildWithoutCutCorners then Some("Cut Corners") else None]
  }

  /** The position of the first menu of the menu bar named "viewMenu". */
  function ViewMenuIndex(menus: seq<string>): (r: Option<nat>)
    ensures r.Some? ==> r.value < |menus| && menus[r.value] == ViewMenuName
    ensures r.Some? ==> forall j :: 0 <= j < r.value ==> menus[j] != ViewMenuName
    ensures r.None? <==> ViewMenuName !in menus
  {
    if menus == [] then None
    else if menus[0] == ViewMenuName then Some(0)
    else match ViewMenuIndex(menus[1..])
      case None => None
      case Some(i) => Some(i + 1)
  }

  /** findViewMenu's search over the menu bar; None stands for its AssertionError. */
  method FindViewMenu(menus: seq<string>) returns (r: Option<nat>)
    ensures r == ViewMenuIndex(menus)
  {
    var i := 0;
    while i < |menus|
      invariant 0 <= i <= |menus|
      invariant forall j :: 0 <= j < i ==> menus[j] != ViewMenuName
    {
      if menus[i] == ViewMenuName {
        assert ViewMenuIndex(menus) == Some(i);
        return Some(i);
      }
      i := i + 1;
    }
    return None;
  }

  /**
   * The loop of registerToolWindows(true): a five-slot array with a new proxy
   * for each tool the build has, slot p with offset multiplier p, and the set
   * of proxies whose tracking it starts.
   */
  method NewToolWindows(build: int) returns (windows: array<DevToolProxy?>, started: set<DevToolProxy>)
    ensures fresh(windows) && windows.Length == ToolSlots
    ensures forall p :: 0 <= p < ToolSlots ==> (windows[p] == null <==> ToolTitles(build)[p].None?)
    ensures forall p :: 0 <= p < ToolSlots && windows[p] != null ==>
      && fresh(windows[p])
      && windows[p].title == ToolTitles(build)[p].value && windows[p].offsetMultiplier == p && windows[p].tw.None?
    ensures forall p, q :: 0 <= p < q < ToolSlots && windows[p] != null ==> windows[p] != windows[q]
    ensures started == set p | 0 <= p < ToolSlots && windows[p] != null :: windows[p]
  {
    var titles := ToolTitles(build);
    windows := new DevToolProxy?[ToolSlots](_ => null);
    started := {};
    var p := 0;
    while p < windows.Length
      invariant 0 <= p <= windows.Length == ToolSlots
      invariant forall q :: p <= q < ToolSlots ==> windows[q] == null
      invariant forall q :: 0 <= q < p ==> (windows[q] == null <==> titles[q].None?)
      invariant forall q :: 0 <= q < p && windows[q] != null ==>
        && fresh(windows[q])
        && windows[q].title == titles[q].value && windows[q].offsetMultiplier == q && windows[q].tw.None?
      invariant forall q, r :: 0 <= q < r < p && windows[q] != null ==> windows[q] != windows[r]
      invariant started == set q | 0 <= q < p && windows[q] != null :: windows[q]
    {
      if titles[p].Some? {
        var proxy := new DevToolProxy(titles[p].value, p);
        windows[p] := proxy;
        started := started + {proxy};
      } else {
        windows[p] := null;
      }
      p := p + 1;
    }
  }

  class DeveloperTools {
    var loaded: bool
    /** Whether the changeEncodingAction, catalogTask, regionBoxMenuItem and regionBoxButton fields are set. */
    var changeEncodingAction: bool
    var catalogTask: bool
    var regionBoxMenuItem: bool
    var regionBoxButton: bool
    var toolWindows: array?<DevToolProxy?>
    /** How many times the host registries hold this plug-in's action, task, menu item and button. */
    var actionRegistrations: nat
    var taskRegistrations: nat
    var viewMenuItems: nat
    var contextButtons: nat
    /** The proxies the application window tracks for this plug-in. */
    var tracked: set<DevToolProxy>
    ghost var Repr: set<object>

    /** The proxies held in the tool-window array. */
    ghost function Proxies(): set<DevToolProxy>
      reads this, toolWindows
      requires toolWindows != null
    {
      set p | 0 <= p < toolWindows.Length && toolWindows[p] != null :: toolWindows[p]
    }

    /**
     * Each registry holds what the fields say and at most one of each
     * registration; the tracked proxies are exactly the non-null slots of the
     * array, which are distinct.
     */
    ghost predicate Valid()
      reads this, Repr
    {
      && this in Repr
      && actionRegistrations == (if changeEncodingAction then 1 else 0)
      && taskRegistrations == (if catalogTask then 1 else 0)
      && viewMenuItems <= 1 && (viewMenuItems == 1 ==> regionBoxMenuItem)
      && contextButtons == (if regionBoxButton then 1 else 0)
      && (regionBoxButton ==> regionBoxMenuItem)
      && (toolWindows == null ==> tracked == {})
      && (toolWindows != null ==>
           && toolWindows in Repr && toolWindows.Length == ToolSlots
           && (forall p :: 0 <= p < ToolSlots && toolWindows[p] != null ==> toolWindows[p] in Repr)
           && (forall p, q :: 0 <= p < q < ToolSlots && toolWindows[p] != null ==> toolWindows[p] != toolWindows[q])
           && tracked == Proxies())
    }

    /** Everything this plug-in registers is registered. */
    ghost predicate AllRegistered()
      reads this
    {
      changeEncodingAction && catalogTask && regionBoxMenuItem && regionBoxButton && toolWindows != null
    }

    constructor ()
      ensures Valid() && fresh(Repr)
      ensures !loaded && !changeEncodingAction && !catalogTask && !regionBoxMenuItem && !regionBoxButton
      ensures toolWindows == null && tracked == {}
      ensures actionRegistrations == 0 && taskRegistrations == 0 && viewMenuItems == 0 && contextButtons == 0
    {
      loaded := false;
      changeEncodingAction := false;
      catalogTask := false;
      regionBoxMenuItem := false;
      regionBoxButton := false;
      toolWindows := null;
      actionRegistrations := 0;
      taskRegistrations := 0;
      viewMenuItems := 0;
      contextButtons := 0;
      tracked := {};
      Repr := {this};
    }

    /** registerChangeEncodingAction; `called` tells whether the host registry was asked. */
    method RegisterChangeEncodingAction(register: bool) returns (called: bool)
      requires Valid()
      modifies this`changeEncodingAction, this`actionRegistrations
      ensures Valid()
      ensures changeEncodingAction == register
      ensures called <==> old(changeEncodingAction) != register
    {
      called := false;
      if register {
        if !changeEncodingAction {
          changeEncodingAction := true;
          actionRegistrations := actionRegistrations + 1;
          called := true;
        }
      } else {
        if changeEncodingAction {
          actionRegistrations := actionRegistrations - 1;
          changeEncodingAction := false;
          called := true;
        }
      }
    }

    /** registerCatalogTask; `called` tells whether the host registry was asked. */
    method RegisterCatalogTask(register: bool) returns (called: bool)
      requires Valid()
      modifies this`catalogTask, this`taskRegistrations
      ensures Valid()
      ensures catalogTask == register
      ensures called <==> old(catalogTask) != register
    {
      called := false;
      if register {
        if !catalogTask {
          catalogTask := true;
          taskRegistrations := taskRegistrations + 1;
          called := true;
        }
      } else {
        if catalogTask {
          taskRegistrations := taskRegistrations - 1;
          catalogTask := false;
          called := true;
        }
      }
    }

    /**
     * registerRegionBoxesCommand(false): the menu item leaves the View menu
     * and the button the context bar. Without a View menu, removing a menu
     * item throws before anything changes.
     */
    method UnregisterRegionBoxes(menus: seq<string>) returns (thrown: bool)
      requires Valid()
      modifies this`regionBoxMenuItem, this`regionBoxButton, this`viewMenuItems, this`contextButtons
      ensures Valid()
      ensures thrown <==> old(regionBoxMenuItem) && ViewMenuName !in menus
      ensures thrown ==>
        regionBoxMenuItem == old(regionBoxMenuItem) && regionBoxButton == old(regionBoxButton) &&
        viewMenuItems == old(viewMenuItems) && contextButtons == old(contextButtons)
      ensures !thrown ==> !regionBoxMenuItem && !regionBoxButton && viewMenuItems == 0 && contextButtons == 0
    {
      if regionBoxMenuItem {
        var viewMenu := FindViewMenu(menus);
        if viewMenu.None? {
          return true;
        }
        viewMenuItems := 0;
        regionBoxMenuItem := false;
      }
      if regionBoxButton {
        contextButtons := contextButtons - 1;
        regionBoxButton := false;
      }
      return false;
    }

    /**
     * registerRegionBoxesCommand(true): any previous registration is removed
     * first, then a new menu item joins the View menu and a new button the
     * context bar. Without a View menu the new item is created but the call
     * throws before the item or the button is added.
     */
    method RegisterRegionBoxes(menus: seq<string>) returns (thrown: bool)
      requires Valid()
      modifies this`regionBoxMenuItem, this`regionBoxButton, this`viewMenuItems, this`contextButtons
      ensures Valid()
      ensures thrown <==> ViewMenuName !in menus
      ensures !thrown ==> regionBoxMenuItem && regionBoxButton && viewMenuItems == 1 && contextButtons == 1
    {
      if regionBoxMenuItem {
        thrown := UnregisterRegionBoxes(menus);
        if thrown {
          return;
        }
      }
      regionBoxMenuItem := true;
      var viewMenu := FindViewMenu(menus);
      if viewMenu.None? {
        return true;
      }
      viewMenuItems := viewMenuItems + 1;
      regionBoxButton := true;
      contextButtons := contextButtons + 1;
      return false;
    }

    /**
     * registerToolWindows(false): every proxy in the array stops being
     * tracked and is unloaded, then the array is dropped.
     */
    method UnregisterToolWindows()
      requires Valid()
      modifies Repr
      ensures Valid() && Repr == old(Repr)
      ensures toolWindows == null && tracked == {}
      ensures old(toolWindows) != null ==>
        forall p :: 0 <= p < ToolSlots && old(toolWindows[p]) != null ==>
          old(toolWindows[p]).tw == Closed(old(toolWindows[p].tw))
      ensures old(toolWindows) != null ==> old(toolWindows[..]) == old(toolWindows)[..]
      ensures loaded == old(loaded) && changeEncodingAction == old(changeEncodingAction) &&
        catalogTask == old(catalogTask) && regionBoxMenuItem == old(regionBoxMenuItem) &&
        regionBoxButton == old(regionBoxButton) && actionRegistrations == old(actionRegistrations) &&
        taskRegistrations == old(taskRegistrations) && viewMenuItems == old(viewMenuItems) &&
        contextButtons == old(contextButtons)
    {
      if toolWindows == null {
        return;
      }
      var windows := toolWindows;
      var i := 0;
      while i < windows.Length
        invariant 0 <= i <= windows.Length == ToolSlots
        invariant windows[..] == old(windows[..])
        invariant forall p :: 0 <= p < ToolSlots && windows[p] != null ==> windows[p] in Repr
        invariant tracked == (set p | i <= p < ToolSlots && windows[p] != null :: windows[p])
        invariant forall p :: 0 <= p < i && windows[p] != null ==> windows[p].tw == Closed(old(windows[p].tw))
        invariant forall p :: i <= p < ToolSlots && windows[p] != null ==> windows[p].tw == old(windows[p].tw)
        invariant loaded == old(loaded) && changeEncodingAction == old(changeEncodingAction) &&
          catalogTask == old(catalogTask) && regionBoxMenuItem == old(regionBoxMenuItem) &&
          regionBoxButton == old(regionBoxButton) && actionRegistrations == old(actionRegistrations) &&
          taskRegistrations == old(taskRegistrations) && viewMenuItems == old(viewMenuItems) &&
          contextButtons == old(contextButtons) && toolWindows == windows && Repr == old(Repr)
      {
        var proxy := windows[i];
        if proxy != null {
          tracked := tracked - {proxy};
          var _ := proxy.Unload();
        }
        i := i + 1;
      }
      toolWindows := null;
    }
    /** The tool-window array as registerToolWindows(true) builds it for a host build number. */
    ghost predicate FreshLayout(build: int)
      reads this, toolWindows
      reads if toolWindows == null then {} else set p | 0 <= p < toolWindows.Length && toolWindows[p] != null :: toolWindows[p]
    {
      && toolWindows != null && toolWindows.Length == ToolSlots
      && (forall p :: 0 <= p < ToolSlots ==> (toolWindows[p] == null <==> ToolTitles(build)[p].None?))
      && (forall p :: 0 <= p < ToolSlots && toolWindows[p] != null ==>
            && toolWindows[p].title == ToolTitles(build)[p].value
            && toolWindows[p].offsetMultiplier == p
            && toolWindows[p].tw.None?)
    }

    /**
     * registerToolWindows(true): tool windows already registered are
     * unregistered first; then a five-slot array is filled with a new proxy
     * per available tool, slot p getting offset multiplier p, and each proxy
     * is tracked.
     */
    method RegisterToolWindows(build: int)
      requires Valid()
      modifies Repr
      ensures Valid() && fresh(Repr - old(Repr))
      ensures FreshLayout(build) && fresh(toolWindows)
      ensures forall p :: 0 <= p < ToolSlots && toolWindows[p] != null ==> fresh(toolWindows[p])
      ensures old(toolWindows) != null ==>
        forall p :: 0 <= p < ToolSlots && old(toolWindows[p]) != null ==>
          old(toolWindows[p]).tw == Closed(old(toolWindows[p].tw))
      ensures loaded == old(loaded) && changeEncodingAction == old(changeEncodingAction) &&
        catalogTask == old(catalogTask) && regionBoxMenuItem == old(regionBoxMenuItem) &&
        regionBoxButton == old(regionBoxButton) && actionRegistrations == old(actionRegistrations) &&
        taskRegistrations == old(taskRegistrations) && viewMenuItems == old(viewMenuItems) &&
        contextButtons == old(contextButtons)
    {
      if toolWindows != null {
        UnregisterToolWindows();
      }
      var windows, started := NewToolWindows(build);
      toolWindows := windows;
      tracked := tracked + started;
      Repr := Repr + {windows} + started;
    }

    /**
     * showPlugin: nothing when already loaded; otherwise every registration
     * is made and the plug-in is loaded. Without a View menu the region-box
     * registration throws after the action and the task were registered, and
     * the plug-in stays unloaded.
     */
    method ShowPlugin(build: int, menus: seq<string>) returns (thrown: bool)
      requires Valid()
      modifies Repr
      ensures Valid() && fresh(Repr - old(Repr))
      ensures old(loaded) ==>
        !thrown && loaded && changeEncodingAction == old(changeEncodingAction) &&
        catalogTask == old(catalogTask) && regionBoxMenuItem == old(regionBoxMenuItem) &&
        regionBoxButton == old(regionBoxButton) && toolWindows == old(toolWindows)
      ensures !old(loaded) ==> changeEncodingAction && catalogTask && (thrown <==> ViewMenuName !in menus)
      ensures !old(loaded) && thrown ==> !loaded && toolWindows == old(toolWindows)
      ensures !old(loaded) && !thrown ==> loaded && AllRegistered() && FreshLayout(build)
    {
      if loaded {
        return false;
      }
      var _ := RegisterChangeEncodingAction(true);
      var _ := RegisterCatalogTask(true);
      thrown := RegisterRegionBoxes(menus);
      if thrown {
        return;
      }
      RegisterToolWindows(build);
      loaded := true;
    }

    /**
     * unloadPlugin: every registration is removed and the plug-in is no
     * longer loaded. When the region-box menu item cannot be removed for want
     * of a View menu the call throws after the action and the task were
     * unregistered, leaving the rest in place.
     */
    method UnloadPlugin(menus: seq<string>) returns (thrown: bool)
      requires Valid()
      modifies Repr
      ensures Valid() && Repr == old(Repr)
      ensures !changeEncodingAction && !catalogTask && actionRegistrations == 0 && taskRegistrations == 0
      ensures thrown <==> old(regionBoxMenuItem) && ViewMenuName !in menus
      ensures thrown ==> loaded == old(loaded) && toolWindows == old(toolWindows)
      ensures !thrown ==> !loaded && !regionBoxMenuItem && !regionBoxButton && toolWindows == null
      ensures !thrown ==> viewMenuItems == 0 && contextButtons == 0 && tracked == {}
    {
      var _ := RegisterChangeEncodingAction(false);
      var _ := RegisterCatalogTask(false);
      thrown := UnregisterRegionBoxes(menus);
      if thrown {
        return;
      }
      UnregisterToolWindows();
      loaded := false;
    }
  }
}
