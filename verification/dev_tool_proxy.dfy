/**
 * The tracked-window proxy of each developer tool (DevToolProxy): the names
 * derived from the tool's title (its icon, its panel class and the key of its
 * stored window settings), the default placement of its window, and the
 * creation and unloading of that window.
 */
module DevTools {
  import opened Text

  const IconFolder: string := "/resources/cgj/devtools/"
  const IconSuffix: string := ".png"
  const PrefixHead: string := "devtools-"
  /** BASE_WIN_WIDTH and BASE_WIN_HEIGHT. */
  const BaseWidth: int := 500
  const BaseHeight: int := 200
  /** The gap between a default window and the right edge of the usable screen area. */
  const RightGap: int := 72
  /** The gap between the top of the usable screen area and the first default window. */
  const TopGap: int := 8

  /** A screen rectangle. */
  datatype Rect = Rect(x: int, y: int, width: int, height: int)

  /** Screen insets (task bars and the like). */
  datatype Insets = Insets(top: int, left: int, bottom: int, right: int)

  /** How a tool window is placed: not yet, from the stored user settings, or at default bounds. */
  datatype Placement = Unplaced | Stored | Default(bounds: Rect)

  /** A tool window, reduced to what the proxy sets on it. */
  datatype ToolWindow = ToolWindow(title: string, body: Option<string>, icon: Option<string>,
                                   placement: Placement, closed: bool)

  /** The icon resource: the title in lower case with each space replaced by '-'. */
  function IconPath(title: string): (r: string)
    ensures |r| == |IconFolder| + |title| + |IconSuffix|
    ensures r[..|IconFolder|] == IconFolder && r[|r| - |IconSuffix|..] == IconSuffix
    ensures forall i :: 0 <= i < |title| ==>
      r[|IconFolder| + i] == (if title[i] == ' ' then '-' else LowerChar(title[i]))
  {
    IconFolder + Lower(ReplaceChar(title, ' ', '-')) + IconSuffix
  }

  /** The content panel class: the package, a dot, the title without spaces and "Panel". */
  function PanelClassName(package: string, title: string): (r: string)
    ensures |r| == |package| + 1 + |RemoveSpaces(title)| + 5
    ensures r[..|package| + 1] == package + "."
    ensures r[|r| - 5..] == "Panel"
    ensures var name := r[|package| + 1..|r| - 5]; ' ' !in name && name == RemoveSpaces(title)
  {
    var r := package + "." + RemoveSpaces(title) + "Panel";
    assert r[|package| + 1..|r| - 5] == RemoveSpaces(title);
    r
  }

  /** windowPrefix: the key of the stored window settings, "devtools-" and the title without spaces in lower case. */
  function WindowPrefix(title: string): (r: string)
    ensures |r| == |PrefixHead| + |RemoveSpaces(title)|
    ensures r[..|PrefixHead|] == PrefixHead
    ensures forall i :: 0 <= i < |RemoveSpaces(title)| ==>
      r[|PrefixHead| + i] == LowerChar(RemoveSpaces(title)[i])
    ensures forall i :: |PrefixHead| <= i < |r| ==> r[i] != ' ' && !('A' <= r[i] <= 'Z')
  {
    var name := RemoveSpaces(title);
    var low := Lower(name);
    assert forall k :: 0 <= k < |low| ==> low[k] != ' ' && !('A' <= low[k] <= 'Z') by {
      forall k | 0 <= k < |low| ensures low[k] != ' ' && !('A' <= low[k] <= 'Z') {
        assert name[k] in name;
      }
    }
    var r := PrefixHead + low;
    assert r[..|PrefixHead|] == PrefixHead;
    assert forall i :: |PrefixHead| <= i < |r| ==> r[i] == low[i - |PrefixHead|];
    r
  }

  /** For a title without spaces, the icon's file name is the settings key without its "devtools-" head. */
  lemma {:induction false} IconNamedLikeSettings(title: string)
    requires ' ' !in title
    ensures IconPath(title) == IconFolder + WindowPrefix(title)[|PrefixHead|..] + IconSuffix
  {
    NoSpacesKept(title);
    assert ReplaceChar(title, ' ', '-') == title;
  }

  /** Removing spaces from a string that has none changes nothing. */
  lemma {:induction false} NoSpacesKept(s: string)
    requires ' ' !in s
    ensures RemoveSpaces(s) == s
  {
    if s != [] {
      assert ' ' !in s[1..];
      NoSpacesKept(s[1..]);
      assert s == [s[0]] + s[1..];
    }
  }

  /** Removing spaces distributes over concatenation. */
  lemma {:induction false} RemoveSpacesAppend(a: string, b: string)
    ensures RemoveSpaces(a + b) == RemoveSpaces(a) + RemoveSpaces(b)
  {
    if a != [] {
      RemoveSpacesAppend(a[1..], b);
      assert (a + b)[1..] == a[1..] + b;
    } else {
      assert a + b == b;
    }
  }

  /** Two space-free words joined by a space lose just that space. */
  lemma {:induction false} TwoWordsRunTogether(first: string, second: string)
    requires ' ' !in first && ' ' !in second
    ensures RemoveSpaces(first + " " + second) == first + second
  {
    var tail := " " + second;
    assert RemoveSpaces(tail) == second by {
      assert tail[0] == ' ' && tail[1..] == second;
      NoSpacesKept(second);
    }
    assert first + " " + second == first + tail;
    RemoveSpacesAppend(first, tail);
    NoSpacesKept(first);
  }

  /**
   * A title of two words, such as "Setting Explorer", names the panel class
   * and the settings key by the two words run together ("SettingExplorerPanel",
   * "devtools-settingexplorer").
   */
  lemma TwoWordTitleNames(package: string, first: string, second: string)
    requires ' ' !in first && ' ' !in second
    ensures PanelClassName(package, first + " " + second) == package + "." + first + second + "Panel"
    ensures WindowPrefix(first + " " + second) == PrefixHead + Lower(first + second)
  {
    TwoWordsRunTogether(first, second);
  }

  /**
   * applyDefaultBounds before snapping: a 500 by 200 window whose right edge
   * is 72 pixels left of the usable area's right edge, and whose top is
   * 8 + 200 * multiplier pixels below the usable area's top.
   */
  function DefaultBounds(screen: Rect, insets: Insets, multiplier: int): (r: Rect)
    ensures r.width == BaseWidth && r.height == BaseHeight
    ensures r.x + r.width == screen.x + screen.width - insets.right - RightGap
    ensures r.y - (screen.y + insets.top) == BaseHeight * multiplier + TopGap
  {
    Rect(screen.x + screen.width - insets.right - BaseWidth - RightGap,
         screen.y + insets.top + BaseHeight * multiplier + TopGap,
         BaseWidth, BaseHeight)
  }

  /** Default windows of tools with different multipliers line up on the right and do not overlap. */
  lemma DefaultWindowsStack(screen: Rect, insets: Insets, p: int, q: int)
    requires p < q
    ensures var a := DefaultBounds(screen, insets, p); var b := DefaultBounds(screen, insets, q);
      a.x == b.x && a.y + a.height <= b.y
  {
  }

  /** The window after it is closed; nothing when no window was created. */
  function Closed(tw: Option<ToolWindow>): (r: Option<ToolWindow>)
    ensures tw.None? <==> r.None?
    ensures r.Some? ==> r.value.closed && r.value == tw.value.(closed := true)
  {
    if tw.None? then None else Some(tw.value.(closed := true))
  }

  class DevToolProxy {
    const title: string
    /** The default-window offset multiplier. */
    const offsetMultiplier: int
    const icon: string
    /** The tool window, once created. */
    var tw: Option<ToolWindow>

    constructor (windowTitle: string, multiplier: int)
      ensures title == windowTitle && offsetMultiplier == multiplier
      ensures icon == IconPath(windowTitle) && tw.None?
    {
      title := windowTitle;
      offsetMultiplier := multiplier;
      icon := IconPath(windowTitle);
      tw := None;
    }

    /**
     * createWindow. `panelClasses` are the classes the class loader can find
     * and `storedApplied` whether the user's stored settings for this window
     * were applied. When the panel class is missing, the window has already
     * been assigned, bare, and the result is None (an AssertionError).
     */
    method CreateWindow(package: string, panelClasses: set<string>, storedApplied: bool,
                        screen: Rect, insets: Insets) returns (r: Option<ToolWindow>)
      modifies this`tw
      ensures tw.Some? && tw.value.title == title && !tw.value.closed
      ensures PanelClassName(package, title) !in panelClasses <==> r.None?
      ensures r.None? ==> tw.value == ToolWindow(title, None, None, Unplaced, false)
      ensures r.Some? ==>
        tw == r && r.value.body == Some(PanelClassName(package, title)) && r.value.icon == Some(icon)
      ensures r.Some? && storedApplied ==> r.value.placement == Stored
      ensures r.Some? && !storedApplied ==>
        r.value.placement == Default(DefaultBounds(screen, insets, offsetMultiplier))
    {
      tw := Some(ToolWindow(title, None, None, Unplaced, false));
      var panelClass := PanelClassName(package, title);
      if panelClass !in panelClasses {
        return None;
      }
      tw := Some(tw.value.(body := Some(panelClass)));
      tw := Some(tw.value.(icon := Some(icon)));
      if storedApplied {
        tw := Some(tw.value.(placement := Stored));
      } else {
        ApplyDefaultBounds(screen, insets);
      }
      return tw;
    }

    /** applyDefaultBounds on the created window. */
    method ApplyDefaultBounds(screen: Rect, insets: Insets)
      requires tw.Some?
      modifies this`tw
      ensures tw == Some(old(tw).value.(placement := Default(DefaultBounds(screen, insets, offsetMultiplier))))
    {
      var w := BaseWidth;
      var h := BaseHeight;
      var y := screen.y + insets.top + BaseHeight * offsetMultiplier + TopGap;
      var x := screen.x + screen.width - insets.right - w - RightGap;
      tw := Some(tw.value.(placement := Default(Rect(x, y, w, h))));
    }

    /**
     * unload: when a window was created, its settings are stored under the
     * window prefix (the key is returned) and it is closed; otherwise nothing
     * happens.
     */
    method Unload() returns (storedUnder: Option<string>)
      modifies this`tw
      ensures tw == Closed(old(tw))
      ensures storedUnder.Some? <==> old(tw).Some?
      ensures storedUnder.Some? ==> storedUnder.value == WindowPrefix(title)
    {
      if tw.None? {
        return None;
      }
      storedUnder := Some(WindowPrefix(title));
      tw := Some(tw.value.(closed := true));
    }
  }
}
