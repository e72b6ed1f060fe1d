/**
 * The Setting Explorer tool (SettingExplorerPanel): lists the keys of one
 * Settings instance in a key/value table, shows for the selected key how its
 * value is inherited along the parent chain, and lets the user edit values.
 *
 * The query side (parent walk, key-set choice, "may this edit affect the open
 * component") is written as functions; the panel itself is a class whose
 * methods update the table rows, the inheritance text and the settings.
 */
module SettingExplorer {
  import opened Text
  import opened HostSettings
  import opened SettingExplorerProxy

  // ------------------------------------------------------------------
  // The parent walk
  // ------------------------------------------------------------------

  /**
   * getParent: the explorer's view of inheritance. Default is the root, the
   * Shared instance inherits from Default, and every other instance from its
   * host parent. Each step goes to a smaller id, so every walk ends.
   */
  function Parent(w: World, s: SettingsId): (r: Option<SettingsId>)
    requires WellFormed(w)
    ensures s == DefaultId ==> r.None?
    ensures s == SharedId ==> r == Some(DefaultId)
    ensures s != DefaultId && s != SharedId ==> r == HostParent(w, s)
    ensures r.Some? ==> r.value < s
  {
    if s == DefaultId then None
    else if s == SharedId then Some(DefaultId)
    else HostParent(w, s)
  }

  /** The instances visited by repeatedly applying Parent, starting at `s`. */
  function Chain(w: World, s: SettingsId): (c: seq<SettingsId>)
    requires WellFormed(w)
    ensures |c| >= 1 && c[0] == s
    ensures forall i :: 0 <= i < |c| - 1 ==> Parent(w, c[i]) == Some(c[i + 1])
    ensures Parent(w, c[|c| - 1]).None?
    decreases s
  {
    match Parent(w, s)
    case None => [s]
    case Some(p) => [s] + Chain(w, p)
  }

  /** In a sequence whose every step goes down, every later element is smaller. */
  lemma {:induction false} StepsDown(c: seq<SettingsId>, i: nat, j: nat)
    requires forall k :: 0 <= k < |c| - 1 ==> c[k] > c[k + 1]
    requires i < j < |c|
    ensures c[i] > c[j]
    decreases j - i
  {
    if i + 1 < j {
      StepsDown(c, i + 1, j);
    }
  }

  /** Ids strictly decrease along a chain, so no instance is visited twice. */
  lemma ChainDecreasing(w: World, s: SettingsId)
    requires WellFormed(w)
    ensures var c := Chain(w, s); forall i, j :: 0 <= i < j < |c| ==> c[i] > c[j]
  {
    var c := Chain(w, s);
    assert forall k :: 0 <= k < |c| - 1 ==> c[k] > c[k + 1] by {
      forall k | 0 <= k < |c| - 1 ensures c[k] > c[k + 1] {
        assert Parent(w, c[k]) == Some(c[k + 1]);
      }
    }
    forall i, j | 0 <= i < j < |c| ensures c[i] > c[j] {
      StepsDown(c, i, j);
    }
  }

  /** The chain of an optional start instance; empty for null. */
  function ChainOf(w: World, start: Option<SettingsId>): seq<SettingsId>
    requires WellFormed(w)
  {
    if start.None? then [] else Chain(w, start.value)
  }

  /** A chain that passes through Shared continues to Default and stops there. */
  lemma ChainThroughSharedEndsAtDefault(w: World, s: SettingsId)
    requires WellFormed(w)
    requires SharedId in Chain(w, s)
    ensures var c := Chain(w, s);
      |c| >= 2 && c == c[..|c| - 2] + [SharedId] + [DefaultId]
  {
    var c := Chain(w, s);
    var j :| 0 <= j < |c| && c[j] == SharedId;
    assert j < |c| - 1 && c[j + 1] == DefaultId;
    assert Parent(w, c[j + 1]).None?;
    assert c == c[..|c| - 2] + [SharedId] + [DefaultId];
  }

  // ------------------------------------------------------------------
  // Which keys the table lists
  // ------------------------------------------------------------------

  /**
   * makeKeySet: the keys to list for `s` under the "parent settings to list"
   * choice `parentMode` (-1 or 0: none, 1: immediate parent, 2: all inherited).
   * None stands for the AssertionError thrown for any other mode.
   */
  function MakeKeySet(w: World, s: SettingsId, parentMode: int): (r: Option<set<string>>)
    requires WellFormed(w)
    ensures s == DefaultId ==> r == Some(KeySet(w, s))
    ensures r.None? <==> s != DefaultId && !(-1 <= parentMode <= 2)
    ensures r.Some? ==> KeySet(w, s) <= r.value
    ensures s != DefaultId && parentMode in {-1, 0} ==> r == Some(KeySet(w, s))
    ensures s != DefaultId && parentMode == 1 ==>
      r == Some(if Parent(w, s).None? then KeySet(w, s) else KeySet(w, s) + KeySet(w, Parent(w, s).value))
    ensures s != DefaultId && parentMode == 2 ==> r == Some(VisibleKeySet(w, s))
  {
    if s == DefaultId then Some(KeySet(w, s))
    else if parentMode == -1 || parentMode == 0 then Some(KeySet(w, s))
    else if parentMode == 1 then
      match Parent(w, s)
      case None => Some(KeySet(w, s))
      case Some(p) => Some(KeySet(w, s) + KeySet(w, p))
    else if parentMode == 2 then Some(VisibleKeySet(w, s))
    else None
  }

  /**
   * For an ordinary instance the three modes list more and more keys: own
   * keys, then also the immediate parent's, then every inherited key.
   */
  lemma KeySetModesNested(w: World, s: SettingsId)
    requires WellFormed(w)
    requires s != DefaultId && s != SharedId
    ensures MakeKeySet(w, s, 0).value <= MakeKeySet(w, s, 1).value <= MakeKeySet(w, s, 2).value
  {
    match HostParent(w, s)
    case None =>
    case Some(p) =>
      assert KeySet(w, p) <= VisibleKeySet(w, p);
  }

  // ------------------------------------------------------------------
  // The value-inheritance text
  // ------------------------------------------------------------------

  const NotDefined: string := "<Not defined>"
  const GlobalTag: string := " [Global (plug-in default)]"
  /** Two no-break spaces per level of depth. */
  const LevelIndent: string := "\U{00A0}\U{00A0}"
  /** The corner that introduces every line below the root. */
  const Corner: string := "\U{2514} "

  /** The tag appended to the line of a well-known instance. */
  function ShortName(s: SettingsId): string
  {
    if s == DefaultId then " [Default]"
    else if s == UserId then " [User]"
    else if s == SharedId then " [Shared]"
    else ""
  }

  /** The line for one instance: its own value (or a placeholder) and its tag. */
  function NodeLine(w: World, key: string, s: SettingsId): string
  {
    (if Override(w, s, key).Some? then Override(w, s, key).value else NotDefined) + ShortName(s)
  }

  /**
   * The lines one instance pushes, in the order they come off the stack: for
   * Shared, the global override line (if any) and then Shared's own line.
   */
  function Block(w: World, raw: RawSettings, key: string, defaultValue: Option<string>, s: SettingsId): seq<string>
  {
    var global := GlobalOverride(raw, key, defaultValue);
    (if s == SharedId && global.Some? then [global.value + GlobalTag] else []) + [NodeLine(w, key, s)]
  }

  /** The stack after pushing the lines of every instance of `nodes`, top first. */
  function Entries(w: World, raw: RawSettings, key: string, defaultValue: Option<string>, nodes: seq<SettingsId>): seq<string>
  {
    if nodes == [] then []
    else Block(w, raw, key, defaultValue, nodes[|nodes| - 1]) + Entries(w, raw, key, defaultValue, nodes[..|nodes| - 1])
  }

  /** `n` copies of the per-level indent. */
  function Repeat(n: nat): (r: string)
    ensures |r| == 2 * n
    ensures forall i :: 0 <= i < |r| ==> r[i] == '\U{00A0}'
  {
    if n == 0 then "" else Repeat(n - 1) + LevelIndent
  }

  /** The prefix of the line at depth `level`. */
  function Indent(level: nat): string
  {
    if level == 0 then "" else Repeat(level) + Corner
  }

  /** One row of the text: a value at depth `level`. */
  function Line(level: nat, text: string): string
  {
    Indent(level) + text + "\n"
  }

  /** The first n lines rendered one per row, the k-th at depth k. */
  function RenderFirst(lines: seq<string>, n: nat): string
    requires n <= |lines|
  {
    if n == 0 then "" else RenderFirst(lines, n - 1) + Line(n - 1, lines[n - 1])
  }

  /** All the lines rendered one per row. */
  function Render(lines: seq<string>): string
  {
    RenderFirst(lines, |lines|)
  }

  /** refreshTree's text for the selected key (None: no selected row). */
  function TreeText(w: World, raw: RawSettings, current: Option<SettingsId>, key: Option<string>,
                    defaultValue: Option<string>): (r: string)
    requires WellFormed(w)
    ensures key.None? ==> r == ""
    ensures key.Some? ==> |r| >= |key.value| + 2 && r[..|key.value| + 2] == key.value + "\n\n"
  {
    match key
    case None => ""
    case Some(k) => k + "\n\n" + Render(Entries(w, raw, k, defaultValue, ChainOf(w, current)))
  }

  /** Pushing one more instance puts its block on top of the stack. */
  lemma EntriesSnoc(w: World, raw: RawSettings, key: string, dv: Option<string>, nodes: seq<SettingsId>, n: SettingsId)
    ensures Entries(w, raw, key, dv, nodes + [n]) == Block(w, raw, key, dv, n) + Entries(w, raw, key, dv, nodes)
  {
    assert (nodes + [n])[..|nodes|] == nodes;
  }

  /**
   * One line per instance of the chain, plus one extra line when the chain
   * passes through Shared and a global override exists.
   */
  lemma {:induction false} EntriesCount(w: World, raw: RawSettings, key: string, dv: Option<string>, nodes: seq<SettingsId>)
    requires forall i, j :: 0 <= i < j < |nodes| ==> nodes[i] != nodes[j]
    ensures |Entries(w, raw, key, dv, nodes)| ==
      |nodes| + (if SharedId in nodes && GlobalOverride(raw, key, dv).Some? then 1 else 0)
  {
    if nodes != [] {
      var init := nodes[..|nodes| - 1];
      EntriesCount(w, raw, key, dv, init);
      assert nodes == init + [nodes[|nodes| - 1]];
      assert SharedId in nodes <==> SharedId in init || nodes[|nodes| - 1] == SharedId;
      if nodes[|nodes| - 1] == SharedId {
        assert SharedId !in init;
      }
    }
  }

  /**
   * Root first: without a global override line, the k-th line of the text is
   * the line of the k-th instance counted from the end of the chain.
   */
  lemma EntriesRootFirst(w: World, raw: RawSettings, key: string, dv: Option<string>, nodes: seq<SettingsId>)
    requires SharedId !in nodes || GlobalOverride(raw, key, dv).None?
    ensures |Entries(w, raw, key, dv, nodes)| == |nodes|
    ensures forall k :: 0 <= k < |nodes| ==>
      Entries(w, raw, key, dv, nodes)[k] == NodeLine(w, key, nodes[|nodes| - 1 - k])
  {
    EntriesPlain(w, raw, key, dv, nodes);
    ReversedIndices(NodeLines(w, key, nodes));
  }

  /** The line of each instance of `nodes`, in chain order. */
  function NodeLines(w: World, key: string, nodes: seq<SettingsId>): (r: seq<string>)
    ensures |r| == |nodes| && forall i :: 0 <= i < |nodes| ==> r[i] == NodeLine(w, key, nodes[i])
  {
    seq(|nodes|, i requires 0 <= i < |nodes| => NodeLine(w, key, nodes[i]))
  }

  /** The lines in the opposite order. */
  function Reversed(s: seq<string>): (r: seq<string>)
    ensures |r| == |s|
  {
    if s == [] then [] else [s[|s| - 1]] + Reversed(s[..|s| - 1])
  }

  /** The k-th line of the reversed sequence is the k-th from the end. */
  lemma {:induction false} ReversedAt(s: seq<string>, k: nat)
    requires k < |s|
    ensures Reversed(s)[k] == s[|s| - 1 - k]
    decreases |s|
  {
    if k > 0 {
      ReversedAt(s[..|s| - 1], k - 1);
    }
  }

  /** Every line of the reversed sequence, by position. */
  lemma ReversedIndices(s: seq<string>)
    ensures forall k :: 0 <= k < |s| ==> Reversed(s)[k] == s[|s| - 1 - k]
  {
    forall k | 0 <= k < |s| ensures Reversed(s)[k] == s[|s| - 1 - k] {
      ReversedAt(s, k);
    }
  }

  /** Without a global override line, the stack holds the instance lines in reverse. */
  lemma {:induction false} EntriesPlain(w: World, raw: RawSettings, key: string, dv: Option<string>, nodes: seq<SettingsId>)
    requires SharedId !in nodes || GlobalOverride(raw, key, dv).None?
    ensures Entries(w, raw, key, dv, nodes) == Reversed(NodeLines(w, key, nodes))
  {
    if nodes != [] {
      var init := nodes[..|nodes| - 1];
      assert SharedId in init ==> SharedId in nodes;
      EntriesPlain(w, raw, key, dv, init);
      assert Block(w, raw, key, dv, nodes[|nodes| - 1]) == [NodeLine(w, key, nodes[|nodes| - 1])];
      var lines := NodeLines(w, key, nodes);
      assert lines[..|lines| - 1] == NodeLines(w, key, init);
    }
  }

  /**
   * For a chain through Shared whose key has a global override, the text
   * starts with Default's line, then the global line, then Shared's line: the
   * global line sits directly above Shared.
   */
  lemma GlobalLineAboveShared(w: World, raw: RawSettings, key: string, dv: Option<string>, s: SettingsId)
    requires WellFormed(w)
    requires SharedId in Chain(w, s)
    requires GlobalOverride(raw, key, dv).Some?
    ensures var e := Entries(w, raw, key, dv, Chain(w, s));
      |e| >= 3 &&
      e[0] == NodeLine(w, key, DefaultId) &&
      e[1] == GlobalOverride(raw, key, dv).value + GlobalTag &&
      e[2] == NodeLine(w, key, SharedId)
  {
    var c := Chain(w, s);
    ChainThroughSharedEndsAtDefault(w, s);
    var rest := c[..|c| - 2];
    EntriesTopTwo(w, raw, key, dv, rest);
    var top := [NodeLine(w, key, DefaultId), GlobalOverride(raw, key, dv).value + GlobalTag, NodeLine(w, key, SharedId)];
    var e := Entries(w, raw, key, dv, c);
    assert e == top + Entries(w, raw, key, dv, rest);
    assert e[..3] == top;
  }

  /** The stack after Shared and then Default were pushed onto the rest. */
  lemma EntriesTopTwo(w: World, raw: RawSettings, key: string, dv: Option<string>, rest: seq<SettingsId>)
    requires GlobalOverride(raw, key, dv).Some?
    ensures Entries(w, raw, key, dv, rest + [SharedId] + [DefaultId]) ==
      [NodeLine(w, key, DefaultId), GlobalOverride(raw, key, dv).value + GlobalTag, NodeLine(w, key, SharedId)] +
      Entries(w, raw, key, dv, rest)
  {
    EntriesSnoc(w, raw, key, dv, rest + [SharedId], DefaultId);
    EntriesSnoc(w, raw, key, dv, rest, SharedId);
  }

  /**
   * The text of the first k lines is a prefix of the whole text, and the
   * line at position k follows it at depth k.
   */
  lemma {:induction false} RenderPrefix(lines: seq<string>, k: nat)
    requires k < |lines|
    ensures RenderFirst(lines, k) + Line(k, lines[k]) <= Render(lines)
    decreases |lines| - k
  {
    if k + 1 < |lines| {
      RenderPrefix(lines, k + 1);
    }
  }

  /** The indent of a line below the root: 2k no-break spaces, then the corner. */
  lemma IndentShape(k: nat)
    requires k > 0
    ensures |Indent(k)| == 2 * k + 2
    ensures forall i :: 0 <= i < 2 * k ==> Indent(k)[i] == '\U{00A0}'
    ensures Indent(k)[2 * k..] == Corner
  {
  }

  // ------------------------------------------------------------------
  // Could an edit change what the open component shows?
  // ------------------------------------------------------------------

  /**
   * The walk of editMayAffectEditedComponent along `c`: true on reaching the
   * edited instance, false on meeting an earlier override, true when the
   * chain runs out.
   */
  function MayAffectAlong(w: World, current: Option<SettingsId>, c: seq<SettingsId>, key: string): bool
  {
    if c == [] then true
    else if Some(c[0]) == current then true
    else if Override(w, c[0], key).Some? then false
    else MayAffectAlong(w, current, c[1..], key)
  }

  /** editMayAffectEditedComponent's answer; false when no component is active. */
  function MayAffect(w: World, current: Option<SettingsId>, active: Option<SettingsId>, key: string): bool
    requires WellFormed(w)
  {
    active.Some? && MayAffectAlong(w, current, Chain(w, active.value), key)
  }

  /**
   * The walk answers false exactly when some instance overrides the key before
   * the edited instance is reached (the edited instance's own override does
   * not count, it is checked first).
   */
  lemma {:induction false} MayAffectAlongMeaning(w: World, current: Option<SettingsId>, c: seq<SettingsId>, key: string)
    ensures !MayAffectAlong(w, current, c, key) <==>
      exists j :: 0 <= j < |c| && Override(w, c[j], key).Some? &&
        forall i :: 0 <= i <= j ==> Some(c[i]) != current
  {
    if c != [] {
      MayAffectAlongMeaning(w, current, c[1..], key);
      if Some(c[0]) != current && Override(w, c[0], key).None? {
        if exists j :: 0 <= j < |c| && Override(w, c[j], key).Some? && forall i :: 0 <= i <= j ==> Some(c[i]) != current {
          var j :| 0 <= j < |c| && Override(w, c[j], key).Some? && forall i :: 0 <= i <= j ==> Some(c[i]) != current;
          assert j > 0;
          assert forall i :: 0 <= i <= j - 1 ==> Some(c[1..][i]) != current by {
            forall i | 0 <= i <= j - 1 ensures Some(c[1..][i]) != current {
              assert c[1..][i] == c[i + 1];
            }
          }
        }
        if exists j :: 0 <= j < |c[1..]| && Override(w, c[1..][j], key).Some? && forall i :: 0 <= i <= j ==> Some(c[1..][i]) != current {
          var j :| 0 <= j < |c[1..]| && Override(w, c[1..][j], key).Some? && forall i :: 0 <= i <= j ==> Some(c[1..][i]) != current;
          assert Override(w, c[j + 1], key).Some?;
          forall i | 0 <= i <= j + 1 ensures Some(c[i]) != current {
            if i > 0 { assert c[i] == c[1..][i - 1]; }
          }
        }
      }
    }
  }

  // ------------------------------------------------------------------
  // Editing a table cell
  // ------------------------------------------------------------------

  /** One step of refreshTree's walk: the lines of instance `n` go on the stack. */
  method PushNode(w: World, raw: RawSettings, key: string, defaultValue: Option<string>, n: SettingsId,
                  stack: seq<string>) returns (r: seq<string>)
    ensures r == Block(w, raw, key, defaultValue, n) + stack
  {
    var value := if Override(w, n, key).Some? then Override(w, n, key).value else NotDefined;
    var checkGlobal := false;
    if n == DefaultId {
      value := value + " [Default]";
    } else if n == UserId {
      value := value + " [User]";
    } else if n == SharedId {
      value := value + " [Shared]";
      checkGlobal := true;
    }
    assert value == NodeLine(w, key, n);
    r := [value] + stack;
    if checkGlobal {
      var global := GlobalOverride(raw, key, defaultValue);
      if global.Some? {
        r := [global.value + GlobalTag] + r;
        assert Block(w, raw, key, defaultValue, n) == [global.value + GlobalTag] + [value];
      }
    }
  }

  /** The indent of a line at depth `level`, built space pair by space pair. */
  method IndentText(level: nat) returns (b: string)
    ensures b == Indent(level)
  {
    b := "";
    if level > 0 {
      var j := 0;
      while j < level
        invariant 0 <= j <= level
        invariant b == Repeat(j)
      {
        b := b + LevelIndent;
        j := j + 1;
      }
      b := b + Corner;
    }
  }

  /** One pop of the stack: the value, indented for its depth, and a line break. */
  method AppendLine(b: string, level: nat, value: string) returns (r: string)
    ensures r == b + Line(level, value)
  {
    var indent := IndentText(level);
    r := b + (indent + value + "\n");
  }

  /** The second half of refreshTree: pops the stack into the text. */
  method RenderStack(header: string, lines: seq<string>) returns (b: string)
    ensures b == header + Render(lines)
  {
    b := header;
    var stack := lines;
    var level := 0;
    ghost var body := "";
    while stack != []
      invariant level <= |lines| && stack == lines[level..]
      invariant body == RenderFirst(lines, level) && b == header + body
      decreases |stack|
    {
      ghost var line := Line(level, lines[level]);
      b := AppendLine(b, level, stack[0]);
      ConcatAssoc(header, body, line);
      body := body + line;
      assert stack[1..] == lines[level + 1..];
      stack := stack[1..];
      level := level + 1;
    }
  }

  /** String concatenation is associative. */
  lemma ConcatAssoc(a: string, b: string, c: string)
    ensures (a + b) + c == a + (b + c)
  {
  }

  /** One row of the key/value table; the value may be null. */
  datatype Row = Row(key: string, value: Option<string>)

  /** getValueAt(row, column) for the two columns. */
  function Cell(r: Row, column: nat): Option<string>
  {
    if column == 0 then Some(r.key) else r.value
  }

  /** super.setValueAt(v, row, column) for the two columns. */
  function PutCell(r: Row, column: nat, v: string): Row
  {
    if column == 0 then r.(key := v) else r.(value := Some(v))
  }

  /** What a cell edit reads and changes: settings, raw store, rows, edited flag. */
  datatype EditState = EditState(world: World, raw: RawSettings, rows: seq<Row>, edited: bool)

  /**
   * The table-model half of a cell edit: the rows after super.setValueAt,
   * whether the edit goes on to the settings, and the value it writes there
   * (None: reset). Trimming, the empty-key and unchanged-value checks, and
   * the exception on renaming a row whose value is null all happen here;
   * that exception leaves the renamed row and writes nothing.
   */
  function RowEdit(rows: seq<Row>, oValue: Option<string>, row: nat, column: nat): (r: (seq<Row>, bool, Option<string>))
    requires row < |rows| && column <= 1
    ensures |r.0| == |rows| && forall i :: 0 <= i < |rows| && i != row ==> r.0[i] == rows[i]
    ensures !r.1 ==> r.2.None?
    // an empty key name is refused
    ensures column == 0 && (oValue.None? || Trim(oValue.value) == "") ==> r == (rows, false, None)
    // a value equal to the cell's current one changes nothing
    ensures oValue.Some? && Some(Trim(oValue.value)) == Cell(rows[row], column) ==> r == (rows, false, None)
    // a deleted value resets the row's key
    ensures oValue.None? && column == 1 ==> r == (rows, true, None)
    // a new value is trimmed into the row and written
    ensures column == 1 && oValue.Some? && Some(Trim(oValue.value)) != rows[row].value ==>
      r == (rows[row := rows[row].(value := Some(Trim(oValue.value)))], true, Some(Trim(oValue.value)))
    // a new key renames the row and writes its value under it, unless the value is null
    ensures column == 0 && oValue.Some? && Trim(oValue.value) != "" && Trim(oValue.value) != rows[row].key ==>
      r.0[row] == Row(Trim(oValue.value), rows[row].value) && (r.1 <==> rows[row].value.Some?) &&
      r.2 == rows[row].value
  {
    var newValue := if oValue.None? then None else Some(Trim(oValue.value));
    if column == 0 && (newValue.None? || newValue.value == "") then (rows, false, None)
    else if newValue.Some? && newValue == Cell(rows[row], column) then (rows, false, None)
    else
      var edited := if newValue.Some? then rows[row := PutCell(rows[row], column, newValue.value)] else rows;
      if newValue.Some? && edited[row].value.None? then (edited, false, None)
      else (edited, true, if newValue.None? then None else edited[row].value)
  }

  /**
   * The settings half of a cell edit on instance `current`: Shared refuses a
   * deletion and stores a value as a global setting; any other instance
   * resets the key or sets it. The flag tells whether anything was written.
   */
  function StoreEdit(w: World, raw: RawSettings, current: SettingsId, key: string, val: Option<string>)
    : (r: (World, RawSettings, bool))
    requires WellFormed(w) && current in w
    ensures WellFormed(r.0) && r.0.Keys == w.Keys
  {
    if current == SharedId && val.None? then (w, raw, false)
    else if current == SharedId then (w, SetGlobalSetting(raw, key, val.value), true)
    else
      var updated := if val.None? then ResetOverride(w, current, key) else SetOverride(w, current, key, val.value);
      OverridesKeepWellFormed(w, updated);
      (updated, raw, true)
  }

  /**
   * The table model's setValueAt up to the write: the new state and the key
   * written (None when nothing is written).
   */
  function CellWrite(st: EditState, current: SettingsId, oValue: Option<string>, row: nat, column: nat)
    : (r: (EditState, Option<string>))
    requires WellFormed(st.world) && current in st.world
    requires row < |st.rows| && column <= 1
    ensures WellFormed(r.0.world) && r.0.world.Keys == st.world.Keys && r.0.edited == st.edited
    ensures |r.0.rows| == |st.rows|
  {
    var e := RowEdit(st.rows, oValue, row, column);
    if !e.1 then (st.(rows := e.0), None)
    else
      var key := e.0[row].key;
      var stored := StoreEdit(st.world, st.raw, current, key, e.2);
      (st.(rows := e.0, world := stored.0, raw := stored.1), if stored.2 then Some(key) else None)
  }


  /** What a cell edit writes, case by case. */
  lemma CellWriteEffects(st: EditState, current: SettingsId, oValue: Option<string>, row: nat, column: nat,
                          r: (EditState, Option<string>))
    requires WellFormed(st.world) && current in st.world
    requires row < |st.rows| && column <= 1
    requires r == CellWrite(st, current, oValue, row, column)
    ensures forall i :: 0 <= i < |st.rows| && i != row ==> r.0.rows[i] == st.rows[i]
    ensures r.1.Some? ==> r.1.value == r.0.rows[row].key
    ensures column == 0 && (oValue.None? || Trim(oValue.value) == "") ==> r == (st, None)
    ensures oValue.Some? && Some(Trim(oValue.value)) == Cell(st.rows[row], column) ==> r == (st, None)
    ensures current == SharedId ==> r.0.world == st.world
    ensures current == SharedId && oValue.None? ==> r == (st, None)
    ensures current != SharedId ==> r.0.raw == st.raw
    ensures oValue.None? && column == 1 && current != SharedId ==>
      r.0.rows == st.rows && r.1.Some? && Override(r.0.world, current, st.rows[row].key).None?
    ensures column == 1 && oValue.Some? && Some(Trim(oValue.value)) != st.rows[row].value ==>
      r.1.Some? && r.0.rows[row] == st.rows[row].(value := Some(Trim(oValue.value))) &&
      (current != SharedId ==> Override(r.0.world, current, st.rows[row].key) == Some(Trim(oValue.value))) &&
      (current == SharedId ==> GlobalSetting(r.0.raw, st.rows[row].key) == Some(Trim(oValue.value)))
    ensures column == 0 && oValue.Some? && Trim(oValue.value) != "" && Trim(oValue.value) != st.rows[row].key ==>
      var name := Trim(oValue.value);
      && r.0.rows[row] == Row(name, st.rows[row].value)
      && (st.rows[row].value.None? ==> r.1.None? && r.0.world == st.world && r.0.raw == st.raw)
      && (st.rows[row].value.Some? ==> r.1 == Some(name))
      && (st.rows[row].value.Some? && current != SharedId ==>
            Override(r.0.world, current, name) == st.rows[row].value &&
            Override(r.0.world, current, st.rows[row].key) == Override(st.world, current, st.rows[row].key))
      && (st.rows[row].value.Some? && current == SharedId ==> GlobalSetting(r.0.raw, name) == st.rows[row].value)
    // nothing but the written key of the shown instance (or of the global layer) changes
    ensures forall t, k :: (r.1.None? || t != current || k != r.1.value) ==>
      Override(r.0.world, t, k) == Override(st.world, t, k)
    ensures forall k :: (r.1.None? || k != r.1.value) ==> GlobalSetting(r.0.raw, k) == GlobalSetting(st.raw, k)
    ensures r.0.raw.user == st.raw.user
  {
  }

  /**
   * The whole of the table model's setValueAt: the write, and then, when the
   * source combo box shows something other than the project task, the edited
   * flag is raised and the result tells whether the preview of the open
   * component must be redrawn.
   */
  function CellEdit(st: EditState, current: SettingsId, sourceIndex: int, active: Option<SettingsId>,
                    oValue: Option<string>, row: nat, column: nat): (r: (EditState, bool))
    requires WellFormed(st.world) && current in st.world
    requires row < |st.rows| && column <= 1
    ensures var w := CellWrite(st, current, oValue, row, column);
      r.0 == w.0.(edited := r.0.edited) && (r.0.edited <==> st.edited || (w.1.Some? && sourceIndex > 0))
    ensures r.1 ==> sourceIndex > 0 && r.0.edited
    ensures var w := CellWrite(st, current, oValue, row, column);
      r.1 <==> sourceIndex > 0 && w.1.Some? && MayAffect(r.0.world, Some(current), active, w.1.value)
  {
    var w := CellWrite(st, current, oValue, row, column);
    if w.1.Some? && sourceIndex > 0 then (w.0.(edited := true), MayAffect(w.0.world, Some(current), active, w.1.value))
    else (w.0, false)
  }

  /** The first row whose key column equals `key`, as the listener's loop finds it. */
  function FirstRowWithKey(rows: seq<Row>, key: string): (r: Option<nat>)
    ensures r.Some? ==>
      r.value < |rows| && rows[r.value].key == key && forall i :: 0 <= i < r.value ==> rows[i].key != key
    ensures r.None? ==> forall i :: 0 <= i < |rows| ==> rows[i].key != key
  {
    if rows == [] then None
    else if rows[0].key == key then Some(0)
    else match FirstRowWithKey(rows[1..], key)
      case None => None
      case Some(i) => Some(i + 1)
  }

  /** The rows list every key of `keys` exactly once, and nothing else. */
  ghost predicate ListsExactly(rows: seq<Row>, keys: set<string>)
  {
    && (forall k :: k in keys <==> exists i :: 0 <= i < |rows| && rows[i].key == k)
    && (forall i, j :: 0 <= i < j < |rows| ==> rows[i].key != rows[j].key)
  }

  /** The rows refreshTable adds for the keys of instance `s`, in the set's iteration order. */
  method ListRows(keys: set<string>, s: SettingsId, values: (SettingsId, string) -> Option<string>)
    returns (rows: seq<Row>)
    ensures ListsExactly(rows, keys)
    ensures forall i :: 0 <= i < |rows| ==> rows[i].value == values(s, rows[i].key)
  {
    rows := [];
    var remaining := keys;
    while remaining != {}
      invariant remaining <= keys
      invariant forall k :: k in keys <==> k in remaining || exists i :: 0 <= i < |rows| && rows[i].key == k
      invariant forall i :: 0 <= i < |rows| ==> rows[i].key !in remaining
      invariant forall i, j :: 0 <= i < j < |rows| ==> rows[i].key != rows[j].key
      invariant forall i :: 0 <= i < |rows| ==> rows[i].value == values(s, rows[i].key)
      decreases |remaining|
    {
      var k :| k in remaining;
      ghost var before := rows;
      rows := rows + [Row(k, values(s, k))];
      remaining := remaining - {k};
      forall x | x in keys ensures x in remaining || exists i :: 0 <= i < |rows| && rows[i].key == x {
        if x == k {
          assert rows[|before|].key == x;
        } else if x !in remaining {
          var i :| 0 <= i < |before| && before[i].key == x;
          assert rows[i].key == x;
        }
      }
    }
  }

  /**
   * The panel. The settings and the raw store are host state the panel
   * writes through; the selected source, the parent mode, the selected key of
   * the (sorted) table view, the open project task and the active component
   * are host inputs that the model reads.
   */
  class SettingExplorerPanel {
    var world: World
    var raw: RawSettings
    var current: Option<SettingsId>
    var rows: seq<Row>
    var selectedKey: Option<string>
    var tree: string
    var sourceIndex: int
    var parentMode: int
    var projectTask: Option<SettingsId>
    var activeComponent: Option<SettingsId>
    var editedSinceLastFocusLost: bool

    ghost predicate Valid()
      reads this
    {
      && WellFormed(world)
      && (current.Some? ==> current.value in world)
      && (current.None? ==> rows == [])
    }

    /** The part of the panel a cell edit reads and writes. */
    function State(): EditState
      reads this
    {
      EditState(world, raw, rows, editedSinceLastFocusLost)
    }

    constructor (world: World, raw: RawSettings, projectTask: Option<SettingsId>, activeComponent: Option<SettingsId>)
      requires WellFormed(world)
      ensures Valid()
      ensures this.world == world && this.raw == raw
      ensures this.projectTask == projectTask && this.activeComponent == activeComponent
      ensures current.None? && rows == [] && selectedKey.None? && tree == ""
      ensures sourceIndex == 0 && parentMode == 2 && !editedSinceLastFocusLost
    {
      this.world := world;
      this.raw := raw;
      this.projectTask := projectTask;
      this.activeComponent := activeComponent;
      current := None;
      rows := [];
      selectedKey := None;
      tree := "";
      sourceIndex := 0;
      parentMode := 2;
      editedSinceLastFocusLost := false;
    }

    /**
     * determineSettingsForSelection: the instance named by the source combo
     * box (project task, Default, Shared, the active component's game settings,
     * the active component's own settings, User); null when nothing applies.
     */
    function DetermineSettingsForSelection(): (r: Option<SettingsId>)
      reads this
      requires WellFormed(world)
      ensures sourceIndex < 0 || sourceIndex > 5 ==> r.None?
      ensures sourceIndex == 1 ==> r == Some(DefaultId)
      ensures sourceIndex == 2 ==> r == Some(SharedId)
      ensures sourceIndex == 5 ==> r == Some(UserId)
      ensures sourceIndex == 0 ==> r == projectTask
      ensures sourceIndex == 4 ==> r == activeComponent
      ensures sourceIndex == 3 ==> r == (if activeComponent.None? then None else HostParent(world, activeComponent.value))
    {
      if sourceIndex < 0 then None
      else if sourceIndex == 0 then projectTask
      else if sourceIndex == 1 then Some(DefaultId)
      else if sourceIndex == 2 then Some(SharedId)
      else if sourceIndex == 3 then (if activeComponent.None? then None else HostParent(world, activeComponent.value))
      else if sourceIndex == 4 then activeComponent
      else if sourceIndex == 5 then Some(UserId)
      else None
    }

    /**
     * refreshTable: shows the instance the source combo box selects. The
     * table is rebuilt with one row per key that makeKeySet lists for it, in
     * the key set's iteration order, each holding the value the host's
     * Settings.get (`values`) reports; the selected key stays selected when it
     * is still listed; the shown instance becomes the selected one and the
     * tree is refreshed. The result is false for makeKeySet's AssertionError,
     * which leaves the table emptied and the shown instance as it was.
     */
    method RefreshTable(values: (SettingsId, string) -> Option<string>, defaultValue: Option<string>)
      returns (ok: bool)
      requires Valid()
      requires DetermineSettingsForSelection().Some? ==> DetermineSettingsForSelection().value in world
      modifies this`current, this`rows, this`selectedKey, this`tree
      ensures Valid()
      ensures var next := old(DetermineSettingsForSelection());
        var keys := if next.None? then Some({}) else MakeKeySet(world, next.value, parentMode);
        && (ok <==> keys.Some?)
        && (!ok ==> rows == [] && selectedKey.None? && current == old(current) && tree == old(tree))
        && (ok ==> current == next && current == DetermineSettingsForSelection() && ListsExactly(rows, keys.value))
        && (ok && next.Some? ==> forall i :: 0 <= i < |rows| ==> rows[i].value == values(next.value, rows[i].key))
        && (ok ==> selectedKey == (if old(selectedKey).Some? && old(selectedKey).value in keys.value
                                   then old(selectedKey) else None))
        && (ok ==> tree == TreeText(world, raw, current, selectedKey, defaultValue))
    {
      var next := DetermineSettingsForSelection();
      var keys: set<string> := {};
      var table: seq<Row> := [];
      if next.Some? {
        var listed := MakeKeySet(world, next.value, parentMode);
        if listed.None? {
          rows, selectedKey := [], None;
          return false;
        }
        keys := listed.value;
        table := ListRows(keys, next.value, values);
      }
      if selectedKey.Some? && selectedKey.value !in keys {
        selectedKey := None;
      }
      rows, current := table, next;
      RefreshTree(defaultValue);
      return true;
    }

    /** isCellEditable: every cell, unless the Default settings are shown. */
    predicate IsCellEditable(row: int, column: int): (r: bool)
      reads this
      ensures r <==> current.None? || current.value != DefaultId
    {
      current != Some(DefaultId)
    }

    /**
     * refreshTree: walks the chain from the shown instance, pushing one line
     * per instance (and the global line after Shared's), then pops the stack
     * into the text, indenting each line by its depth.
     * `defaultValue` is the host's inherited lookup of the key in Default.
     */
    method RefreshTree(defaultValue: Option<string>)
      requires Valid()
      modifies this`tree
      ensures tree == TreeText(world, raw, current, selectedKey, defaultValue)
    {
      if selectedKey.None? {
        tree := RenderStack("", []);
        return;
      }
      var key := selectedKey.value;
      var stack := PushChain(key, defaultValue);
      tree := RenderStack(key + "\n\n", stack);
    }

    /** The first half of refreshTree: the stack of lines, root on top. */
    method PushChain(key: string, defaultValue: Option<string>) returns (stack: seq<string>)
      requires Valid()
      ensures stack == Entries(world, raw, key, defaultValue, ChainOf(world, current))
    {
      stack := [];
      ghost var c := ChainOf(world, current);
      var node := current;
      ghost var i := 0;
      while node.Some?
        invariant 0 <= i <= |c|
        invariant node == (if i < |c| then Some(c[i]) else None)
        invariant stack == Entries(world, raw, key, defaultValue, c[..i])
        decreases |c| - i
      {
        var n := node.value;
        stack := PushNode(world, raw, key, defaultValue, n, stack);
        EntriesSnoc(world, raw, key, defaultValue, c[..i], n);
        assert c[..i + 1] == c[..i] + [n];
        node := Parent(world, n);
        i := i + 1;
      }
      assert c[..i] == c;
    }

    /** editMayAffectEditedComponent: the chain walk from the active component. */
    method EditMayAffectEditedComponent(key: string) returns (r: bool)
      requires Valid()
      ensures r == MayAffect(world, current, activeComponent, key)
    {
      if activeComponent.None? {
        return false;
      }
      ghost var c := Chain(world, activeComponent.value);
      var s := activeComponent;
      ghost var i := 0;
      while s.Some?
        invariant 0 <= i <= |c|
        invariant s == (if i < |c| then Some(c[i]) else None)
        invariant MayAffectAlong(world, current, c, key) == MayAffectAlong(world, current, c[i..], key)
        decreases |c| - i
      {
        if s == current {
          return true;
        }
        if Override(world, s.value, key).Some? {
          return false;
        }
        assert c[i..][1..] == c[i + 1..];
        s := Parent(world, s.value);
        i := i + 1;
      }
      return true;
    }

    /** The table-model half of the overridden setValueAt: trim, check and update the row. */
    method UpdateRow(oValue: Option<string>, row: nat, column: nat) returns (write: bool, val: Option<string>)
      requires row < |rows| && column <= 1
      modifies this`rows
      ensures (rows, write, val) == RowEdit(old(rows), oValue, row, column)
    {
      var newValue := if oValue.None? then None else Some(Trim(oValue.value));
      if column == 0 && (newValue.None? || newValue.value == "") {
        return false, None;
      }
      if newValue.Some? && newValue == Cell(rows[row], column) {
        return false, None;
      }
      if newValue.Some? {
        rows := rows[row := PutCell(rows[row], column, newValue.value)];
      }
      if newValue.Some? && rows[row].value.None? {
        return false, None;
      }
      return true, if newValue.None? then None else rows[row].value;
    }

    /** The settings half of the overridden setValueAt: write `val` under `key` on the shown instance. */
    method StoreSetting(key: string, val: Option<string>) returns (stored: bool)
      requires Valid() && current.Some?
      modifies this`world, this`raw
      ensures Valid()
      ensures (world, raw, stored) == StoreEdit(old(world), old(raw), current.value, key, val)
    {
      var cur := current.value;
      if cur == SharedId {
        if val.None? {
          return false;
        }
        raw := SetGlobalSetting(raw, key, val.value);
      } else {
        var updated := if val.None? then ResetOverride(world, cur, key) else SetOverride(world, cur, key, val.value);
        OverridesKeepWellFormed(world, updated);
        world := updated;
      }
      return true;
    }

    /** The table model's overridden setValueAt, up to and including the write to the settings. */
    method WriteCell(oValue: Option<string>, row: nat, column: nat) returns (written: Option<string>)
      requires Valid()
      requires row < |rows| && column <= 1
      modifies this`world, this`raw, this`rows
      ensures Valid()
      ensures (State(), written) == CellWrite(old(State()), old(current).value, oValue, row, column)
    {
      var write, val := UpdateRow(oValue, row, column);
      if !write {
        return None;
      }
      var key := rows[row].key;
      var stored := StoreSetting(key, val);
      return if stored then Some(key) else None;
    }

    /**
     * The table model's overridden setValueAt. Rebuilding the table at its
     * end (refreshTable) is not part of this model.
     */
    method SetValueAt(oValue: Option<string>, row: nat, column: nat) returns (redraw: bool)
      requires Valid()
      requires row < |rows| && column <= 1
      modifies this`world, this`raw, this`rows, this`editedSinceLastFocusLost
      ensures Valid()
      ensures (State(), redraw) ==
        CellEdit(old(State()), old(current).value, sourceIndex, activeComponent, oValue, row, column)
    {
      var written := WriteCell(oValue, row, column);
      redraw := false;
      if written.Some? && sourceIndex > 0 {
        editedSinceLastFocusLost := true;
        redraw := EditMayAffectEditedComponent(written.value);
      }
    }

    /**
     * refreshListener, as written: a change of the shown instance removes the
     * first row with that key (null value), sends the new value through the
     * table model's setValueAt (which trims it and writes it back to the
     * settings), or appends a row for a key not yet listed.
     */
    method RefreshListener(source: SettingsId, key: string, val: Option<string>) returns (redraw: bool)
      requires Valid()
      modifies this`world, this`raw, this`rows, this`editedSinceLastFocusLost
      ensures Valid()
      ensures Some(source) != current ==> State() == old(State()) && !redraw
      ensures Some(source) == current ==>
        match FirstRowWithKey(old(rows), key)
        case None => State() == old(State()).(rows := old(rows) + [Row(key, val)]) && !redraw
        case Some(r) =>
          if val.None? then State() == old(State()).(rows := old(rows)[..r] + old(rows)[r + 1..]) && !redraw
          else (State(), redraw) == CellEdit(old(State()), source, sourceIndex, activeComponent, val, r, 1)
    {
      redraw := false;
      if Some(source) != current {
        return;
      }
      var row := 0;
      while row < |rows|
        invariant 0 <= row <= |rows|
        invariant State() == old(State()) && !redraw
        invariant forall i :: 0 <= i < row ==> rows[i].key != key
      {
        if key == rows[row].key {
          assert FirstRowWithKey(rows, key) == Some(row);
          if val.None? {
            rows := rows[..row] + rows[row + 1..];
          } else {
            redraw := SetValueAt(val, row, 1);
          }
          return;
        }
        row := row + 1;
      }
      rows := rows + [Row(key, val)];
    }

    /**
     * refreshListener as its comments describe it: the changed value is only
     * mirrored in the table, and the settings are left alone.
     */
    method RefreshListenerMirrorOnly(source: SettingsId, key: string, val: Option<string>)
      requires Valid()
      modifies this`rows
      ensures Valid()
      ensures Some(source) != current ==> rows == old(rows)
      ensures Some(source) == current ==>
        match FirstRowWithKey(old(rows), key)
        case None => rows == old(rows) + [Row(key, val)]
        case Some(r) =>
          if val.None? then rows == old(rows)[..r] + old(rows)[r + 1..]
          else rows == old(rows)[r := Row(key, val)]
    {
      if Some(source) != current {
        return;
      }
      var row := 0;
      while row < |rows|
        invariant 0 <= row <= |rows|
        invariant rows == old(rows)
        invariant forall i :: 0 <= i < row ==> rows[i].key != key
      {
        if key == rows[row].key {
          assert FirstRowWithKey(rows, key) == Some(row);
          if val.None? {
            rows := rows[..row] + rows[row + 1..];
          } else {
            rows := rows[row := rows[row].(value := val)];
          }
          return;
        }
        row := row + 1;
      }
      rows := rows + [Row(key, val)];
    }
  }

  /**
   * Once the table shows the selected source (as refreshTable leaves it),
   * the Default source is read-only and the Shared and User sources are
   * editable in every cell.
   */
  lemma EditableBySource(p: SettingExplorerPanel, row: int, column: int)
    requires WellFormed(p.world) && p.current == p.DetermineSettingsForSelection()
    ensures p.sourceIndex == 1 ==> !p.IsCellEditable(row, column)
    ensures p.sourceIndex == 2 || p.sourceIndex == 5 ==> p.IsCellEditable(row, column)
  {
  }

  /**
   * The listener as written rewrites a value that was set elsewhere: when
   * the shown instance (not Shared) sets a listed key to a value `v` whose
   * trimmed form is not the value the row lists, the listener's setValueAt
   * stores Trim(v) over it. With v == " w" (TrimmedValue) the stored " w"
   * becomes "w".
   */
  lemma ListenerRewritesTrimmedValue(st: EditState, current: SettingsId, sourceIndex: int,
                                     active: Option<SettingsId>, v: string, row: nat)
    requires WellFormed(st.world) && current in st.world && current != SharedId
    requires row < |st.rows| && Some(Trim(v)) != st.rows[row].value
    ensures var after := CellEdit(st, current, sourceIndex, active, Some(v), row, 1).0;
      Override(after.world, current, st.rows[row].key) == Some(Trim(v))
  {
    CellWriteEffects(st, current, Some(v), row, 1, CellWrite(st, current, Some(v), row, 1));
  }

  /** A padded value is changed by trimming: " w" becomes "w". */
  lemma TrimmedValue()
    ensures Trim(" w") == "w" != " w"
  {
    assert SkipLeading(" w", 0) == 1 && SkipTrailing(" w", 1, 2) == 2;
    assert " w"[1..2] == "w";
  }
}
