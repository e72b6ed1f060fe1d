/**
 * The Log Viewer tool (LogViewerPanel): a text area that mirrors the host's
 * append-only log buffer by copying, on every poll, the part of the buffer it
 * has not yet copied; and a popup of logging levels with the current level
 * checked.
 */
module LogViewer {
  import opened Text

  /** The logging levels of java.util.logging, and any other level by its name. */
  datatype Level = Off | Severe | Warning | Info | Config | Fine | Finer | Finest | All | Custom(name: string)

  /** Level.toString: the level's name. */
  function LevelName(l: Level): string
  {
    match l
    case Off => "OFF"
    case Severe => "SEVERE"
    case Warning => "WARNING"
    case Info => "INFO"
    case Config => "CONFIG"
    case Fine => "FINE"
    case Finer => "FINER"
    case Finest => "FINEST"
    case All => "ALL"
    case Custom(n) => n
  }

  /** The level items of the popup, in the order they are created. */
  const LevelItems: seq<string> := ["Off", "Severe", "Warning", "Info", "Config", "Fine", "All"]

  /** String.equalsIgnoreCase, for ASCII letters. */
  predicate EqualsIgnoreCase(a: string, b: string)
  {
    Lower(a) == Lower(b)
  }

  /** createItem's rule: the item is checked when it names the current level, or is "All" at FINER or FINEST. */
  predicate ChecksItem(cur: Level, name: string)
  {
    EqualsIgnoreCase(LevelName(cur), name) || ((cur == Finer || cur == Finest) && name == "All")
  }

  /**
   * The checked item of a button group after the first `n` items of `names`
   * were added with createItem: the last item whose rule held, since checking
   * an item of the group unchecks the one checked before; None when no rule
   * held.
   */
  function CheckedItem(cur: Level, names: seq<string>, n: nat): (r: Option<nat>)
    requires n <= |names|
    ensures r.Some? ==> r.value < n && ChecksItem(cur, names[r.value])
    ensures r.Some? ==> forall j :: r.value < j < n ==> !ChecksItem(cur, names[j])
    ensures r.None? <==> forall j :: 0 <= j < n ==> !ChecksItem(cur, names[j])
  {
    if n == 0 then None
    else if ChecksItem(cur, names[n - 1]) then Some(n - 1)
    else CheckedItem(cur, names, n - 1)
  }

  /** The item of LevelItems that a level checks. */
  function ItemFor(l: Level): Option<nat>
  {
    match l
    case Off => Some(0)
    case Severe => Some(1)
    case Warning => Some(2)
    case Info => Some(3)
    case Config => Some(4)
    case Fine => Some(5)
    case Finer => Some(6)
    case Finest => Some(6)
    case All => Some(6)
    case Custom(_) => None
  }

  /** The lower-case forms of the item names and of the standard level names. */
  lemma LowerNames()
    ensures Lower("Off") == "off" && Lower("OFF") == "off"
    ensures Lower("Severe") == "severe" && Lower("SEVERE") == "severe"
    ensures Lower("Warning") == "warning" && Lower("WARNING") == "warning"
    ensures Lower("Info") == "info" && Lower("INFO") == "info"
    ensures Lower("Config") == "config" && Lower("CONFIG") == "config"
    ensures Lower("Fine") == "fine" && Lower("FINE") == "fine"
    ensures Lower("All") == "all" && Lower("ALL") == "all"
    ensures Lower("FINER") == "finer" && Lower("FINEST") == "finest"
  {
  }

  /** Which items a standard level's rule checks: exactly the one ItemFor names. */
  lemma StandardLevelRule(l: Level, j: nat)
    requires !l.Custom? && j < |LevelItems|
    ensures ChecksItem(l, LevelItems[j]) <==> Some(j) == ItemFor(l)
  {
    LowerNames();
    var n := LevelItems[j];
    assert n == ["Off", "Severe", "Warning", "Info", "Config", "Fine", "All"][j];
  }

  /**
   * Every standard level checks exactly one item of the popup: the one
   * naming it, and "All" for FINER, FINEST and ALL.
   */
  lemma StandardLevelChecksOneItem(l: Level)
    requires !l.Custom?
    ensures CheckedItem(l, LevelItems, |LevelItems|) == ItemFor(l)
    ensures forall j :: 0 <= j < |LevelItems| ==> (ChecksItem(l, LevelItems[j]) <==> Some(j) == ItemFor(l))
  {
    forall j | 0 <= j < |LevelItems|
      ensures ChecksItem(l, LevelItems[j]) <==> Some(j) == ItemFor(l)
    {
      StandardLevelRule(l, j);
    }
    var k := ItemFor(l).value;
    assert ChecksItem(l, LevelItems[k]);
  }

  /**
   * One poll (updateLog) of a buffer whose current text is `buffer`: when its
   * length differs from buffLen, the text from buffLen to the end is appended
   * to the document and buffLen becomes the length; when the buffer has
   * become shorter than buffLen, the substring throws and nothing changes.
   * Returns the new document, the new buffLen, and whether it threw.
   */
  function Polled(doc: string, buffLen: nat, buffer: string): (r: (string, nat, bool))
    ensures buffLen == |buffer| ==> r == (doc, buffLen, false)
    ensures buffLen < |buffer| ==> r == (doc + buffer[buffLen..], |buffer|, false)
    ensures buffLen > |buffer| ==> r == (doc, buffLen, true)
    ensures !r.2 ==> r.1 == |buffer|
  {
    if buffLen == |buffer| then (doc, buffLen, false)
    else if buffLen > |buffer| then (doc, buffLen, true)
    else (doc + buffer[buffLen..], |buffer|, false)
  }

  /** The document mirrors the buffer up to buffLen. */
  predicate Mirrors(doc: string, buffLen: nat, buffer: string)
  {
    buffLen <= |buffer| && doc == buffer[..buffLen]
  }

  /** A poll of a buffer that only grew since the document mirrored it leaves the document equal to the whole buffer. */
  lemma PollMirrors(doc: string, buffLen: nat, before: string, buffer: string)
    requires Mirrors(doc, buffLen, before) && before <= buffer
    ensures var r := Polled(doc, buffLen, buffer);
      !r.2 && r.1 == |buffer| && r.0 == buffer && Mirrors(r.0, r.1, buffer)
  {
    if buffLen < |buffer| {
      assert buffer[..buffLen] + buffer[buffLen..] == buffer;
    } else {
      assert buffer[..buffLen] == buffer;
    }
  }

  /** Polls of successive snapshots of an append-only buffer, starting from an empty document. */
  function PollAll(doc: string, buffLen: nat, snapshots: seq<string>): (string, nat, bool)
    decreases |snapshots|
  {
    if snapshots == [] then (doc, buffLen, false)
    else
      var r := Polled(doc, buffLen, snapshots[0]);
      if r.2 then r else PollAll(r.0, r.1, snapshots[1..])
  }

  /** Whether each snapshot extends the previous one. */
  predicate AppendOnly(snapshots: seq<string>)
  {
    forall i :: 0 < i < |snapshots| ==> snapshots[i - 1] <= snapshots[i]
  }

  /**
   * From an empty document and buffLen 0, polling any run of snapshots of an
   * append-only buffer never throws and leaves the document equal to the
   * last snapshot, with buffLen its length.
   */
  lemma {:induction false} PollAllShowsLatest(snapshots: seq<string>)
    requires snapshots != [] && AppendOnly(snapshots)
    ensures var r := PollAll("", 0, snapshots);
      !r.2 && r.0 == snapshots[|snapshots| - 1] && r.1 == |snapshots[|snapshots| - 1]|
  {
    PollAllFrom("", 0, "", snapshots);
  }

  /** PollAllShowsLatest, from any document that mirrors a prefix of the first snapshot. */
  lemma {:induction false} PollAllFrom(doc: string, buffLen: nat, before: string, snapshots: seq<string>)
    requires snapshots != [] && AppendOnly(snapshots)
    requires Mirrors(doc, buffLen, before) && before <= snapshots[0]
    ensures var r := PollAll(doc, buffLen, snapshots);
      !r.2 && r.0 == snapshots[|snapshots| - 1] && r.1 == |snapshots[|snapshots| - 1]|
    decreases |snapshots|
  {
    PollMirrors(doc, buffLen, before, snapshots[0]);
    var r := Polled(doc, buffLen, snapshots[0]);
    if |snapshots| > 1 {
      var rest := snapshots[1..];
      assert AppendOnly(rest) by {
        forall i | 0 < i < |rest| ensures rest[i - 1] <= rest[i] {
          assert rest[i - 1] == snapshots[i] && rest[i] == snapshots[i + 1];
        }
      }
      assert snapshots[0] <= rest[0];
      PollAllFrom(r.0, r.1, snapshots[0], rest);
      assert PollAll(doc, buffLen, snapshots) == PollAll(r.0, r.1, rest);
    } else {
      assert PollAll(r.0, r.1, []) == (r.0, r.1, false);
    }
  }

  class LogViewerPanel {
    /** The text shown in the log field. */
    var doc: string
    /** How much of the log buffer has been copied into the document. */
    var buffLen: nat
    /** Whether the poll timer is started (while the window is shown). */
    var polling: bool
    /** The popup's level items, in creation order. */
    var items: seq<string>
    /** The item checked in the popup's button group. */
    var checked: Option<nat>

    ghost predicate Valid()
      reads this
    {
      checked.Some? ==> checked.value < |items|
    }

    /** A new panel: an empty document, nothing copied yet, and the level popup built for level `cur`. */
    constructor (cur: Level)
      ensures Valid() && doc == "" && buffLen == 0 && !polling
      ensures items == LevelItems && checked == CheckedItem(cur, LevelItems, |LevelItems|)
    {
      doc := "";
      buffLen := 0;
      polling := false;
      items := [];
      checked := None;
      new;
      InitLevelPopup(cur);
    }

    /** createItem: adds an item to the popup and the group, checking it when its rule holds. */
    method CreateItem(name: string, cur: Level)
      requires Valid()
      modifies this`items, this`checked
      ensures Valid()
      ensures items == old(items) + [name]
      ensures checked == if ChecksItem(cur, name) then Some(|old(items)|) else old(checked)
    {
      var select := EqualsIgnoreCase(LevelName(cur), name);
      if !select && (cur == Finer || cur == Finest) && name == "All" {
        select := true;
      }
      items := items + [name];
      if select {
        checked := Some(|items| - 1);
      }
    }

    /** initLevelPopup: the seven level items in their fixed order. */
    method InitLevelPopup(cur: Level)
      requires Valid() && items == [] && checked.None?
      modifies this`items, this`checked
      ensures Valid()
      ensures items == LevelItems && checked == CheckedItem(cur, LevelItems, |LevelItems|)
    {
      CreateItems(LevelItems, cur);
    }

    /** createItem for each name in turn, on an empty popup. */
    method CreateItems(names: seq<string>, cur: Level)
      requires Valid() && items == [] && checked.None?
      modifies this`items, this`checked
      ensures Valid()
      ensures items == names && checked == CheckedItem(cur, names, |names|)
    {
      var i := 0;
      while i < |names|
        invariant 0 <= i <= |names|
        invariant Valid()
        invariant items == names[..i]
        invariant checked == CheckedItem(cur, names, i)
      {
        assert names[..i + 1] == names[..i] + [names[i]];
        CreateItem(names[i], cur);
        assert checked == CheckedItem(cur, names, i + 1);
        i := i + 1;
      }
      assert names[..|names|] == names;
    }

    /** updateLog against the buffer's current text; `thrown` when the buffer shrank below buffLen. */
    method UpdateLog(buffer: string) returns (thrown: bool)
      modifies this`doc, this`buffLen
      ensures (doc, buffLen, thrown) == Polled(old(doc), old(buffLen), buffer)
    {
      var newText: Option<string> := None;
      var newLen := |buffer|;
      if buffLen != newLen {
        if buffLen > newLen {
          return true;
        }
        assert buffer[buffLen..newLen] == buffer[buffLen..];
        newText := Some(buffer[buffLen..newLen]);
        buffLen := newLen;
      }
      if newText.Some? {
        doc := doc + newText.value;
      }
      return false;
    }

    /** componentShown: one poll, then the timer starts. */
    method WindowShown(buffer: string) returns (thrown: bool)
      modifies this`doc, this`buffLen, this`polling
      ensures (doc, buffLen, thrown) == Polled(old(doc), old(buffLen), buffer)
      ensures polling == if thrown then old(polling) else true
    {
      thrown := UpdateLog(buffer);
      if !thrown {
        polling := true;
      }
    }

    /** componentHidden: the timer stops. */
    method WindowHidden()
      modifies this`polling
      ensures !polling
    {
      polling := false;
    }

    /** One firing of the poll timer; a stopped timer does not fire. */
    method PollTick(buffer: string) returns (thrown: bool)
      modifies this`doc, this`buffLen
      ensures polling ==> (doc, buffLen, thrown) == Polled(old(doc), old(buffLen), buffer)
      ensures !polling ==> doc == old(doc) && buffLen == old(buffLen) && !thrown
    {
      thrown := false;
      if polling {
        thrown := UpdateLog(buffer);
      }
    }
  }
}
