/**
 * The Cache Manager tool (CacheManagerPanel): a list of the registered cache
 * metrics, refreshed when the registry's list changes, a detail panel for the
 * selected cache, and a timer that refreshes the details on every visible tick
 * and the list on every tenth.
 *
 * Cache metrics objects are compared by identity, so the list holds their
 * identities; what a cache currently reports is a host function of the
 * identity.
 */
module CacheManager {
  import opened Text

  type CacheId = nat

  /** What a cache metrics object reports at the moment it is asked. */
  datatype CacheStats = CacheStats(name: string, contentType: string, itemCount: int, byteSize: int,
                                   clearSupported: bool)

  /** The size label: "Unknown" for a negative size, otherwise the formatted byte count. */
  datatype SizeText = Unknown | Bytes(count: nat)

  /** The reload period of the update timer, in ticks. */
  const ReloadEvery: nat := 10

  /** getSelectedValue for a selection index (-1: nothing selected). */
  function SelectedValue(items: seq<CacheId>, selected: int): (r: Option<CacheId>)
    ensures r.Some? <==> 0 <= selected < |items|
    ensures r.Some? ==> r.value == items[selected]
  {
    if 0 <= selected < |items| then Some(items[selected]) else None
  }

  /** The first position of `x` in `items`, as JList.setSelectedValue searches for it. */
  function FirstIndex(items: seq<CacheId>, x: CacheId): (r: int)
    ensures -1 <= r < |items|
    ensures r >= 0 ==> items[r] == x && forall j :: 0 <= j < r ==> items[j] != x
    ensures r == -1 <==> x !in items
  {
    if items == [] then -1
    else if items[0] == x then 0
    else
      var k := FirstIndex(items[1..], x);
      if k == -1 then -1 else k + 1
  }

  /** Whether the list model already holds exactly these metrics, element by element. */
  predicate SameList(items: seq<CacheId>, metrics: seq<CacheId>)
  {
    |items| == |metrics| && forall i :: 0 <= i < |metrics| ==> items[i] == metrics[i]
  }

  /**
   * reload: nothing changes when the registry returns the same metrics;
   * otherwise the list becomes the registry's list and the previous selection
   * is selected again if it is still listed, else the first entry (if any).
   */
  function Reloaded(items: seq<CacheId>, selected: int, metrics: seq<CacheId>): (r: (seq<CacheId>, int))
    ensures SameList(items, metrics) ==> r == (items, selected)
    ensures !SameList(items, metrics) ==> r.0 == metrics
    ensures !SameList(items, metrics) ==>
      var previous := SelectedValue(items, selected);
      if previous.Some? && previous.value in metrics then
        0 <= r.1 < |metrics| && metrics[r.1] == previous.value
      else r.1 == (if metrics == [] then -1 else 0)
  {
    if SameList(items, metrics) then (items, selected)
    else
      var previous := SelectedValue(items, selected);
      var found := if previous.None? then -1 else FirstIndex(metrics, previous.value);
      if found >= 0 then (metrics, found)
      else if metrics == [] then (metrics, -1)
      else (metrics, 0)
  }

  /** Reloading twice with the same registry list is the same as reloading once. */
  lemma ReloadIdempotent(items: seq<CacheId>, selected: int, metrics: seq<CacheId>)
    ensures var once := Reloaded(items, selected, metrics);
      Reloaded(once.0, once.1, metrics) == once
  {
  }

  /** One visible tick of the update timer: the counter, and whether the list is reloaded. */
  function TickCounter(callNum: nat): (r: (nat, bool))
    requires callNum < ReloadEvery
    ensures r.0 < ReloadEvery
    ensures r.1 <==> callNum == ReloadEvery - 1
    ensures r.1 ==> r.0 == 0
    ensures !r.1 ==> r.0 == callNum + 1
  {
    if callNum + 1 == ReloadEvery then (0, true) else (callNum + 1, false)
  }

  /** `n` visible ticks from a counter at 0 reload the list floor(n / 10) times. */
  function ReloadsIn(callNum: nat, n: nat): nat
    requires callNum < ReloadEvery
    decreases n
  {
    if n == 0 then 0
    else
      var t := TickCounter(callNum);
      (if t.1 then 1 else 0) + ReloadsIn(t.0, n - 1)
  }

  /** Starting from a fresh counter, n visible ticks reload the list n / 10 times. */
  lemma {:induction false} TickSchedule(n: nat)
    ensures ReloadsIn(0, n) == n / ReloadEvery
  {
    ReloadsFrom(0, n);
  }

  /** From any counter value c, n ticks reload (c + n) / 10 times. */
  lemma {:induction false} ReloadsFrom(c: nat, n: nat)
    requires c < ReloadEvery
    ensures ReloadsIn(c, n) == (c + n) / ReloadEvery
    decreases n
  {
    if n > 0 {
      var t := TickCounter(c);
      ReloadsFrom(t.0, n - 1);
      if t.1 {
        assert c + n == ReloadEvery + (n - 1);
      } else {
        assert t.0 + (n - 1) == c + n;
      }
    }
  }

  class CacheManagerPanel {
    var items: seq<CacheId>
    var selected: int
    var callNum: nat
    /** Whether the update timer is started (between windowVisible and windowHidden). */
    var timerRunning: bool
    var nameText: string
    var typeText: string
    var itemCountText: int
    var sizeText: SizeText
    var clearEnabled: bool

    ghost predicate Valid()
      reads this
    {
      -1 <= selected < |items| && callNum < ReloadEvery
    }

    /** The detail labels and the clear button show what `cm` reports. */
    predicate Shows(cm: CacheStats)
      reads this
    {
      && nameText == cm.name && typeText == cm.contentType && itemCountText == cm.itemCount
      && (sizeText == Unknown <==> cm.byteSize < 0)
      && (cm.byteSize >= 0 ==> sizeText == Bytes(cm.byteSize))
      && clearEnabled == cm.clearSupported
    }

    /** A new panel: the list loaded from the registry, the timer stopped with a fresh counter. */
    constructor (metrics: seq<CacheId>)
      ensures Valid() && callNum == 0 && !timerRunning
      ensures items == metrics && selected == (if metrics == [] then -1 else 0)
    {
      items := [];
      selected := -1;
      callNum := 0;
      timerRunning := false;
      nameText := "";
      typeText := "";
      itemCountText := 0;
      sizeText := Unknown;
      clearEnabled := false;
      new;
      Reload(metrics);
    }

    /** reload with the registry's current list `metrics`. */
    method Reload(metrics: seq<CacheId>)
      requires Valid()
      modifies this`items, this`selected
      ensures Valid()
      ensures (items, selected) == Reloaded(old(items), old(selected), metrics)
    {
      if |items| == |metrics| {
        var i := 0;
        while i < |metrics|
          invariant 0 <= i <= |metrics|
          invariant forall j :: 0 <= j < i ==> metrics[j] == items[j]
        {
          if metrics[i] != items[i] {
            break;
          }
          i := i + 1;
        }
        if i == |metrics| {
          return;
        }
      }
      assert !SameList(items, metrics);
      var selection := SelectedValue(items, selected);
      var list: seq<CacheId> := [];
      var i := 0;
      while i < |metrics|
        invariant 0 <= i <= |metrics|
        invariant list == metrics[..i]
      {
        list := list + [metrics[i]];
        i := i + 1;
      }
      assert list == metrics;
      var index := -1;
      if selection.Some? {
        index := FirstIndex(list, selection.value);
      }
      if index < 0 && |list| > 0 {
        index := 0;
      }
      items, selected := list, index;
    }

    /** updateCachePanel: shows what the selected cache reports; nothing without a selection. */
    method UpdateCachePanel(stats: CacheId -> CacheStats)
      requires Valid()
      modifies this`nameText, this`typeText, this`itemCountText, this`sizeText, this`clearEnabled
      ensures SelectedValue(items, selected).None? ==>
        nameText == old(nameText) && typeText == old(typeText) && itemCountText == old(itemCountText) &&
        sizeText == old(sizeText) && clearEnabled == old(clearEnabled)
      ensures SelectedValue(items, selected).Some? ==> Shows(stats(items[selected]))
    {
      var sel := SelectedValue(items, selected);
      if sel.None? {
        return;
      }
      var cm := stats(sel.value);
      nameText := cm.name;
      typeText := cm.contentType;
      itemCountText := cm.itemCount;
      if cm.byteSize < 0 {
        sizeText := Unknown;
      } else {
        sizeText := Bytes(cm.byteSize);
      }
      clearEnabled := cm.clearSupported;
    }

    /** windowVisible: reload the list, show the selected cache's details and start the timer. */
    method WindowVisible(metrics: seq<CacheId>, stats: CacheId -> CacheStats)
      requires Valid()
      modifies this
      ensures Valid() && timerRunning && callNum == old(callNum)
      ensures (items, selected) == Reloaded(old(items), old(selected), metrics)
      ensures SelectedValue(items, selected).Some? ==> Shows(stats(items[selected]))
      ensures SelectedValue(items, selected).None? ==>
        nameText == old(nameText) && typeText == old(typeText) && itemCountText == old(itemCountText) &&
        sizeText == old(sizeText) && clearEnabled == old(clearEnabled)
    {
      Reload(metrics);
      UpdateCachePanel(stats);
      timerRunning := true;
    }

    /** windowHidden: stop the timer; its counter is kept. */
    method WindowHidden()
      requires Valid()
      modifies this`timerRunning
      ensures Valid() && !timerRunning
    {
      timerRunning := false;
    }

    /**
     * One firing of the update timer. A stopped timer does not fire; while
     * the panel is hidden nothing happens; otherwise the details of the
     * cache selected before the tick are refreshed, the counter advances, and on its tenth step it restarts at 0
     * and the list is reloaded.
     */
    method Tick(visible: bool, metrics: seq<CacheId>, stats: CacheId -> CacheStats)
      requires Valid()
      modifies this
      ensures Valid() && timerRunning == old(timerRunning)
      ensures !(visible && timerRunning) ==>
        items == old(items) && selected == old(selected) && callNum == old(callNum) &&
        nameText == old(nameText) && typeText == old(typeText) && itemCountText == old(itemCountText) &&
        sizeText == old(sizeText) && clearEnabled == old(clearEnabled)
      ensures visible && timerRunning && SelectedValue(old(items), old(selected)).Some? ==>
        Shows(stats(old(items)[old(selected)]))
      ensures visible && timerRunning && SelectedValue(old(items), old(selected)).None? ==>
        nameText == old(nameText) && typeText == old(typeText) && itemCountText == old(itemCountText) &&
        sizeText == old(sizeText) && clearEnabled == old(clearEnabled)
      ensures visible && timerRunning ==> (callNum, callNum == 0 && old(callNum) == ReloadEvery - 1) == TickCounter(old(callNum))
      ensures visible && timerRunning && old(callNum) < ReloadEvery - 1 ==> items == old(items) && selected == old(selected)
      ensures visible && timerRunning && old(callNum) == ReloadEvery - 1 ==>
        (items, selected) == Reloaded(old(items), old(selected), metrics)
    {
      if timerRunning && visible {
        UpdateCachePanel(stats);
        callNum := callNum + 1;
        if callNum == ReloadEvery {
          callNum := 0;
          Reload(metrics);
        }
      }
    }

    /** clearBtnActionPerformed: the cache whose clear() is called, if any. */
    method ClearSelected(stats: CacheId -> CacheStats) returns (cleared: Option<CacheId>)
      requires Valid()
      ensures cleared.Some? <==>
        SelectedValue(items, selected).Some? && stats(SelectedValue(items, selected).value).clearSupported
      ensures cleared.Some? ==> cleared == SelectedValue(items, selected)
    {
      var cm := SelectedValue(items, selected);
      if cm.Some? && stats(cm.value).clearSupported {
        return cm;
      }
      return None;
    }
  }
}
