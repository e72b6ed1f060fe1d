/**
 * The memory graph of the Memory Use tool (MemoryGraph): a 60-slot sample
 * buffer shifted left once per sample with the newest sample written last, a
 * running maximum, a cached shape invalidated by every sample, and the
 * garbage-collection timer started by a click. Sample values are byte counts
 * supplied by the caller.
 */
module MemoryGraph {
  import opened Text

  /** SAMPLES: the number of slots in the buffer. */
  const Samples: nat := 60

  /** The buffer after one sample: the oldest value drops out, `m` comes last. */
  function Shift(buf: seq<nat>, m: nat): (r: seq<nat>)
    requires buf != []
    ensures |r| == |buf| && r[|r| - 1] == m
    ensures forall i :: 0 <= i < |buf| - 1 ==> r[i] == buf[i + 1]
  {
    buf[1..] + [m]
  }

  /** The buffer after a run of samples, oldest first. */
  function Feed(buf: seq<nat>, ms: seq<nat>): seq<nat>
    requires buf != []
    decreases |ms|
  {
    if ms == [] then buf else Feed(Shift(buf, ms[0]), ms[1..])
  }

  /** The buffer always holds the most recent |buf| values of the old contents followed by the samples. */
  lemma {:induction false} FeedKeepsRecent(buf: seq<nat>, ms: seq<nat>)
    requires buf != []
    ensures Feed(buf, ms) == (buf + ms)[|ms|..]
    decreases |ms|
  {
    if ms != [] {
      var next := Shift(buf, ms[0]);
      FeedKeepsRecent(next, ms[1..]);
      assert next + ms[1..] == (buf + ms)[1..];
    }
  }

  /** One tick of the collection timer: it stops itself on its fourth tick. */
  function GcTick(timer: Option<nat>): (r: Option<nat>)
    ensures timer.None? ==> r.None?
    ensures timer == Some(3) ==> r.None?
    ensures timer.Some? && timer.value < 3 ==> r == Some(timer.value + 1)
  {
    match timer
    case None => None
    case Some(count) => if count == 3 then None else Some(count + 1)
  }

  /** `n` ticks of the collection timer. */
  function GcTicks(timer: Option<nat>, n: nat): Option<nat>
    decreases n
  {
    if n == 0 then timer else GcTicks(GcTick(timer), n - 1)
  }

  /** A click starts the timer only when none is running. */
  function GcClick(timer: Option<nat>): (r: Option<nat>)
    ensures timer.Some? ==> r == timer
    ensures timer.None? ==> r == Some(0)
  {
    if timer.Some? then timer else Some(0)
  }

  /** A started collection runs for exactly four ticks, then the timer is gone. */
  lemma GcRunsFourTicks()
    ensures forall k :: 0 <= k < 4 ==> GcTicks(Some(0), k) == Some(k)
    ensures GcTicks(Some(0), 4).None?
  {
    assert GcTicks(Some(3), 1).None?;
    assert GcTicks(Some(2), 2).None?;
    assert GcTicks(Some(1), 3).None?;
  }

  class MemoryGraph {
    var heapUse: array<nat>
    var maxMem: nat
    /** Whether the cached graph shape (memShape) is present. */
    var shapeValid: bool
    /** The click timer: None when no collection runs, otherwise its tick count. */
    var gcTimer: Option<nat>

    ghost predicate Valid()
      reads this, heapUse
    {
      && heapUse.Length == Samples
      && (forall i :: 0 <= i < Samples ==> heapUse[i] <= maxMem)
      && (gcTimer.Some? ==> gcTimer.value <= 3)
    }

    constructor ()
      ensures Valid() && fresh(heapUse)
      ensures heapUse[..] == seq(Samples, _ => 0) && maxMem == 0
      ensures !shapeValid && gcTimer.None?
    {
      heapUse := new nat[Samples](_ => 0);
      maxMem := 0;
      shapeValid := false;
      gcTimer := None;
    }

    /** roll: every slot takes the value of the next one; the last slot keeps its value. */
    method Roll(samples: array<nat>)
      requires samples.Length == Samples
      modifies samples
      ensures forall i :: 1 <= i < Samples ==> samples[i - 1] == old(samples[i])
      ensures samples[Samples - 1] == old(samples[Samples - 1])
    {
      var i := 1;
      while i < Samples
        invariant 1 <= i <= Samples
        invariant forall k :: 1 <= k < i ==> samples[k - 1] == old(samples[k])
        invariant forall k :: i - 1 <= k < Samples ==> samples[k] == old(samples[k])
      {
        samples[i - 1] := samples[i];
        i := i + 1;
      }
    }

    /**
     * takeSample with the measured heap and non-heap use `mem`: the buffer
     * shifts and ends with `mem`, the maximum grows to cover it, and the
     * cached shape is dropped.
     */
    method TakeSample(mem: nat)
      requires Valid()
      modifies this`maxMem, this`shapeValid, heapUse
      ensures Valid()
      ensures heapUse[..] == Shift(old(heapUse[..]), mem)
      ensures maxMem == if mem > old(maxMem) then mem else old(maxMem)
      ensures old(maxMem) <= maxMem && mem <= maxMem
      ensures !shapeValid
    {
      Roll(heapUse);
      assert forall i :: 0 <= i < Samples ==> heapUse[i] <= maxMem by {
        forall i | 0 <= i < Samples ensures heapUse[i] <= maxMem {
          if i < Samples - 1 {
            assert heapUse[i] == old(heapUse[i + 1]);
          }
        }
      }
      maxMem := if mem > maxMem then mem else maxMem;
      heapUse[Samples - 1] := mem;
      shapeValid := false;
    }

    /** mouseClicked: ignored while a collection runs, otherwise starts the timer at count 0. */
    method MouseClicked()
      requires Valid()
      modifies this`gcTimer
      ensures Valid()
      ensures gcTimer == GcClick(old(gcTimer))
    {
      if gcTimer.Some? {
        return;
      }
      gcTimer := Some(0);
    }

    /** One firing of the click timer; the two collection requests are not modelled. */
    method ClickTimerTick()
      requires Valid()
      modifies this`gcTimer
      ensures Valid()
      ensures gcTimer == GcTick(old(gcTimer))
    {
      if gcTimer.None? {
        return;
      }
      var count := gcTimer.value;
      if count == 3 {
        gcTimer := None;
      } else {
        gcTimer := Some(count + 1);
      }
    }
  }
}
