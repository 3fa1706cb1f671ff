/** The counters that decide when the cache is too large. */
module Statistics {

  datatype Counters = Counters(streams: nat, sources: nat, objects: nat, changed: bool) {

    function AddStream(): Counters { this.(streams := streams + 1, changed := true) }
    function AddSource(): Counters { this.(sources := sources + 1, changed := true) }
    function AddObject(): Counters { this.(objects := objects + 1, changed := true) }

    // The original asserts a positive counter before it decrements.  The class
    // below requires it; the zero case only makes these functions total.
    function RemoveStream(isGc: bool): Counters {
      this.(streams := if streams > 0 then streams - 1 else 0, changed := changed || !isGc)
    }

    function RemoveSource(isGc: bool): Counters {
      this.(sources := if sources > 0 then sources - 1 else 0, changed := changed || !isGc)
    }

    function RemoveObject(isGc: bool): Counters {
      this.(objects := if objects > 0 then objects - 1 else 0, changed := changed || !isGc)
    }

    predicate Exceeds(limits: Counters) {
      streams > limits.streams || sources > limits.sources || objects > limits.objects
    }

    /** The limits scaled to a percentage, which is capped at 100. */
    function Scaled(percentage: nat): Counters {
      var p := if percentage > 100 then 100 else percentage;
      Counters(streams * p / 100, sources * p / 100, objects * p / 100, changed)
    }
  }

  const LIMITS_LOW_HI_PERCENTAGE: nat := 60

  /** What exceeds the upper limits exceeds the lower ones, so a scheduled collection has work to do. */
  lemma UpperImpliesLower(c: Counters, upper: Counters, percentage: nat)
    requires c.Exceeds(upper)
    ensures c.Exceeds(upper.Scaled(percentage))
  {
  }

  /** Lower limits are 60 percent of the upper ones, rounded down. */
  lemma SixtyPercent(upper: Counters)
    ensures var lower := upper.Scaled(LIMITS_LOW_HI_PERCENTAGE);
      && 100 * lower.streams <= 60 * upper.streams < 100 * (lower.streams + 1)
      && 100 * lower.sources <= 60 * upper.sources < 100 * (lower.sources + 1)
      && 100 * lower.objects <= 60 * upper.objects < 100 * (lower.objects + 1)
  {
  }

  /** Nothing exceeds the limits exactly if no single counter is above its own. */
  lemma WithinLimits(c: Counters, limits: Counters)
    ensures !c.Exceeds(limits) <==>
      c.streams <= limits.streams && c.sources <= limits.sources && c.objects <= limits.objects
  {
  }

  /** A change by anybody but the collector is noted, one by the collector is not. */
  lemma ChangesNoted(c: Counters)
    ensures c.AddStream().changed && c.AddSource().changed && c.AddObject().changed
    ensures c.RemoveStream(false).changed && c.RemoveSource(false).changed && c.RemoveObject(false).changed
    ensures c.RemoveStream(true).changed == c.changed && c.RemoveSource(true).changed == c.changed
    ensures c.RemoveObject(true).changed == c.changed
  {
  }

  class Statistics {
    var streams: nat
    var sources: nat
    var objects: nat
    var changed: bool

    ghost function View(): Counters
      reads this
    {
      Counters(streams, sources, objects, changed)
    }

    constructor ()
      ensures View() == Counters(0, 0, 0, false)
    {
      streams, sources, objects, changed := 0, 0, 0, false;
    }

    method Set(newStreams: nat, newSources: nat, newObjects: nat)
      modifies this
      ensures View() == Counters(newStreams, newSources, newObjects, true)
    {
      streams, sources, objects, changed := newStreams, newSources, newObjects, true;
    }

    method Reset()
      modifies this
      ensures View() == Counters(0, 0, 0, false)
    {
      streams, sources, objects, changed := 0, 0, 0, false;
    }

    /** Returns whether there was a change to forget. */
    method MarkUnchanged() returns (was: bool)
      modifies this
      ensures was == old(changed)
      ensures View() == old(View()).(changed := false)
    {
      if !changed {
        return false;
      }
      changed := false;
      return true;
    }

    method MarkForGc()
      modifies this
      ensures View() == old(View()).(changed := true)
    {
      changed := true;
    }

    method ExceedsLimits(limits: Counters) returns (exceeds: bool)
      ensures exceeds <==> View().Exceeds(limits)
      ensures exceeds <==> streams > limits.streams || sources > limits.sources || objects > limits.objects
    {
      exceeds := streams > limits.streams || sources > limits.sources || objects > limits.objects;
    }

    method AddStream()
      modifies this
      ensures View() == old(View()).AddStream()
    {
      streams := streams + 1;
      changed := true;
    }

    method AddSource()
      modifies this
      ensures View() == old(View()).AddSource()
    {
      sources := sources + 1;
      changed := true;
    }

    method AddObject()
      modifies this
      ensures View() == old(View()).AddObject()
    {
      objects := objects + 1;
      changed := true;
    }

    method RemoveStream(isGc: bool)
      requires streams > 0
      modifies this
      ensures View() == old(View()).RemoveStream(isGc)
    {
      streams := streams - 1;
      if !isGc {
        changed := true;
      }
    }

    method RemoveSource(isGc: bool)
      requires sources > 0
      modifies this
      ensures View() == old(View()).RemoveSource(isGc)
    {
      sources := sources - 1;
      if !isGc {
        changed := true;
      }
    }

    method RemoveObject(isGc: bool)
      requires objects > 0
      modifies this
      ensures View() == old(View()).RemoveObject(isGc)
    {
      objects := objects - 1;
      if !isGc {
        changed := true;
      }
    }
  }
}
