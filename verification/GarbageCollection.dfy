/**
 * The whole garbage collection: rounds of three passes until the counters are
 * within the lower limits, or until three rounds in a row removed nothing.
 */
module GarbageCollection {
  import opened CacheTypes
  import opened FileSystem
  import opened CacheInvariant
  import opened Statistics
  import opened Accounting
  import opened Threshold
  import opened Collection
  import opened Manager
  import opened Collector
  import FailRounds

  /** What the collector knows about the ages of the three categories. */
  datatype Ages = Ages(streams: MinMax, sources: MinMax, objects: MinMax)

  const UNKNOWN := Ages(MinMax(NEVER, EVER), MinMax(NEVER, EVER), MinMax(NEVER, EVER))

  datatype Thresholds = Thresholds(streams: Timespec, sources: Timespec, objects: Timespec)

  ghost predicate Collectable(d: Disk) {
    CacheInv(d) && FileTimes(d.keyDirs) && FileTimes(SourceTimes(d)) && FileTimes(ObjectTimes(d))
  }

  /** The minima and maxima are those that a recomputation would find. */
  ghost predicate Known(d: Disk, ages: Ages)
    requires InodesPresent(d)
  {
    && ages.streams.Accurate(d.keyDirs)
    && ages.sources.Accurate(SourceTimes(d))
    && ages.objects.Accurate(ObjectTimes(d))
  }

  /** The threshold of a category that is not empty; it lies between the oldest and the newest entry. */
  ghost predicate Estimated<K>(t: Timespec, mm: MinMax, removedBefore: bool, times: map<K, Timespec>) {
    times != map[] ==>
      && t.Normalised()
      && Ns(t) == Ns(mm.min) + 1000 * ((Ns(mm.max) - Ns(mm.min)) / 1000 * (if removedBefore then 20 else 70) / 100)
      && !t.Before(mm.min) && !mm.max.Before(t)
  }

  ghost predicate AllEstimated(d: Disk, ages: Ages, t: Thresholds, removedBefore: bool)
    requires InodesPresent(d)
  {
    && Estimated(t.streams, ages.streams, removedBefore, d.keyDirs)
    && Estimated(t.sources, ages.sources, removedBefore, SourceTimes(d))
    && Estimated(t.objects, ages.objects, removedBefore, ObjectTimes(d))
  }

  // ---------- runs of rounds ----------

  datatype GcRound = GcRound(before: Disk, ages: Ages, thresholds: Thresholds, after: Disk)

  function Removed(r: GcRound): int {
    Entries(r.before) - Entries(r.after)
  }

  /** A round of an undisturbed collection. */
  ghost predicate Legal(r: GcRound, removedBefore: bool) {
    && Collectable(r.before)
    && Known(r.before, r.ages)
    && AllEstimated(r.before, r.ages, r.thresholds, removedBefore)
    && r.after == Round(r.before, r.thresholds.streams, r.thresholds.sources, r.thresholds.objects)
  }

  predicate AnyRemoved(h: seq<GcRound>) {
    exists i :: 0 <= i < |h| && Removed(h[i]) > 0
  }

  function Init(h: seq<GcRound>): seq<GcRound>
    requires h != []
  {
    h[..|h| - 1]
  }

  function Last(h: seq<GcRound>): GcRound
    requires h != []
  {
    h[|h| - 1]
  }

  /** The rounds lead from one disk to another, each from where the one before it ended. */
  ghost predicate Chain(h: seq<GcRound>, d: Disk, e: Disk) {
    if h == [] then d == e
    else Chain(Init(h), d, Last(h).before) && Removed(Last(h)) >= 0 && Last(h).after == e
  }

  ghost predicate AllLegal(h: seq<GcRound>) {
    h == [] || (AllLegal(Init(h)) && Legal(Last(h), AnyRemoved(Init(h))))
  }

  /** A run of rounds of an undisturbed collection. */
  ghost predicate GcRun(h: seq<GcRound>, d: Disk, e: Disk) {
    Chain(h, d, e) && AllLegal(h)
  }

  /** What each round removed. */
  function Counts(h: seq<GcRound>): seq<int> {
    seq(|h|, i requires 0 <= i < |h| => Removed(h[i]))
  }

  /** Rounds that may still fail after these. */
  function FailRoundsLeft(h: seq<GcRound>): int {
    FailRounds.FailsLeft(Counts(h))
  }

  /** No round but the last one used up the last failure. */
  predicate GoesOn(h: seq<GcRound>) {
    FailRounds.Continues(Counts(h))
  }

  lemma {:induction false} ChainRemoves(h: seq<GcRound>, d: Disk, e: Disk)
    requires Chain(h, d, e)
    ensures FailRounds.NoneNegative(Counts(h)) && FailRounds.Sum(Counts(h)) == Entries(d) - Entries(e)
  {
    if h != [] {
      ChainRemoves(Init(h), d, Last(h).before);
      assert FailRounds.Init(Counts(h)) == Counts(Init(h));
    }
  }

  /** Each round removes something or uses up a failure. */
  lemma RoundsPaidFor(h: seq<GcRound>, d: Disk, e: Disk)
    requires Chain(h, d, e) && GoesOn(h)
    ensures -1 <= FailRoundsLeft(h) <= FailRounds.MAX_FAIL_ROUNDS
    ensures |h| <= 3 * (Entries(d) - Entries(e)) + FailRounds.MAX_FAIL_ROUNDS - FailRoundsLeft(h)
  {
    ChainRemoves(h, d, e);
    FailRounds.PaidFor(Counts(h));
  }

  /** A collection ends after at most three rounds per entry and three more. */
  lemma RoundsBounded(h: seq<GcRound>, d: Disk, e: Disk)
    requires Chain(h, d, e) && GoesOn(h)
    ensures |h| <= 3 * (Entries(d) + 1)
  {
    RoundsPaidFor(h, d, e);
  }

  /** Giving up means that the last three rounds removed nothing. */
  lemma GaveUp(h: seq<GcRound>, d: Disk, e: Disk)
    requires Chain(h, d, e) && GoesOn(h) && FailRoundsLeft(h) < 0
    ensures |h| >= 3 && forall i :: |h| - 3 <= i < |h| ==> Removed(h[i]) == 0
  {
    ChainRemoves(h, d, e);
    FailRounds.Idle(Counts(h));
    forall i | |h| - 3 <= i < |h|
      ensures Removed(h[i]) == 0
    {
      assert Counts(h)[i] == Removed(h[i]);
    }
  }

  /** A whole collection leaves what surviving keys lead to as it was. */
  lemma {:induction false} RunPreservesViews(h: seq<GcRound>, d: Disk, e: Disk, slot: Slot)
    requires CacheInv(d) && GcRun(h, d, e) && slot.key in e.keyDirs
    ensures CacheInv(e) && slot.key in d.keyDirs && View(e, slot) == View(d, slot)
  {
    if h != [] {
      var r := Last(h);
      RoundPreservesViews(r.before, r.thresholds.streams, r.thresholds.sources, r.thresholds.objects, slot);
      RunPreservesViews(Init(h), d, r.before, slot);
    }
  }

  /**
   * A round over a cache with keys removes the oldest ones unless all keys
   * are of nearly the same age: less than two microseconds apart in the
   * first rounds, less than five after something was removed.
   */
  lemma IdleRoundMeansSameAge(r: GcRound, removedBefore: bool)
    requires Legal(r, removedBefore) && r.before.keyDirs != map[]
    requires r.after.keyDirs == r.before.keyDirs
    ensures Ns(r.ages.streams.max) - Ns(r.ages.streams.min) < if removedBefore then 5000 else 2000
  {
  }

  /** In each category a round removes nothing that has reached the category's threshold. */
  lemma RoundDecimates(d: Disk, t: Thresholds)
    requires CacheInv(d)
    ensures var e := Round(d, t.streams, t.sources, t.objects);
      && CacheInv(e)
      && Decimated(d.keyDirs, e.keyDirs, t.streams)
      && Decimated(SourceTimes(d), SourceTimes(e), t.sources)
      && Decimated(ObjectTimes(d), ObjectTimes(e), t.objects)
  {
    GcStreamsTimes(d, t.streams);
    var d1 := GcStreams(d, t.streams);
    GcSourcesTimes(d1, t.sources);
    GcObjectsTimes(GcSources(d1, t.sources), t.objects);
  }

  /** No round removes the newest key, the newest source or the newest object. */
  lemma RoundKeepsNewest(r: GcRound, removedBefore: bool)
    requires Legal(r, removedBefore)
    ensures CacheInv(r.after)
    ensures r.before.keyDirs != map[] ==> exists k :: k in r.after.keyDirs && r.after.keyDirs[k] == r.ages.streams.max
    ensures SourceTimes(r.before) != map[] ==>
      exists s :: s in SourceTimes(r.after) && SourceTimes(r.after)[s] == r.ages.sources.max
    ensures ObjectTimes(r.before) != map[] ==>
      exists p :: p in ObjectTimes(r.after) && ObjectTimes(r.after)[p] == r.ages.objects.max
  {
    RoundDecimates(r.before, r.thresholds);
    if r.before.keyDirs != map[] {
      NewestSurvives(r.ages.streams, r.before.keyDirs, r.after.keyDirs, r.thresholds.streams);
    }
    if SourceTimes(r.before) != map[] {
      NewestSurvives(r.ages.sources, SourceTimes(r.before), SourceTimes(r.after), r.thresholds.sources);
    }
    if ObjectTimes(r.before) != map[] {
      NewestSurvives(r.ages.objects, ObjectTimes(r.before), ObjectTimes(r.after), r.thresholds.objects);
    }
  }

  /** The oldest key goes in every round whose threshold lies above the minimum, and only then. */
  lemma OldestKeyGoes(r: GcRound, removedBefore: bool, key: string)
    requires Legal(r, removedBefore) && key in r.before.keyDirs && r.before.keyDirs[key] == r.ages.streams.min
    ensures key !in r.after.keyDirs <==>
      Increment(r.ages.streams.min, r.ages.streams.max, if removedBefore then 20 else 70) > 0
  {
    var mm := r.ages.streams;
    var newest :| newest in r.before.keyDirs && r.before.keyDirs[newest] == mm.max;
    DeltaIsDifference(mm.min, mm.max);
    NsOrders(mm.min, r.thresholds.streams);
    NsOrders(mm.max, mm.min);
    RoundRemovesOldKeys(r.before, r.thresholds, key);
  }

  lemma RoundRemovesOldKeys(d: Disk, t: Thresholds, key: string)
    requires CacheInv(d) && key in d.keyDirs
    ensures key !in Round(d, t.streams, t.sources, t.objects).keyDirs <==> d.keyDirs[key].Before(t.streams)
  {
  }

  // ---------- sizes ----------

  lemma Shrunk<T>(all: set<T>, gone: set<T>, left: set<T>)
    requires gone <= all && left == all - gone
    ensures |left| + |gone| == |all|
  {
  }

  lemma GcStreamsSize(d: Disk, threshold: Timespec)
    requires CacheInv(d)
    ensures var e := GcStreams(d, threshold);
      && |e.keyDirs.Keys| + |OldKeys(d, threshold)| == |d.keyDirs.Keys|
      && e.srcDirs == d.srcDirs && PoolFiles(e) == PoolFiles(d)
  {
  }

  lemma GcSourcesSize(d: Disk, threshold: Timespec)
    requires CacheInv(d)
    ensures var e := GcSources(d, threshold);
      && |e.srcDirs| + |DeadSources(d, threshold)| == |d.srcDirs|
      && e.keyDirs == d.keyDirs && PoolFiles(e) == PoolFiles(d)
  {
  }

  lemma GcObjectsSize(d: Disk, threshold: Timespec)
    requires CacheInv(d)
    ensures var e := GcObjects(d, threshold);
      && |PoolFiles(e)| + |DeadObjects(d, threshold)| == |PoolFiles(d)|
      && e.keyDirs == d.keyDirs && e.srcDirs == d.srcDirs
  {
    Shrunk(PoolFiles(d), DeadObjects(d, threshold), PoolFiles(GcObjects(d, threshold)));
  }

  // ---------- the passes, with the carried-over ages ----------

  /** No counter is below the number of entries it counts. */
  ghost predicate Covered(d: Disk, c: Counters) {
    c.streams >= |d.keyDirs.Keys| && c.sources >= |d.srcDirs| && c.objects >= |PoolFiles(d)|
  }

  /** The counters move with the directories and objects. */
  ghost predicate InStep(d: Disk, c: Counters, e: Disk, f: Counters) {
    && f.streams - |e.keyDirs.Keys| == c.streams - |d.keyDirs.Keys|
    && f.sources - |e.srcDirs| == c.sources - |d.srcDirs|
    && f.objects - |PoolFiles(e)| == c.objects - |PoolFiles(d)|
  }

  method StreamsPass(m: Manager, threshold: Timespec, mm: MinMax) returns (after: MinMax, deleted: nat)
    requires Collectable(m.disk) && Covered(m.disk, m.stats.View())
    requires mm.Accurate(m.disk.keyDirs) && (m.disk.keyDirs != map[] ==> !mm.max.Before(threshold))
    modifies m`disk, m.stats
    ensures Collectable(m.disk) && m.disk == GcStreams(old(m.disk), threshold)
    ensures after.Accurate(m.disk.keyDirs)
    ensures SourceTimes(m.disk) == SourceTimes(old(m.disk)) && ObjectTimes(m.disk) == ObjectTimes(old(m.disk))
    ensures deleted == Entries(old(m.disk)) - Entries(m.disk)
    ensures deleted <= old(m.stats.streams)
    ensures m.stats.View() == old(m.stats.View()).(streams := old(m.stats.streams) - deleted)
    ensures Covered(m.disk, m.stats.View())
    ensures InStep(old(m.disk), old(m.stats.View()), m.disk, m.stats.View())
  {
    ghost var d := m.disk;
    GcStreamsTimes(d, threshold);
    GcStreamsSize(d, threshold);
    var oldest;
    deleted, oldest := DecimateStreams(m, threshold);
    after := CarryOver(mm, oldest);
    CarriedOverIsAccurate(mm, d.keyDirs, m.disk.keyDirs, threshold, oldest);
  }

  method SourcesPass(m: Manager, threshold: Timespec, mm: MinMax) returns (after: MinMax, deleted: nat)
    requires Collectable(m.disk) && Covered(m.disk, m.stats.View())
    requires mm.Accurate(SourceTimes(m.disk)) && (SourceTimes(m.disk) != map[] ==> !mm.max.Before(threshold))
    modifies m`disk, m.stats
    ensures Collectable(m.disk) && m.disk == GcSources(old(m.disk), threshold)
    ensures after.Accurate(SourceTimes(m.disk))
    ensures m.disk.keyDirs == old(m.disk.keyDirs) && ObjectTimes(m.disk) == ObjectTimes(old(m.disk))
    ensures deleted == Entries(old(m.disk)) - Entries(m.disk)
    ensures deleted <= old(m.stats.sources)
    ensures m.stats.View() == old(m.stats.View()).(sources := old(m.stats.sources) - deleted)
    ensures Covered(m.disk, m.stats.View())
    ensures InStep(old(m.disk), old(m.stats.View()), m.disk, m.stats.View())
  {
    ghost var d := m.disk;
    GcSourcesTimes(d, threshold);
    GcSourcesSize(d, threshold);
    var oldest;
    deleted, oldest := DecimateSources(m, threshold);
    after := CarryOver(mm, oldest);
    CarriedOverIsAccurate(mm, SourceTimes(d), SourceTimes(m.disk), threshold, oldest);
  }

  method ObjectsPass(m: Manager, threshold: Timespec, mm: MinMax) returns (after: MinMax, deleted: nat)
    requires Collectable(m.disk) && Covered(m.disk, m.stats.View())
    requires mm.Accurate(ObjectTimes(m.disk)) && (ObjectTimes(m.disk) != map[] ==> !mm.max.Before(threshold))
    modifies m`disk, m.stats
    ensures Collectable(m.disk) && m.disk == GcObjects(old(m.disk), threshold)
    ensures after.Accurate(ObjectTimes(m.disk))
    ensures m.disk.keyDirs == old(m.disk.keyDirs) && SourceTimes(m.disk) == SourceTimes(old(m.disk))
    ensures deleted == Entries(old(m.disk)) - Entries(m.disk)
    ensures deleted <= old(m.stats.objects)
    ensures m.stats.View() == old(m.stats.View()).(objects := old(m.stats.objects) - deleted)
    ensures Covered(m.disk, m.stats.View())
    ensures InStep(old(m.disk), old(m.stats.View()), m.disk, m.stats.View())
  {
    ghost var d := m.disk;
    GcObjectsTimes(d, threshold);
    GcObjectsSize(d, threshold);
    var oldest;
    deleted, oldest := DecimateObjects(m, threshold);
    after := CarryOver(mm, oldest);
    CarriedOverIsAccurate(mm, ObjectTimes(d), ObjectTimes(m.disk), threshold, oldest);
  }

  datatype Deleted = Deleted(streams: nat, sources: nat, objects: nat) {
    function Total(): nat { streams + sources + objects }
  }

  /** Keys first, then what they leave unreferenced. */
  method DecimateAll(m: Manager, ages: Ages, t: Thresholds, ghost removedBefore: bool)
    returns (after: Ages, deleted: Deleted)
    requires Collectable(m.disk) && Covered(m.disk, m.stats.View())
    requires Known(m.disk, ages) && AllEstimated(m.disk, ages, t, removedBefore)
    modifies m`disk, m.stats
    ensures Collectable(m.disk) && Known(m.disk, after)
    ensures Legal(GcRound(old(m.disk), ages, t, m.disk), removedBefore)
    ensures deleted.Total() == Entries(old(m.disk)) - Entries(m.disk)
    ensures m.stats.streams + deleted.streams == old(m.stats.streams)
    ensures m.stats.sources + deleted.sources == old(m.stats.sources)
    ensures m.stats.objects + deleted.objects == old(m.stats.objects)
    ensures m.stats.changed == old(m.stats.changed) && Covered(m.disk, m.stats.View())
    ensures InStep(old(m.disk), old(m.stats.View()), m.disk, m.stats.View())
  {
    var streams, streamsGone := StreamsPass(m, t.streams, ages.streams);
    var sources, sourcesGone := SourcesPass(m, t.sources, ages.sources);
    var objects, objectsGone := ObjectsPass(m, t.objects, ages.objects);
    after := Ages(streams, sources, objects);
    deleted := Deleted(streamsGone, sourcesGone, objectsGone);
  }

  // ---------- statistics and thresholds of a round ----------

  /**
   * Collects the ages of all entries if asked to, and tells whether anybody
   * else changed the cache since the last time.
   */
  method RefreshAges(m: Manager, needNew: bool, known: Ages) returns (ages: Ages, changed: bool)
    requires Collectable(m.disk)
    requires Known(m.disk, known) || (needNew && known == UNKNOWN)
    modifies m.stats
    ensures Known(m.disk, ages) && (!needNew ==> ages == known)
    ensures changed == old(m.stats.changed) && m.stats.View() == old(m.stats.View()).(changed := false)
  {
    ages := known;
    var streamsChanged := m.stats.MarkUnchanged();
    if needNew {
      var streams := CollectMinMax(m.disk.keyDirs, ages.streams);
      ages := ages.(streams := streams);
    }
    var sourcesChanged := m.stats.MarkUnchanged();
    if needNew {
      var sources := CollectMinMax(SourceTimes(m.disk), ages.sources);
      ages := ages.(sources := sources);
    }
    var objectsChanged := m.stats.MarkUnchanged();
    if needNew {
      var objects := CollectMinMax(ObjectTimes(m.disk), ages.objects);
      ages := ages.(objects := objects);
    }
    changed := streamsChanged || sourcesChanged || objectsChanged;
  }

  /** Nothing is known about the threshold of an empty category. */
  method Estimate<K>(mm: MinMax, removedBefore: bool, ghost times: map<K, Timespec>) returns (t: Timespec)
    requires FileTimes(times) && mm.Accurate(times)
    ensures Estimated(t, mm, removedBefore, times)
  {
    if mm.min.Normalised() && mm.max.Normalised() && !mm.max.Before(mm.min) {
      t := ComputeThreshold(mm.min, mm.max, removedBefore);
    } else {
      t := *;
    }
  }

  method EstimateAll(d: Disk, ages: Ages, removedBefore: bool) returns (t: Thresholds)
    requires Collectable(d) && Known(d, ages)
    ensures AllEstimated(d, ages, t, removedBefore)
  {
    var streams := Estimate(ages.streams, removedBefore, d.keyDirs);
    var sources := Estimate(ages.sources, removedBefore, SourceTimes(d));
    var objects := Estimate(ages.objects, removedBefore, ObjectTimes(d));
    t := Thresholds(streams, sources, objects);
  }

  // ---------- the collection ----------

  datatype GcResult = Deflated | NotPossible

  /**
   * When the disk was `d`, some counter was above its limit, if the counters
   * are `c` now that the disk is `e`.
   */
  ghost predicate WasOver(d: Disk, e: Disk, c: Counters, limits: Counters) {
    || c.streams + |d.keyDirs.Keys| - |e.keyDirs.Keys| > limits.streams
    || c.sources + |d.srcDirs| - |e.srcDirs| > limits.sources
    || c.objects + |PoolFiles(d)| - |PoolFiles(e)| > limits.objects
  }

  /** Every round but the first was started because some counter was above its lower limit. */
  ghost predicate OnlyAsNeeded(h: seq<GcRound>, e: Disk, c: Counters, limits: Counters) {
    forall i :: 0 < i < |h| ==> WasOver(h[i].before, e, c, limits)
  }

  lemma NeededGrows(h: seq<GcRound>, r: GcRound, c: Counters, f: Counters, limits: Counters)
    requires OnlyAsNeeded(h, r.before, c, limits) && InStep(r.before, c, r.after, f)
    requires h != [] ==> c.Exceeds(limits)
    ensures OnlyAsNeeded(h + [r], r.after, f, limits)
  {
    forall i | 0 < i < |h + [r]|
      ensures WasOver((h + [r])[i].before, r.after, f, limits)
    {
      if i < |h| {
        assert (h + [r])[i] == h[i];
        assert WasOver(h[i].before, r.before, c, limits);
      } else {
        assert (h + [r])[i] == r;
      }
    }
  }

  method DoGc(m: Manager) returns (result: GcResult, ghost h: seq<GcRound>)
    requires Collectable(m.disk) && Covered(m.disk, m.stats.View())
    modifies m`disk, m.stats
    ensures Collectable(m.disk) && GcRun(h, old(m.disk), m.disk) && GoesOn(h)
    ensures 1 <= |h| <= 3 * (Entries(old(m.disk)) + 1)
    ensures (m.stats.streams <= m.upperLimits.streams * 60 / 100 &&
             m.stats.sources <= m.upperLimits.sources * 60 / 100 &&
             m.stats.objects <= m.upperLimits.objects * 60 / 100) ||
            (|h| >= 3 && forall i :: |h| - 3 <= i < |h| ==> Removed(h[i]) == 0)
    ensures OnlyAsNeeded(h, m.disk, m.stats.View(), m.upperLimits.Scaled(60))
    ensures InStep(old(m.disk), old(m.stats.View()), m.disk, m.stats.View())
    ensures result.Deflated? <==> Entries(m.disk) < Entries(old(m.disk))
    ensures Covered(m.disk, m.stats.View())
    ensures forall slot: Slot :: slot.key in m.disk.keyDirs ==>
      slot.key in old(m.disk.keyDirs) && CacheInv(old(m.disk)) && View(m.disk, slot) == View(old(m.disk), slot)
  {
    ghost var d := m.disk;
    var needNew, ages := true, UNKNOWN;
    var failRoundsLeft, removedAnything := FailRounds.MAX_FAIL_ROUNDS as int, false;
    h := [];
    var go := true;
    while go
      invariant Collectable(m.disk) && Covered(m.disk, m.stats.View())
      invariant Known(m.disk, ages) || (needNew && ages == UNKNOWN)
      invariant GcRun(h, d, m.disk) && GoesOn(h)
      invariant InStep(d, old(m.stats.View()), m.disk, m.stats.View())
      invariant OnlyAsNeeded(h, m.disk, m.stats.View(), m.lowerLimits)
      invariant failRoundsLeft == FailRoundsLeft(h) && removedAnything == AnyRemoved(h)
      invariant Entries(m.disk) <= Entries(d) && (AnyRemoved(h) <==> Entries(m.disk) < Entries(d))
      invariant go == (h == [] || (failRoundsLeft >= 0 && m.stats.View().Exceeds(m.lowerLimits)))
      decreases Entries(m.disk), failRoundsLeft + 1, go
    {
      ghost var c := m.stats.View();
      ghost var r;
      ages, needNew, failRoundsLeft, removedAnything, r := OneRound(m, needNew, ages, failRoundsLeft, removedAnything);
      RunGrows(h, d, r);
      NeededGrows(h, r, c, m.stats.View(), m.lowerLimits);
      h := h + [r];
      var exceeds := m.stats.ExceedsLimits(m.lowerLimits);
      go := failRoundsLeft >= 0 && exceeds;
    }
    RoundsBounded(h, d, m.disk);
    if m.stats.View().Exceeds(m.lowerLimits) {
      GaveUp(h, d, m.disk);
    }
    RunPreservesAll(h, d, m.disk);
    result := if removedAnything then Deflated else NotPossible;
  }

  lemma RunPreservesAll(h: seq<GcRound>, d: Disk, e: Disk)
    requires CacheInv(d) && CacheInv(e) && GcRun(h, d, e)
    ensures forall slot: Slot :: slot.key in e.keyDirs ==> slot.key in d.keyDirs && View(e, slot) == View(d, slot)
  {
    forall slot: Slot | slot.key in e.keyDirs
      ensures slot.key in d.keyDirs && View(e, slot) == View(d, slot)
    {
      RunPreservesViews(h, d, e, slot);
    }
  }

  lemma RunGrows(h: seq<GcRound>, d: Disk, r: GcRound)
    requires GcRun(h, d, r.before) && GoesOn(h) && FailRoundsLeft(h) >= 0
    requires Legal(r, AnyRemoved(h)) && Removed(r) >= 0
    ensures GcRun(h + [r], d, r.after) && GoesOn(h + [r])
    ensures FailRoundsLeft(h + [r]) == if Removed(r) > 0 then FailRounds.MAX_FAIL_ROUNDS else FailRoundsLeft(h) - 1
    ensures AnyRemoved(h + [r]) <==> AnyRemoved(h) || Removed(r) > 0
  {
    ChainGrows(h, d, r);
    LegalGrows(h, r);
    CountsGrow(h, r);
    AnyGrows(h, r);
  }

  lemma ChainGrows(h: seq<GcRound>, d: Disk, r: GcRound)
    requires Chain(h, d, r.before) && Removed(r) >= 0
    ensures Chain(h + [r], d, r.after)
  {
    Appended(h, r);
  }

  lemma LegalGrows(h: seq<GcRound>, r: GcRound)
    requires AllLegal(h) && Legal(r, AnyRemoved(h))
    ensures AllLegal(h + [r])
  {
    Appended(h, r);
  }

  lemma CountsGrow(h: seq<GcRound>, r: GcRound)
    requires GoesOn(h) && FailRoundsLeft(h) >= 0
    ensures GoesOn(h + [r])
    ensures FailRoundsLeft(h + [r]) ==
      if Removed(r) > 0 then FailRounds.MAX_FAIL_ROUNDS else FailRoundsLeft(h) - 1
  {
    assert Counts(h + [r]) == Counts(h) + [Removed(r)];
    FailRounds.OneMoreRound(Counts(h), Removed(r));
  }

  lemma Appended(h: seq<GcRound>, r: GcRound)
    ensures Init(h + [r]) == h && Last(h + [r]) == r
  {
  }

  lemma AnyGrows(h: seq<GcRound>, r: GcRound)
    ensures AnyRemoved(h + [r]) <==> AnyRemoved(h) || Removed(r) > 0
  {
    assert (h + [r])[|h|] == r;
    if AnyRemoved(h) {
      var i :| 0 <= i < |h| && Removed(h[i]) > 0;
      assert (h + [r])[i] == h[i];
    }
  }

  method OneRound(m: Manager, needNew: bool, known: Ages, failsLeft: int, removedBefore: bool)
    returns (ages: Ages, needNext: bool, failRoundsLeft: int, removedAnything: bool, ghost r: GcRound)
    requires Collectable(m.disk) && Covered(m.disk, m.stats.View())
    requires Known(m.disk, known) || (needNew && known == UNKNOWN)
    modifies m`disk, m.stats
    ensures Collectable(m.disk) && Covered(m.disk, m.stats.View()) && Known(m.disk, ages)
    ensures r.before == old(m.disk) && r.after == m.disk && Legal(r, removedBefore) && Removed(r) >= 0
    ensures InStep(old(m.disk), old(m.stats.View()), m.disk, m.stats.View())
    ensures failRoundsLeft == if Removed(r) > 0 then FailRounds.MAX_FAIL_ROUNDS else failsLeft - 1
    ensures removedAnything == (removedBefore || Removed(r) > 0)
  {
    ghost var before := m.disk;
    var round;
    round, needNext := RefreshAges(m, needNew, known);
    var t := EstimateAll(m.disk, round, removedBefore);
    var deleted;
    ages, deleted := DecimateAll(m, round, t, removedBefore);
    r := GcRound(before, round, t, m.disk);
    failRoundsLeft, removedAnything := failsLeft - 1, removedBefore;
    if deleted.streams > 0 || deleted.sources > 0 || deleted.objects > 0 {
      failRoundsLeft, removedAnything := FailRounds.MAX_FAIL_ROUNDS, true;
    }
  }
}
