/**
 * Garbage collection while other threads look up, delete, refill and reset:
 * the lock is given up between any two visits.  As long as nobody adds
 * entries, the bound on the number of rounds holds.
 */
module Interference {
  import opened CacheTypes
  import opened FileSystem
  import opened CacheInvariant
  import opened Operations
  import opened Accounting
  import opened Collection
  import opened Runs
  import FailRounds

  // ---------- what the steps of a round do ----------

  predicate IsVisit(step: Step) {
    step.CollectKey? || step.CollectSource? || step.CollectObject?
  }

  /** The visit is counted as a removal. */
  predicate Removes(c: Cache, step: Step)
    requires InodesPresent(c.disk)
  {
    match step
    case CollectKey(key, threshold) => OldKey(c.disk, key, threshold)
    case CollectSource(source, threshold) => DeadSource(c.disk, source, threshold)
    case CollectObject(hash, threshold) =>
      ObjFile(hash) !in c.disk.files || DeadObject(c.disk, hash, threshold)
    case _ => false
  }

  ghost predicate AddsNothing(d: Disk, e: Disk) {
    e.keyDirs.Keys <= d.keyDirs.Keys && e.srcDirs <= d.srcDirs && PoolFiles(e) <= PoolFiles(d)
  }

  /** Steps of other threads add no entries. */
  ghost predicate WithoutAdditions(md5: Bytes -> Hash, c: Cache, steps: seq<Step>)
    requires CacheInv(c.disk)
    decreases |steps|
  {
    steps == [] ||
    (ApplyInv(md5, c, steps[0]);
     (IsVisit(steps[0]) || AddsNothing(c.disk, Apply(md5, c, steps[0]).disk)) &&
     WithoutAdditions(md5, Apply(md5, c, steps[0]), steps[1..]))
  }

  /** Deletions, stamps of lookups, recounting and resets are steps of this kind, whenever they come. */
  lemma NeverAdds(md5: Bytes -> Hash, c: Cache, step: Step)
    requires CacheInv(c.disk) && (step.Delete? || step.Stamp? || step.Recount? || step.Wipe?)
    ensures AddsNothing(c.disk, Apply(md5, c, step).disk)
  {
    if step.Delete? {
      DeleteAddsNothing(c, step.slot);
    }
  }

  lemma DeleteAddsNothing(c: Cache, slot: Slot)
    requires CacheInv(c.disk)
    ensures AddsNothing(c.disk, DeleteKey(c, slot).disk)
  {
  }

  function VisitedSources(steps: seq<Step>): set<Hash> {
    if steps == [] then {}
    else (if steps[0].CollectSource? then {steps[0].source} else {}) + VisitedSources(steps[1..])
  }

  function VisitedObjects(steps: seq<Step>): set<FilePath> {
    if steps == [] then {}
    else (if steps[0].CollectObject? then {ObjFile(steps[0].hash)} else {}) + VisitedObjects(steps[1..])
  }

  /** A directory listing names every entry once, so each is visited at most once in a round. */
  predicate DistinctVisits(steps: seq<Step>) {
    steps == [] ||
    (&& (steps[0].CollectSource? ==> steps[0].source !in VisitedSources(steps[1..]))
     && (steps[0].CollectObject? ==> ObjFile(steps[0].hash) !in VisitedObjects(steps[1..]))
     && DistinctVisits(steps[1..]))
  }

  ghost function Removals(md5: Bytes -> Hash, c: Cache, steps: seq<Step>): nat
    requires CacheInv(c.disk)
    decreases |steps|
  {
    if steps == [] then
      0
    else
      ApplyInv(md5, c, steps[0]);
      (if Removes(c, steps[0]) then 1 else 0) + Removals(md5, Apply(md5, c, steps[0]), steps[1..])
  }

  // ---------- a round removes no more than it counts ----------

  /** The entries there are, and those that were listed, are gone, and are still to be visited. */
  function Ahead(d: Disk, steps: seq<Step>): nat {
    |d.keyDirs.Keys| + |d.srcDirs + VisitedSources(steps)| + |PoolFiles(d) + VisitedObjects(steps)|
  }

  lemma Smaller<T>(a: set<T>, b: set<T>, visited: set<T>)
    requires a <= b
    ensures |a + visited| <= |b + visited|
  {
    SubsetSize(a + visited, b + visited);
  }

  /** Removing what is visited now, and was there or was listed. */
  lemma OneLess<T>(a: set<T>, x: T, later: set<T>)
    requires x !in later
    ensures |(a - {x}) + later| + 1 <= |a + ({x} + later)|
  {
    assert (a + ({x} + later)) - {x} == (a - {x}) + later;
  }

  lemma OneMoreVisited<T>(a: set<T>, x: T, later: set<T>)
    ensures |a + later| <= |a + ({x} + later)|
  {
    SubsetSize(a + later, a + ({x} + later));
  }

  lemma KeyGone(d: Disk, key: string)
    requires key in d.keyDirs
    ensures |RmKeys(d, {key}).keyDirs.Keys| + 1 == |d.keyDirs.Keys|
    ensures RmKeys(d, {key}).srcDirs == d.srcDirs && PoolFiles(RmKeys(d, {key})) == PoolFiles(d)
  {
    assert RmKeys(d, {key}).keyDirs.Keys == d.keyDirs.Keys - {key};
  }

  lemma KeyVisitPaid(c: Cache, key: string, threshold: Timespec, rest: seq<Step>)
    requires InodesPresent(c.disk)
    ensures var e := GcKey(c, key, threshold).disk;
      Ahead(e, rest) + (if OldKey(c.disk, key, threshold) then 1 else 0) <= Ahead(c.disk, rest)
  {
    if OldKey(c.disk, key, threshold) {
      KeyGone(c.disk, key);
    }
  }

  lemma VisitedNext(step: Step, rest: seq<Step>)
    ensures VisitedSources([step] + rest) ==
      (if step.CollectSource? then {step.source} else {}) + VisitedSources(rest)
    ensures VisitedObjects([step] + rest) ==
      (if step.CollectObject? then {ObjFile(step.hash)} else {}) + VisitedObjects(rest)
  {
    assert ([step] + rest)[1..] == rest;
  }

  lemma SourceGone(d: Disk, source: Hash)
    ensures RmSources(d, {source}).srcDirs == d.srcDirs - {source}
    ensures RmSources(d, {source}).keyDirs == d.keyDirs && PoolFiles(RmSources(d, {source})) == PoolFiles(d)
  {
  }

  lemma SourceVisitPaid(c: Cache, source: Hash, threshold: Timespec, rest: seq<Step>)
    requires InodesPresent(c.disk) && source !in VisitedSources(rest)
    ensures var e := GcSource(c, source, threshold).disk;
      Ahead(e, rest) + (if DeadSource(c.disk, source, threshold) then 1 else 0) <=
      Ahead(c.disk, [CollectSource(source, threshold)] + rest)
  {
    VisitedNext(CollectSource(source, threshold), rest);
    if DeadSource(c.disk, source, threshold) {
      SourceGone(c.disk, source);
      OneLess(c.disk.srcDirs, source, VisitedSources(rest));
    } else {
      OneMoreVisited(c.disk.srcDirs, source, VisitedSources(rest));
    }
  }

  lemma ObjectGone(d: Disk, obj: FilePath)
    requires obj.ObjFile?
    ensures PoolFiles(Remove(d, {obj})) == PoolFiles(d) - {obj}
    ensures Remove(d, {obj}).keyDirs == d.keyDirs && Remove(d, {obj}).srcDirs == d.srcDirs
  {
  }

  /** The pool after a visit, which takes the object off it unless it is kept. */
  lemma ObjectVisited(c: Cache, hash: Hash, threshold: Timespec)
    requires InodesPresent(c.disk)
    ensures var e := GcObject(c, hash, threshold).disk;
      && e.keyDirs == c.disk.keyDirs && e.srcDirs == c.disk.srcDirs
      && PoolFiles(e) ==
           if Removes(c, CollectObject(hash, threshold)) then PoolFiles(c.disk) - {ObjFile(hash)} else PoolFiles(c.disk)
  {
    if DeadObject(c.disk, hash, threshold) {
      ObjectGone(c.disk, ObjFile(hash));
    }
  }

  lemma ObjectVisitPaid(c: Cache, hash: Hash, threshold: Timespec, rest: seq<Step>)
    requires InodesPresent(c.disk) && ObjFile(hash) !in VisitedObjects(rest)
    ensures var step := CollectObject(hash, threshold);
      Ahead(GcObject(c, hash, threshold).disk, rest) + (if Removes(c, step) then 1 else 0) <=
      Ahead(c.disk, [step] + rest)
  {
    VisitedNext(CollectObject(hash, threshold), rest);
    ObjectVisited(c, hash, threshold);
    OneLess(PoolFiles(c.disk), ObjFile(hash), VisitedObjects(rest));
    OneMoreVisited(PoolFiles(c.disk), ObjFile(hash), VisitedObjects(rest));
  }

  lemma ForeignPaid(d: Disk, e: Disk, step: Step, rest: seq<Step>)
    requires AddsNothing(d, e) && !IsVisit(step)
    ensures Ahead(e, rest) <= Ahead(d, [step] + rest)
  {
    VisitedNext(step, rest);
    SubsetSize(e.keyDirs.Keys, d.keyDirs.Keys);
    Smaller(e.srcDirs, d.srcDirs, VisitedSources(rest));
    Smaller(PoolFiles(e), PoolFiles(d), VisitedObjects(rest));
  }

  /** Every step pays for what it counts. */
  lemma StepPaid(md5: Bytes -> Hash, c: Cache, step: Step, rest: seq<Step>)
    requires CacheInv(c.disk) && DistinctVisits([step] + rest)
    requires IsVisit(step) || AddsNothing(c.disk, Apply(md5, c, step).disk)
    ensures Ahead(Apply(md5, c, step).disk, rest) + (if Removes(c, step) then 1 else 0) <=
            Ahead(c.disk, [step] + rest)
  {
    if IsVisit(step) {
      VisitPaid(md5, c, step, rest);
    } else {
      ForeignPaid(c.disk, Apply(md5, c, step).disk, step, rest);
    }
  }

  lemma VisitPaid(md5: Bytes -> Hash, c: Cache, step: Step, rest: seq<Step>)
    requires CacheInv(c.disk) && DistinctVisits([step] + rest) && IsVisit(step)
    ensures Ahead(Apply(md5, c, step).disk, rest) + (if Removes(c, step) then 1 else 0) <=
            Ahead(c.disk, [step] + rest)
  {
    assert ([step] + rest)[1..] == rest;
    VisitedNext(step, rest);
    match step
    case CollectKey(key, threshold) => KeyVisitPaid(c, key, threshold, rest);
    case CollectSource(source, threshold) => SourceVisitPaid(c, source, threshold, rest);
    case CollectObject(hash, threshold) => ObjectVisitPaid(c, hash, threshold, rest);
  }

  lemma {:induction false} StepsPaid(md5: Bytes -> Hash, c: Cache, steps: seq<Step>)
    requires CacheInv(c.disk) && WithoutAdditions(md5, c, steps) && DistinctVisits(steps)
    ensures Removals(md5, c, steps) + Entries(Run(md5, c, steps).disk) <= Ahead(c.disk, steps)
    decreases |steps|
  {
    if steps == [] {
      assert c.disk.srcDirs + {} == c.disk.srcDirs && PoolFiles(c.disk) + {} == PoolFiles(c.disk);
    } else {
      var step, rest := steps[0], steps[1..];
      assert steps == [step] + rest;
      ApplyInv(md5, c, step);
      StepsPaid(md5, Apply(md5, c, step), rest);
      StepPaid(md5, c, step, rest);
    }
  }

  /**
   * A round: visits of entries that were there when it started, in any order
   * and at any thresholds, with any steps of others in between that add nothing.
   */
  ghost predicate DisturbedRound(md5: Bytes -> Hash, c: Cache, steps: seq<Step>)
    requires CacheInv(c.disk)
  {
    && WithoutAdditions(md5, c, steps) && DistinctVisits(steps)
    && VisitedSources(steps) <= c.disk.srcDirs && VisitedObjects(steps) <= PoolFiles(c.disk)
  }

  /** What a round counts as removed is gone. */
  lemma RoundPaid(md5: Bytes -> Hash, c: Cache, steps: seq<Step>)
    requires CacheInv(c.disk) && DisturbedRound(md5, c, steps)
    ensures Removals(md5, c, steps) + Entries(Run(md5, c, steps).disk) <= Entries(c.disk)
  {
    StepsPaid(md5, c, steps);
    assert c.disk.srcDirs + VisitedSources(steps) == c.disk.srcDirs;
    assert PoolFiles(c.disk) + VisitedObjects(steps) == PoolFiles(c.disk);
  }

  // ---------- a whole collection ----------

  ghost predicate DisturbedRounds(md5: Bytes -> Hash, c: Cache, rounds: seq<seq<Step>>)
    requires CacheInv(c.disk)
    decreases |rounds|
  {
    rounds == [] ||
    (DisturbedRound(md5, c, rounds[0]) && DisturbedRounds(md5, Run(md5, c, rounds[0]), rounds[1..]))
  }

  /** What each round counts as removed. */
  ghost function Counts(md5: Bytes -> Hash, c: Cache, rounds: seq<seq<Step>>): seq<int>
    requires CacheInv(c.disk)
    decreases |rounds|
  {
    if rounds == [] then []
    else [Removals(md5, c, rounds[0])] + Counts(md5, Run(md5, c, rounds[0]), rounds[1..])
  }

  lemma {:induction false} SumFromFront(n: int, counts: seq<int>)
    ensures FailRounds.Sum([n] + counts) == n + FailRounds.Sum(counts)
    decreases |counts|
  {
    if counts == [] {
      assert [n] + counts == [n] && FailRounds.Init([n]) == [];
    } else {
      SumFromFront(n, FailRounds.Init(counts));
      assert FailRounds.Init([n] + counts) == [n] + FailRounds.Init(counts);
    }
  }

  lemma {:induction false} RoundsPaid(md5: Bytes -> Hash, c: Cache, rounds: seq<seq<Step>>)
    requires CacheInv(c.disk) && DisturbedRounds(md5, c, rounds)
    ensures var counts := Counts(md5, c, rounds);
      && |counts| == |rounds| && FailRounds.NoneNegative(counts) && FailRounds.Sum(counts) <= Entries(c.disk)
    decreases |rounds|
  {
    if rounds != [] {
      RoundPaid(md5, c, rounds[0]);
      RoundsPaid(md5, Run(md5, c, rounds[0]), rounds[1..]);
      SumFromFront(Removals(md5, c, rounds[0]), Counts(md5, Run(md5, c, rounds[0]), rounds[1..]));
    }
  }

  /**
   * However others interfere, as long as they add no entries a collection
   * ends after at most three rounds per entry and three more, and if it gave
   * up, the last three rounds counted no removal.
   */
  lemma DisturbedRoundsBounded(md5: Bytes -> Hash, c: Cache, rounds: seq<seq<Step>>)
    requires CacheInv(c.disk) && DisturbedRounds(md5, c, rounds)
    requires FailRounds.Continues(Counts(md5, c, rounds))
    ensures |rounds| <= 3 * (Entries(c.disk) + 1)
    ensures var counts := Counts(md5, c, rounds);
      FailRounds.FailsLeft(counts) < 0 ==>
        |counts| >= 3 && forall i :: |counts| - 3 <= i < |counts| ==> counts[i] == 0
  {
    RoundsPaid(md5, c, rounds);
    var counts := Counts(md5, c, rounds);
    FailRounds.PaidFor(counts);
    if FailRounds.FailsLeft(counts) < 0 {
      FailRounds.Idle(counts);
    }
  }
}
