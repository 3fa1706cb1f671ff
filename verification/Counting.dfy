/**
 * The counters over whole runs: which steps keep them large enough for the
 * directories that they count.
 */
module Counting {
  import opened CacheTypes
  import opened FileSystem
  import opened CacheInvariant
  import opened Operations
  import opened Accounting
  import opened Runs

  // ---------- sources and objects in every run ----------

  /**
   * What a step must meet for the counters to stay right: no failure between
   * making a source directory and its `.ref`, and the collector only visits
   * entries that are still there when it gets the lock.
   */
  predicate Orderly(c: Cache, step: Step) {
    match step
    case AddKey(_, _, _, env) => env.touch == Fine
    case CollectSource(source, _) => source in c.disk.srcDirs
    case CollectObject(hash, _) => ObjFile(hash) in c.disk.files
    case _ => true
  }

  ghost predicate OrderlyRun(md5: Bytes -> Hash, c: Cache, steps: seq<Step>)
    requires CacheInv(c.disk)
    decreases |steps|
  {
    steps == [] ||
    (Orderly(c, steps[0]) &&
     (ApplyInv(md5, c, steps[0]); OrderlyRun(md5, Apply(md5, c, steps[0]), steps[1..])))
  }

  ghost predicate SourcesCovered(c: Cache) {
    c.counts.sources >= |c.disk.srcDirs|
  }

  ghost predicate Counted(md5: Bytes -> Hash, c: Cache) {
    Accounted(md5, c) && SourcesCovered(c)
  }

  lemma ApplyCounted(md5: Bytes -> Hash, c: Cache, step: Step)
    requires Counted(md5, c) && Orderly(c, step)
    ensures Counted(md5, Apply(md5, c, step))
  {
    ApplyAddressed(md5, c, step);
    var e := Apply(md5, c, step).disk;
    match step
    case AddKey(slot, source, pending, env) =>
      AddStreamKeyPool(c, slot, source, pending, env);
      SamePoolAddressed(md5, c.disk, e);
    case Update(source, keys, fill) => UpdateSourceAccounted(md5, c, source, keys, fill);
    case Delete(slot) =>
      DeleteKeyPool(c, slot);
      SamePoolAddressed(md5, c.disk, e);
    case CollectKey(key, threshold) =>
      RmKeysPool(c.disk, {key});
      SamePoolAddressed(md5, c.disk, e);
    case CollectSource(source, threshold) =>
      GcSourceInv(c, source, threshold);
      SamePoolAddressed(md5, c.disk, e);
    case CollectObject(hash, threshold) =>
      if DeadObject(c.disk, hash, threshold) {
        RmObjectsAccounted(md5, c.disk, {ObjFile(hash)});
      }
    case Stamp(keyTimes, inodeTimes, changed) => SamePoolAddressed(md5, c.disk, e);
    case Recount =>
    case Wipe =>
      assert PoolFiles(EMPTY_DISK) == {};
  }

  /** The object counter is exact and the source counter never too small, in every orderly run. */
  lemma {:induction false} RunCounted(md5: Bytes -> Hash, c: Cache, steps: seq<Step>)
    requires Counted(md5, c) && OrderlyRun(md5, c, steps)
    ensures Counted(md5, Run(md5, c, steps))
    decreases |steps|
  {
    if steps != [] {
      ApplyCounted(md5, c, steps[0]);
      RunCounted(md5, Apply(md5, c, steps[0]), steps[1..]);
    }
  }

  // ---------- stream keys in every run ----------

  /** The stream counter covers the key directories, which is all that the collector takes off it. */
  ghost predicate StreamsCovered(c: Cache) {
    c.counts.streams >= |c.disk.keyDirs.Keys|
  }

  /** Making the priority directory fails after its key directory has been made. */
  predicate LeavesKeyDir(c: Cache, slot: Slot, source: Hash, env: AddEnv) {
    && env.mkdirSource == Fine && (env.touch == Fine || SrcFile(source, Ref) in c.disk.files)
    && env.mkdirSlot != Fine && env.keyDirMade && slot.key !in c.disk.keyDirs
  }

  /**
   * Two steps may uncover them: deleting a key, since its key directory stays,
   * and failing to add one, since its key directory is not counted.
   */
  predicate KeepsStreams(c: Cache, step: Step) {
    match step
    case Delete(slot) => slot !in c.disk.slots || c.counts.streams > |c.disk.keyDirs.Keys|
    case AddKey(slot, source, _, env) =>
      !LeavesKeyDir(c, slot, source, env) || c.counts.streams > |c.disk.keyDirs.Keys|
    case _ => true
  }

  /** Deleting a key keeps the key directories covered if and only if there is none to delete, or a surplus. */
  lemma DeleteNeedsSurplus(c: Cache, slot: Slot)
    requires CacheInv(c.disk) && StreamsCovered(c)
    ensures StreamsCovered(DeleteKey(c, slot)) <==>
      slot !in c.disk.slots || c.counts.streams > |c.disk.keyDirs.Keys|
  {
  }

  /** Adding a key keeps them covered if and only if it leaves no key directory behind, or there is a surplus. */
  lemma AddKeepsStreams(c: Cache, slot: Slot, source: Hash, pending: Pending, env: AddEnv)
    requires CacheInv(c.disk) && StreamsCovered(c)
    ensures StreamsCovered(AddStreamKey(c, slot, source, pending, env).cache) <==>
      !LeavesKeyDir(c, slot, source, env) || c.counts.streams > |c.disk.keyDirs.Keys|
  {
    AddedDirs(c, slot, source, pending, env);
    var keys := c.disk.keyDirs.Keys;
    assert slot.key in keys ==> keys + {slot.key} == keys;
    assert slot.key !in keys ==> |keys + {slot.key}| == |keys| + 1;
  }

  /** At most the one key directory is new, and then it is counted. */
  ghost predicate CountedDir(c: Cache, e: Cache, key: string) {
    || (e.disk.keyDirs == c.disk.keyDirs && e.counts.streams >= c.counts.streams)
    || (e.disk.keyDirs.Keys == c.disk.keyDirs.Keys + {key} && e.counts.streams == c.counts.streams + 1)
  }

  /** The key directory is new and not counted. */
  ghost predicate UncountedDir(c: Cache, e: Cache, key: string) {
    e.disk.keyDirs.Keys == c.disk.keyDirs.Keys + {key} && e.counts.streams == c.counts.streams
  }

  lemma LinkedDirs(d: Disk, slot: Slot, source: Hash, ifAdded: AddKeyResult, link: Fault)
    requires CacheInv(d)
    ensures LinkToSource(d, slot, source, ifAdded, link).0.keyDirs == d.keyDirs
    ensures LinkToSource(d, slot, source, ifAdded, link).0.slots == d.slots
  {
  }

  lemma AddedSlotDirs(c: Cache, slot: Slot, source: Hash, isNew: bool, pending: Pending, env: AddEnv)
    requires CacheInv(c.disk)
    ensures var e := AddSlot(c, slot, source, isNew, pending, env).cache;
      if env.mkdirSlot != Fine && env.keyDirMade && slot.key !in c.disk.keyDirs then UncountedDir(c, e, slot.key)
      else CountedDir(c, e, slot.key)
  {
    MakeSlotInv(c.disk, slot, env.now);
    LinkedDirs(MakeSlot(c.disk, slot, env.now), slot, source, if isNew then SourceUnknown else Inserted, env.link);
    LinkedDirs(c.disk, slot, source, Inserted, env.link);
  }

  lemma EnteredDirs(d: Disk, source: Hash, now: Timespec, mkdir: Fault, touch: Fault)
    requires CacheInv(d)
    ensures var (e, r) := MkSourceEntry(d, source, now, mkdir, touch);
      && e.keyDirs == d.keyDirs && e.slots == d.slots
      && (r.SourceIoError? || r.SourceDiskFull? <==>
            mkdir != Fine || (touch != Fine && SrcFile(source, Ref) !in d.files))
  {
    assert ParentExists(d, SrcFile(source, Ref)) <==> source in d.srcDirs;
  }

  lemma AddedDirs(c: Cache, slot: Slot, source: Hash, pending: Pending, env: AddEnv)
    requires CacheInv(c.disk)
    ensures var e := AddStreamKey(c, slot, source, pending, env).cache;
      if LeavesKeyDir(c, slot, source, env) then UncountedDir(c, e, slot.key) else CountedDir(c, e, slot.key)
  {
    MkSourceEntryInv(c.disk, source, env.now, env.mkdirSource, env.touch);
    EnteredDirs(c.disk, source, env.now, env.mkdirSource, env.touch);
    var (d, r) := MkSourceEntry(c.disk, source, env.now, env.mkdirSource, env.touch);
    var counts := if r.SourceInserted? then c.counts.AddSource() else c.counts;
    if !r.SourceIoError? && !r.SourceDiskFull? {
      AddedSlotDirs(Cache(d, counts), slot, source, IsNewSource(r, source, pending), pending, env);
    }
  }

  /** Collecting a key takes one off both, and finds the counter positive. */
  lemma CollectKeepsStreams(c: Cache, key: string, threshold: Timespec)
    requires CacheInv(c.disk) && StreamsCovered(c)
    ensures StreamsCovered(GcKey(c, key, threshold))
    ensures OldKey(c.disk, key, threshold) ==> c.counts.streams > 0
  {
  }

  lemma {:induction false} MovedDirs(md5: Bytes -> Hash, c: Cache, source: Hash, imports: seq<Import>, added: bool)
    requires CacheInv(c.disk)
    ensures var e := MoveObjects(md5, c, source, imports, added).cache;
      && e.disk.keyDirs == c.disk.keyDirs && e.disk.slots == c.disk.slots && e.disk.srcDirs == c.disk.srcDirs
      && e.counts.streams == c.counts.streams && e.counts.sources == c.counts.sources
    decreases |imports|
  {
    if imports != [] {
      MoveOneInv(md5, c, source, imports[0]);
      MovedOneDirs(md5, c, source, imports[0]);
      var r := MoveOne(md5, c, source, imports[0]);
      if r.result.UpdNotChanged? {
        MovedDirs(md5, r.cache, source, imports[1..], added || r.added);
      }
    }
  }

  lemma MovedOneDirs(md5: Bytes -> Hash, c: Cache, source: Hash, i: Import)
    requires CacheInv(c.disk)
    ensures var e := MoveOne(md5, c, source, i).cache;
      && e.disk.keyDirs == c.disk.keyDirs && e.disk.slots == c.disk.slots && e.disk.srcDirs == c.disk.srcDirs
      && e.counts.streams == c.counts.streams && e.counts.sources == c.counts.sources
  {
  }

  lemma {:induction false} LinkKeysKeepsDirs(k: KeysOutcome, source: Hash, i: nat, objectsAdded: bool,
                                             faults: seq<Fault>)
    requires CacheInv(k.disk) && i <= |k.keys|
    ensures var e := LinkKeys(k, source, i, objectsAdded, faults).disk;
      e.keyDirs == k.disk.keyDirs && e.slots == k.disk.slots
    decreases |k.keys| - i
  {
    if i < |k.keys| && k.GoesOn() {
      LinkOneInv(k, source, i, objectsAdded, FaultAt(faults, i));
      LinkedDirs(k.disk, k.keys[i].slot, source, Inserted, FaultAt(faults, i));
      var n := LinkOne(k, source, i, objectsAdded, FaultAt(faults, i));
      LinkKeysKeepsDirs(n, source, i + 1, objectsAdded, faults);
    }
  }

  /** Filling a source makes no directories and counts none. */
  lemma UpdateKeepsDirs(md5: Bytes -> Hash, c: Cache, source: Hash, keys: seq<PendingKey>, fill: UpdateEnv)
    requires CacheInv(c.disk)
    ensures var e := UpdateSource(md5, c, source, keys, fill).cache;
      && e.disk.keyDirs == c.disk.keyDirs && e.disk.slots == c.disk.slots && e.disk.srcDirs == c.disk.srcDirs
      && e.counts.streams == c.counts.streams && e.counts.sources == c.counts.sources
  {
    var m := MoveObjects(md5, c, source, fill.imports, false);
    MoveObjectsInv(md5, c, source, fill.imports, false);
    MovedDirs(md5, c, source, fill.imports, false);
    var k := KeysOutcome(m.cache.disk, keys, UpdNotChanged);
    LinkKeysKeepsDirs(k, source, 0, m.result != UpdNotChanged, fill.linkFaults);
    LinkKeysPool(k, source, 0, m.result != UpdNotChanged, fill.linkFaults);
  }

  /** Exactly which steps keep the key directories covered. */
  lemma StepKeepsStreams(md5: Bytes -> Hash, c: Cache, step: Step)
    requires CacheInv(c.disk) && StreamsCovered(c)
    ensures StreamsCovered(Apply(md5, c, step)) <==> KeepsStreams(c, step)
  {
    match step
    case AddKey(slot, source, pending, env) => AddKeepsStreams(c, slot, source, pending, env);
    case Update(source, keys, fill) => UpdateKeepsDirs(md5, c, source, keys, fill);
    case Delete(slot) => DeleteNeedsSurplus(c, slot);
    case CollectKey(key, threshold) => CollectKeepsStreams(c, key, threshold);
    case CollectSource(_, _) =>
    case CollectObject(_, _) =>
    case Stamp(keyTimes, inodeTimes, changed) =>
      assert Restamp(c.disk, keyTimes, inodeTimes).keyDirs.Keys == c.disk.keyDirs.Keys;
    case Recount =>
    case Wipe =>
  }

  /** The key directories are covered before and after every step. */
  ghost predicate AlwaysCovered(md5: Bytes -> Hash, c: Cache, steps: seq<Step>)
    requires CacheInv(c.disk)
    decreases |steps|
  {
    StreamsCovered(c) &&
    (steps == [] ||
     (ApplyInv(md5, c, steps[0]); AlwaysCovered(md5, Apply(md5, c, steps[0]), steps[1..])))
  }

  ghost predicate KeepsStreamsRun(md5: Bytes -> Hash, c: Cache, steps: seq<Step>)
    requires CacheInv(c.disk)
    decreases |steps|
  {
    steps == [] ||
    (KeepsStreams(c, steps[0]) &&
     (ApplyInv(md5, c, steps[0]); KeepsStreamsRun(md5, Apply(md5, c, steps[0]), steps[1..])))
  }

  /**
   * The stream counter covers the key directories throughout a run if and
   * only if no step uncovers them without a surplus.
   */
  lemma {:induction false} RunStreamsCovered(md5: Bytes -> Hash, c: Cache, steps: seq<Step>)
    requires CacheInv(c.disk) && StreamsCovered(c)
    ensures AlwaysCovered(md5, c, steps) <==> KeepsStreamsRun(md5, c, steps)
    decreases |steps|
  {
    if steps != [] {
      ApplyInv(md5, c, steps[0]);
      StepKeepsStreams(md5, c, steps[0]);
      if KeepsStreams(c, steps[0]) {
        RunStreamsCovered(md5, Apply(md5, c, steps[0]), steps[1..]);
      }
    }
  }

  // ---------- when an assertion fails ----------

  datatype Counter = StreamKeys | Sources | Objects

  /** The step takes one off this counter when it is zero already. */
  ghost predicate FiresOn(c: Cache, step: Step, k: Counter)
    requires CacheInv(c.disk)
  {
    match step
    case Delete(slot) =>
      slot in c.disk.slots &&
      (match k
       case StreamKeys => c.counts.streams == 0
       case Sources => c.counts.sources == 0 && TakesSource(c.disk, slot)
       case Objects => false)
    case CollectKey(key, threshold) => k == StreamKeys && OldKey(c.disk, key, threshold) && c.counts.streams == 0
    case CollectSource(source, threshold) =>
      k == Sources && DeadSource(c.disk, source, threshold) && c.counts.sources == 0
    case CollectObject(hash, threshold) =>
      k == Objects && (ObjFile(hash) !in c.disk.files || DeadObject(c.disk, hash, threshold)) && c.counts.objects == 0
    case _ => false
  }

  // ---------- source directories in every run ----------

  /**
   * The source counter may fall behind in two ways: a source directory is made
   * and its `.ref` is not, or the collector visits a source that is gone.
   */
  predicate KeepsSources(c: Cache, step: Step) {
    match step
    case AddKey(_, source, _, env) =>
      env.mkdirSource != Fine || env.touch == Fine || source in c.disk.srcDirs || c.counts.sources > |c.disk.srcDirs|
    case CollectSource(source, _) => source in c.disk.srcDirs || c.counts.sources > |c.disk.srcDirs|
    case _ => true
  }

  lemma EnteredSources(d: Disk, source: Hash, now: Timespec, mkdir: Fault, touch: Fault)
    requires CacheInv(d)
    ensures var (e, r) := MkSourceEntry(d, source, now, mkdir, touch);
      e.srcDirs == (if mkdir == Fine then d.srcDirs + {source} else d.srcDirs) &&
      (mkdir == Fine && source !in d.srcDirs ==> (r.SourceInserted? <==> touch == Fine))
  {
  }

  lemma AddedSourceDirs(c: Cache, slot: Slot, source: Hash, pending: Pending, env: AddEnv)
    requires CacheInv(c.disk)
    ensures var (e, r) := MkSourceEntry(c.disk, source, env.now, env.mkdirSource, env.touch);
      var o := AddStreamKey(c, slot, source, pending, env).cache;
      o.disk.srcDirs == e.srcDirs && o.counts.sources == c.counts.sources + if r.SourceInserted? then 1 else 0
  {
    MkSourceEntryInv(c.disk, source, env.now, env.mkdirSource, env.touch);
    var (d, r) := MkSourceEntry(c.disk, source, env.now, env.mkdirSource, env.touch);
    var counts := if r.SourceInserted? then c.counts.AddSource() else c.counts;
    if !r.SourceIoError? && !r.SourceDiskFull? {
      AddSlotPool(Cache(d, counts), slot, source, IsNewSource(r, source, pending), pending, env);
    }
  }

  lemma AddKeepsSources(c: Cache, slot: Slot, source: Hash, pending: Pending, env: AddEnv)
    requires CacheInv(c.disk) && SourcesCovered(c)
    ensures SourcesCovered(AddStreamKey(c, slot, source, pending, env).cache) <==>
      KeepsSources(c, AddKey(slot, source, pending, env))
  {
    EnteredSources(c.disk, source, env.now, env.mkdirSource, env.touch);
    AddedSourceDirs(c, slot, source, pending, env);
    if source in c.disk.srcDirs {
      assert c.disk.srcDirs + {source} == c.disk.srcDirs;
    }
  }

  /** Exactly which steps that find their counter positive keep the source directories covered. */
  lemma StepKeepsSources(md5: Bytes -> Hash, c: Cache, step: Step)
    requires CacheInv(c.disk) && SourcesCovered(c) && !FiresOn(c, step, Sources)
    ensures SourcesCovered(Apply(md5, c, step)) <==> KeepsSources(c, step)
  {
    match step
    case AddKey(slot, source, pending, env) => AddKeepsSources(c, slot, source, pending, env);
    case Update(source, keys, fill) => UpdateKeepsDirs(md5, c, source, keys, fill);
    case Delete(slot) => DeleteKeyPool(c, slot);
    case CollectKey(_, _) =>
    case CollectSource(source, threshold) =>
      if DeadSource(c.disk, source, threshold) {
        StaleSourceNeedsSurplus(c, source, threshold);
      } else {
        assert ParentExists(c.disk, SrcFile(source, Ref));
      }
    case CollectObject(_, _) =>
    case Stamp(_, _, _) =>
    case Recount =>
    case Wipe =>
  }

  /**
   * A source that was listed and then deleted before the collector got the
   * lock is counted down twice.  The counter stays large enough exactly when
   * it had a surplus.
   */
  lemma StaleSourceNeedsSurplus(c: Cache, source: Hash, threshold: Timespec)
    requires CacheInv(c.disk) && c.counts.sources >= |c.disk.srcDirs| && c.counts.sources > 0
    ensures var r := GcSource(c, source, threshold);
      r.counts.sources >= |r.disk.srcDirs| <==> (source in c.disk.srcDirs || c.counts.sources > |c.disk.srcDirs|)
  {
  }

  /** A source directory without `.ref` is not counted: one more directory, same counter. */
  lemma TouchFailureNeedsSurplus(c: Cache, slot: Slot, source: Hash, pending: Pending, env: AddEnv)
    requires CacheInv(c.disk) && c.counts.sources >= |c.disk.srcDirs| && source !in c.disk.srcDirs
    requires env.mkdirSource == Fine && env.touch != Fine
    ensures var r := AddStreamKey(c, slot, source, pending, env).cache;
      r.counts.sources >= |r.disk.srcDirs| <==> c.counts.sources > |c.disk.srcDirs|
  {
  }

  // ---------- priorities in every run ----------

  /** The stream counter covers the key/prio directories, which is what deletions take off it. */
  ghost predicate SlotsCovered(c: Cache) {
    c.counts.streams >= |c.disk.slots|
  }

  /**
   * Two steps may uncover them: collecting a key directory that has no
   * priorities, and counting key directories at start-up.
   */
  ghost predicate KeepsSlots(c: Cache, step: Step) {
    match step
    case CollectKey(key, threshold) =>
      OldKey(c.disk, key, threshold) ==>
        (exists prio :: Slot(key, prio) in c.disk.slots) || c.counts.streams > |c.disk.slots|
    case Recount => |c.disk.slots| <= |c.disk.keyDirs.Keys|
    case _ => true
  }

  lemma AddedSlotCount(c: Cache, slot: Slot, source: Hash, isNew: bool, pending: Pending, env: AddEnv)
    requires CacheInv(c.disk)
    ensures var e := AddSlot(c, slot, source, isNew, pending, env).cache;
      || (e.disk.slots == c.disk.slots && e.counts.streams == c.counts.streams)
      || (e.disk.slots == c.disk.slots + {slot} && e.counts.streams == c.counts.streams + 1)
  {
    MakeSlotInv(c.disk, slot, env.now);
    LinkedDirs(MakeSlot(c.disk, slot, env.now), slot, source, if isNew then SourceUnknown else Inserted, env.link);
    LinkedDirs(c.disk, slot, source, Inserted, env.link);
  }

  lemma AddKeepsSlots(c: Cache, slot: Slot, source: Hash, pending: Pending, env: AddEnv)
    requires CacheInv(c.disk) && SlotsCovered(c)
    ensures SlotsCovered(AddStreamKey(c, slot, source, pending, env).cache)
  {
    MkSourceEntryInv(c.disk, source, env.now, env.mkdirSource, env.touch);
    EnteredDirs(c.disk, source, env.now, env.mkdirSource, env.touch);
    var (d, r) := MkSourceEntry(c.disk, source, env.now, env.mkdirSource, env.touch);
    var counts := if r.SourceInserted? then c.counts.AddSource() else c.counts;
    if !r.SourceIoError? && !r.SourceDiskFull? {
      AddedSlotCount(Cache(d, counts), slot, source, IsNewSource(r, source, pending), pending, env);
    }
  }

  lemma CollectKeepsSlots(c: Cache, key: string, threshold: Timespec)
    requires CacheInv(c.disk) && SlotsCovered(c) && (OldKey(c.disk, key, threshold) ==> c.counts.streams > 0)
    ensures SlotsCovered(GcKey(c, key, threshold)) <==> KeepsSlots(c, CollectKey(key, threshold))
  {
    if OldKey(c.disk, key, threshold) {
      var e := GcKey(c, key, threshold);
      var dropped := set slot | slot in c.disk.slots && slot.key == key;
      assert c.disk.slots == e.disk.slots + dropped && e.disk.slots !! dropped;
      if slot :| slot in dropped {
        assert slot == Slot(key, slot.prio);
      }
      assert (exists prio :: Slot(key, prio) in c.disk.slots) <==> dropped != {};
    }
  }

  lemma DeleteKeepsSlots(c: Cache, slot: Slot)
    requires CacheInv(c.disk)
    ensures var e := DeleteKey(c, slot);
      && e.disk.slots == c.disk.slots - {slot} && e.disk.keyDirs == c.disk.keyDirs
      && e.counts.streams ==
           if slot in c.disk.slots && c.counts.streams > 0 then c.counts.streams - 1 else c.counts.streams
  {
  }

  /** Exactly which steps that find their counter positive keep the priorities covered. */
  lemma StepKeepsSlots(md5: Bytes -> Hash, c: Cache, step: Step)
    requires CacheInv(c.disk) && SlotsCovered(c) && !FiresOn(c, step, StreamKeys)
    ensures SlotsCovered(Apply(md5, c, step)) <==> KeepsSlots(c, step)
  {
    match step
    case AddKey(slot, source, pending, env) => AddKeepsSlots(c, slot, source, pending, env);
    case Update(source, keys, fill) => UpdateKeepsDirs(md5, c, source, keys, fill);
    case Delete(slot) => DeleteKeepsSlots(c, slot);
    case CollectKey(key, threshold) => CollectKeepsSlots(c, key, threshold);
    case CollectSource(_, _) =>
    case CollectObject(_, _) =>
    case Stamp(_, _, _) =>
    case Recount =>
    case Wipe =>
  }

  // ---------- visits ----------

  /** A visit of the collector takes one off its own counter if it removes something, and leaves all others alone. */
  lemma VisitsAreCounted(c: Cache, key: string, source: Hash, hash: Hash, threshold: Timespec)
    requires CacheInv(c.disk) && c.counts.streams > 0 && c.counts.sources > 0 && c.counts.objects > 0
    ensures GcKey(c, key, threshold).counts ==
      c.counts.(streams := c.counts.streams - if OldKey(c.disk, key, threshold) then 1 else 0)
    ensures GcSource(c, source, threshold).counts ==
      c.counts.(sources := c.counts.sources - if DeadSource(c.disk, source, threshold) then 1 else 0)
    ensures GcObject(c, hash, threshold).counts ==
      c.counts.(objects := c.counts.objects -
        if ObjFile(hash) !in c.disk.files || DeadObject(c.disk, hash, threshold) then 1 else 0)
  {
  }
}
