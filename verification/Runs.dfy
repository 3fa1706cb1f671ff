/**
 * Arbitrary interleavings of the critical sections: every step takes the
 * manager's lock, so any run is a sequence of steps.
 */
module Runs {
  import opened CacheTypes
  import opened FileSystem
  import opened CacheInvariant
  import opened Statistics
  import opened Operations
  import opened Accounting

  datatype Step =
    | AddKey(slot: Slot, source: Hash, pending: Pending, env: AddEnv)
    | Update(source: Hash, keys: seq<PendingKey>, fill: UpdateEnv)
    | Delete(slot: Slot)
    | CollectKey(key: string, threshold: Timespec)
    | CollectSource(source: Hash, threshold: Timespec)
    | CollectObject(hash: Hash, threshold: Timespec)
    | Stamp(keyTimes: map<string, Timespec>, inodeTimes: map<nat, Timespec>, changed: bool)
    | Recount
    | Wipe

  const EMPTY_CACHE := Cache(EMPTY_DISK, Counters(0, 0, 0, false))

  ghost function Apply(md5: Bytes -> Hash, c: Cache, step: Step): Cache
    requires CacheInv(c.disk)
  {
    match step
    case AddKey(slot, source, pending, env) => AddStreamKey(c, slot, source, pending, env).cache
    case Update(source, keys, fill) => UpdateSource(md5, c, source, keys, fill).cache
    case Delete(slot) => DeleteKey(c, slot)
    case CollectKey(key, threshold) => GcKey(c, key, threshold)
    case CollectSource(source, threshold) => GcSource(c, source, threshold)
    case CollectObject(hash, threshold) => GcObject(c, hash, threshold)
    case Stamp(keyTimes, inodeTimes, changed) =>
      Cache(Restamp(c.disk, keyTimes, inodeTimes), c.counts.(changed := changed))
    case Recount =>
      c.(counts := Counters(|c.disk.keyDirs|, |c.disk.srcDirs|, |PoolFiles(c.disk)|, false))
    case Wipe => EMPTY_CACHE
  }

  ghost function Run(md5: Bytes -> Hash, c: Cache, steps: seq<Step>): (r: Cache)
    requires CacheInv(c.disk)
    ensures CacheInv(r.disk)
    decreases |steps|
  {
    if steps == [] then
      c
    else
      ApplyInv(md5, c, steps[0]);
      Run(md5, Apply(md5, c, steps[0]), steps[1..])
  }

  // ---------- link counts and references in every run ----------

  lemma GcSourceInv(c: Cache, source: Hash, threshold: Timespec)
    requires CacheInv(c.disk)
    ensures CacheInv(GcSource(c, source, threshold).disk)
    ensures SamePool(c.disk, GcSource(c, source, threshold).disk)
  {
    if DeadSource(c.disk, source, threshold) {
      RmSourcesPool(c.disk, {source});
    }
  }

  lemma GcObjectInv(md5: Bytes -> Hash, c: Cache, hash: Hash, threshold: Timespec)
    requires CacheInv(c.disk)
    ensures CacheInv(GcObject(c, hash, threshold).disk)
    ensures ContentAddressed(md5, c.disk) ==> ContentAddressed(md5, GcObject(c, hash, threshold).disk)
  {
    if DeadObject(c.disk, hash, threshold) {
      RmObjectsInv(c.disk, {ObjFile(hash)});
      if ContentAddressed(md5, c.disk) {
        RmObjectsAccounted(md5, c.disk, {ObjFile(hash)});
      }
    }
  }

  lemma ApplyInv(md5: Bytes -> Hash, c: Cache, step: Step)
    requires CacheInv(c.disk)
    ensures CacheInv(Apply(md5, c, step).disk)
  {
    match step
    case AddKey(slot, source, pending, env) => AddStreamKeyInv(c, slot, source, pending, env);
    case Update(source, keys, fill) => UpdateSourceInv(md5, c, source, keys, fill);
    case Delete(slot) => DeleteKeyInv(c, slot);
    case CollectKey(key, threshold) => RmKeysInv(c.disk, {key});
    case CollectSource(source, threshold) => GcSourceInv(c, source, threshold);
    case CollectObject(hash, threshold) => GcObjectInv(md5, c, hash, threshold);
    case Stamp(keyTimes, inodeTimes, changed) => RestampInv(c.disk, keyTimes, inodeTimes);
    case Recount =>
    case Wipe =>
  }

  /** In every reachable state the stored link counts are the reference counts. */
  lemma LinkCountsConserved(md5: Bytes -> Hash, steps: seq<Step>)
    ensures var d := Run(md5, EMPTY_CACHE, steps).disk;
      && FsInv(d)
      && (forall s :: d.Has(SrcFile(s, Ref)) ==> d.At(SrcFile(s, Ref)).nlink == 1 + |Holders(d, s)|)
      && (forall h :: d.Has(ObjFile(h)) ==> d.At(ObjFile(h)).nlink == 1 + |OutputsNaming(d, h)|)
  {
    var d := Run(md5, EMPTY_CACHE, steps).disk;
    forall s | d.Has(SrcFile(s, Ref))
      ensures d.At(SrcFile(s, Ref)).nlink == 1 + |Holders(d, s)|
    {
      RefCountsHolders(d, s);
    }
    forall h | d.Has(ObjFile(h))
      ensures d.At(ObjFile(h)).nlink == 1 + |OutputsNaming(d, h)|
    {
      ObjectCountsOutputs(d, h);
    }
  }

  /** In every reachable state no link dangles and no key/prio directory has two links. */
  lemma ReferencesIntact(md5: Bytes -> Hash, steps: seq<Step>)
    ensures var d := Run(md5, EMPTY_CACHE, steps).disk;
      && (forall slot, s :: d.Has(KeyLink(slot, s)) ==>
            s in d.srcDirs && d.Has(SrcFile(s, Ref)) && d.files[KeyLink(slot, s)] == d.files[SrcFile(s, Ref)])
      && (forall s, f, h :: d.Has(SrcFile(s, Out(f, h))) ==>
            d.Has(ObjFile(h)) && d.files[SrcFile(s, Out(f, h))] == d.files[ObjFile(h)])
      && (forall slot, s, t :: d.Has(KeyLink(slot, s)) && d.Has(KeyLink(slot, t)) ==> s == t)
  {
    var d := Run(md5, EMPTY_CACHE, steps).disk;
    forall slot, s | d.Has(KeyLink(slot, s))
      ensures s in d.srcDirs && d.Has(SrcFile(s, Ref)) && d.files[KeyLink(slot, s)] == d.files[SrcFile(s, Ref)]
    {
      LinkedSourceExists(d, slot, s);
    }
    forall s, f, h | d.Has(SrcFile(s, Out(f, h)))
      ensures d.Has(ObjFile(h)) && d.files[SrcFile(s, Out(f, h))] == d.files[ObjFile(h)]
    {
      assert Anchor(SrcFile(s, Out(f, h))) == ObjFile(h);
    }
  }

  // ---------- content addressing in every run ----------

  lemma ApplyAddressed(md5: Bytes -> Hash, c: Cache, step: Step)
    requires CacheInv(c.disk) && ContentAddressed(md5, c.disk)
    ensures CacheInv(Apply(md5, c, step).disk)
    ensures ContentAddressed(md5, Apply(md5, c, step).disk)
  {
    ApplyInv(md5, c, step);
    var e := Apply(md5, c, step).disk;
    match step
    case AddKey(slot, source, pending, env) =>
      AddStreamKeyPool(c, slot, source, pending, env);
      SamePoolAddressed(md5, c.disk, e);
    case Update(source, keys, fill) => UpdateAddressed(md5, c, source, keys, fill);
    case Delete(slot) =>
      DeleteKeyPool(c, slot);
      SamePoolAddressed(md5, c.disk, e);
    case CollectKey(key, threshold) =>
      RmKeysPool(c.disk, {key});
      SamePoolAddressed(md5, c.disk, e);
    case CollectSource(source, threshold) =>
      GcSourceInv(c, source, threshold);
      SamePoolAddressed(md5, c.disk, e);
    case CollectObject(hash, threshold) => GcObjectInv(md5, c, hash, threshold);
    case Stamp(keyTimes, inodeTimes, changed) => SamePoolAddressed(md5, c.disk, e);
    case Recount =>
    case Wipe =>
  }

  /** The disk after an update does not depend on the counters. */
  lemma UpdateAddressed(md5: Bytes -> Hash, c: Cache, source: Hash, keys: seq<PendingKey>, fill: UpdateEnv)
    requires CacheInv(c.disk) && ContentAddressed(md5, c.disk)
    ensures CacheInv(UpdateSource(md5, c, source, keys, fill).cache.disk)
    ensures ContentAddressed(md5, UpdateSource(md5, c, source, keys, fill).cache.disk)
  {
    var counted := c.(counts := c.counts.(objects := |PoolFiles(c.disk)|));
    UpdateSourceAccounted(md5, counted, source, keys, fill);
    UpdateSourceInv(md5, c, source, keys, fill);
    MoveIgnoresCounts(md5, c, counted, source, fill.imports, false);
  }

  lemma {:induction false} MoveIgnoresCounts(md5: Bytes -> Hash, a: Cache, b: Cache, source: Hash,
                                             imports: seq<Import>, added: bool)
    requires CacheInv(a.disk) && a.disk == b.disk
    ensures MoveObjects(md5, a, source, imports, added).cache.disk ==
            MoveObjects(md5, b, source, imports, added).cache.disk
    ensures MoveObjects(md5, a, source, imports, added).result == MoveObjects(md5, b, source, imports, added).result
    decreases |imports|
  {
    if imports != [] {
      MoveOneInv(md5, a, source, imports[0]);
      var r, s := MoveOne(md5, a, source, imports[0]), MoveOne(md5, b, source, imports[0]);
      if r.result.UpdNotChanged? {
        MoveIgnoresCounts(md5, r.cache, s.cache, source, imports[1..], added || r.added);
      }
    }
  }

  lemma {:induction false} RunAddressed(md5: Bytes -> Hash, c: Cache, steps: seq<Step>)
    requires CacheInv(c.disk) && ContentAddressed(md5, c.disk)
    ensures ContentAddressed(md5, Run(md5, c, steps).disk)
    decreases |steps|
  {
    if steps != [] {
      ApplyAddressed(md5, c, steps[0]);
      RunAddressed(md5, Apply(md5, c, steps[0]), steps[1..]);
    }
  }

  // ---------- the first step ----------

  lemma AddToEmpty(slot: Slot, source: Hash, env: AddEnv)
    requires env == AllFine(env.now)
    ensures var r := AddStreamKey(EMPTY_CACHE, slot, source, Pending({}, None), env);
      && r.cache.disk.files.Keys == {SrcFile(source, Ref), KeyLink(slot, source)}
      && r.cache.disk.slots == {slot} && r.cache.disk.keyDirs == map[slot.key := env.now]
      && r.cache.disk.srcDirs == {source}
      && r.cache.counts.streams == 1 && r.cache.counts.sources == 1
  {
  }
}
