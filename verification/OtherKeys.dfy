/** What a key leads to survives any interleaving of steps that concern other keys. */
module OtherKeys {
  import opened CacheTypes
  import opened FileSystem
  import opened CacheInvariant
  import opened Operations
  import opened Isolation
  import opened Filling
  import opened Lookup
  import opened Runs

  /**
   * The step is not about this key: it adds, fills or deletes others, or
   * collects anything but the key itself.  Sources and pictures that the key
   * shares with others may be involved, except for filling its own source.
   */
  ghost predicate Foreign(c: Cache, step: Step, slot: Slot) {
    match step
    case AddKey(other, _, _, _) => other != slot
    case Update(source, keys, _) => !Mentions(keys, slot) && KeyLink(slot, source) !in c.disk.files
    case Delete(other) => other != slot
    case CollectKey(key, threshold) => key != slot.key || !OldKey(c.disk, key, threshold)
    case CollectSource(_, _) => true
    case CollectObject(_, _) => true
    case Stamp(_, _, _) => true
    case Recount => true
    case Wipe => false
  }

  /** Same pictures, and the directory is there as before. */
  ghost predicate SameFor(d: Disk, e: Disk, slot: Slot)
    requires CacheInv(d)
  {
    CacheInv(e) && View(e, slot) == View(d, slot) && (slot in e.slots <==> slot in d.slots)
  }

  lemma AddForeign(c: Cache, other: Slot, source: Hash, pending: Pending, env: AddEnv, slot: Slot)
    requires CacheInv(c.disk) && other != slot
    ensures SameFor(c.disk, AddStreamKey(c, other, source, pending, env).cache.disk, slot)
  {
    AddStreamKeyIsolated(c, other, source, pending, env, slot);
    AddSlots(c, other, source, pending, env);
  }

  lemma AddSlots(c: Cache, slot: Slot, source: Hash, pending: Pending, env: AddEnv)
    requires CacheInv(c.disk)
    ensures AddStreamKey(c, slot, source, pending, env).cache.disk.slots + {slot} == c.disk.slots + {slot}
  {
    MkSourceEntryView(c.disk, source, env.now, env.mkdirSource, env.touch, slot);
  }

  lemma DeleteForeign(c: Cache, other: Slot, slot: Slot)
    requires CacheInv(c.disk) && other != slot
    ensures SameFor(c.disk, DeleteKey(c, other).disk, slot)
  {
    DeleteKeyIsolated(c, other, slot);
    assert DeleteKey(c, other).disk.slots == c.disk.slots - {other};
  }

  lemma UpdateForeign(md5: Bytes -> Hash, c: Cache, source: Hash, keys: seq<PendingKey>, fill: UpdateEnv, slot: Slot)
    requires CacheInv(c.disk) && !Mentions(keys, slot) && KeyLink(slot, source) !in c.disk.files
    ensures SameFor(c.disk, UpdateSource(md5, c, source, keys, fill).cache.disk, slot)
  {
    UpdateSourceIsolated(md5, c, source, keys, fill, slot);
    UpdateSettles(md5, c, source, keys, fill);
  }

  lemma CollectForeign(md5: Bytes -> Hash, c: Cache, step: Step, slot: Slot)
    requires CacheInv(c.disk) && Foreign(c, step, slot)
    requires step.CollectKey? || step.CollectSource? || step.CollectObject? || step.Stamp? || step.Recount?
    ensures SameFor(c.disk, Apply(md5, c, step).disk, slot)
  {
    match step
    case CollectKey(key, threshold) =>
      if OldKey(c.disk, key, threshold) {
        RmKeysView(c.disk, {key}, slot);
      }
    case CollectSource(source, threshold) =>
      if DeadSource(c.disk, source, threshold) {
        RmSourcesView(c.disk, {source}, slot);
      }
    case CollectObject(hash, threshold) =>
      if DeadObject(c.disk, hash, threshold) {
        RmObjectsView(c.disk, {ObjFile(hash)}, slot);
      }
    case Stamp(keyTimes, inodeTimes, _) => RestampView(c.disk, keyTimes, inodeTimes, slot);
    case _ =>
  }

  lemma ForeignStep(md5: Bytes -> Hash, c: Cache, step: Step, slot: Slot)
    requires CacheInv(c.disk) && Foreign(c, step, slot)
    ensures SameFor(c.disk, Apply(md5, c, step).disk, slot)
  {
    match step
    case AddKey(other, source, pending, env) => AddForeign(c, other, source, pending, env, slot);
    case Update(source, keys, fill) => UpdateForeign(md5, c, source, keys, fill, slot);
    case Delete(other) => DeleteForeign(c, other, slot);
    case _ => CollectForeign(md5, c, step, slot);
  }

  ghost predicate ForeignRun(md5: Bytes -> Hash, c: Cache, steps: seq<Step>, slot: Slot)
    requires CacheInv(c.disk)
    decreases |steps|
  {
    steps == [] ||
      (Foreign(c, steps[0], slot) &&
       (ApplyInv(md5, c, steps[0]); ForeignRun(md5, Apply(md5, c, steps[0]), steps[1..], slot)))
  }

  lemma {:induction false} ForeignRunSame(md5: Bytes -> Hash, c: Cache, steps: seq<Step>, slot: Slot)
    requires CacheInv(c.disk) && ForeignRun(md5, c, steps, slot)
    ensures SameFor(c.disk, Run(md5, c, steps).disk, slot)
    decreases |steps|
  {
    if steps != [] {
      ApplyInv(md5, c, steps[0]);
      ForeignStep(md5, c, steps[0], slot);
      ForeignRunSame(md5, Apply(md5, c, steps[0]), steps[1..], slot);
    }
  }

  /**
   * However many steps about other keys come in between, in whatever order,
   * a lookup of this key has exactly the same possible answers as before.
   */
  lemma ForeignRunPreservesAnswers(md5: Bytes -> Hash, c: Cache, steps: seq<Step>, slot: Slot, hint: string,
                                   format: string, busy: set<Hash>, beyond: char, readable: bool, a: Answer)
    requires CacheInv(c.disk) && ForeignRun(md5, c, steps, slot)
    ensures CacheInv(Run(md5, c, steps).disk)
    ensures CanAnswer(Run(md5, c, steps).disk, slot, hint, format, busy, beyond, readable, a) <==>
            CanAnswer(c.disk, slot, hint, format, busy, beyond, readable, a)
  {
    ForeignRunSame(md5, c, steps, slot);
    var e := Run(md5, c, steps).disk;
    SameViewSameAnswers(c.disk, e, slot, hint, format, busy, beyond, readable, a);
    SameViewSameAnswers(e, c.disk, slot, hint, format, busy, beyond, readable, a);
  }
}
