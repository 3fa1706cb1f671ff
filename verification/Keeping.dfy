/**
 * When an existing key keeps what it leads to while its new source is still
 * to be filled.  The promise is that it always does; the code moves the key
 * at once if the new source is known, empty and waits in the queue.
 */
module Keeping {
  import opened CacheTypes
  import opened FileSystem
  import opened CacheInvariant
  import opened Operations
  import opened Isolation

  ghost predicate Filled(d: Disk, source: Hash) {
    SrcFile(source, Ref) in d.files && HasOutputs(d, source)
  }

  /** A known source that is waiting in the queue is taken for one that is ready. */
  ghost predicate TakenForReady(c: Cache, slot: Slot, source: Hash, pending: Pending, env: AddEnv) {
    && SrcFile(source, Ref) in c.disk.files && source in pending.queued
    && !JoinsJob(c.disk, slot, pending)
    && env.mkdirSource == Fine && env.mkdirSlot == Fine
  }

  /** An existing key keeps its link unless its new source is taken for ready, or if there is nothing to move. */
  lemma KeptIff(c: Cache, slot: Slot, source: Hash, pending: Pending, env: AddEnv)
    requires CacheInv(c.disk) && slot in c.disk.slots && !Filled(c.disk, source)
    ensures var e := AddStreamKey(c, slot, source, pending, env).cache.disk;
      CurrentLink(e, slot) == CurrentLink(c.disk, slot) <==>
        !TakenForReady(c, slot, source, pending, env) ||
        CurrentLink(c.disk, slot) == Some(source) ||
        (CurrentLink(c.disk, slot).None? && env.link != Fine)
  {
    MkSourceEntryView(c.disk, source, env.now, env.mkdirSource, env.touch, slot);
    var (d, r) := MkSourceEntry(c.disk, source, env.now, env.mkdirSource, env.touch);
    SameLink(c.disk, d, slot);
    if SrcFile(source, Ref) in c.disk.files && env.mkdirSource == Fine {
      assert ParentExists(c.disk, SrcFile(source, Ref));
      assert d == c.disk && r == SourceEmpty;
      Relinked(d, slot, source, env.link);
    }
  }

  lemma SameLink(d: Disk, e: Disk, slot: Slot)
    requires CacheInv(d) && CacheInv(e)
    requires forall s :: KeyLink(slot, s) in e.files <==> KeyLink(slot, s) in d.files
    ensures CurrentLink(e, slot) == CurrentLink(d, slot)
  {
  }

  lemma Relinked(d: Disk, slot: Slot, source: Hash, link: Fault)
    requires CacheInv(d) && slot in d.slots && SrcFile(source, Ref) in d.files
    ensures var e := LinkToSource(d, slot, source, Inserted, link).0;
      CurrentLink(e, slot) == CurrentLink(d, slot) <==>
        CurrentLink(d, slot) == Some(source) || (CurrentLink(d, slot).None? && link != Fine)
  {
  }

  /**
   * Whenever key `b` leads to a filled source `t` and key `a` is added with a
   * new source `s`, adding `s` to `b` while it waits in the queue takes `t`
   * away from `b` and gives it the empty `s`.
   */
  lemma MovedTooEarly(c: Cache, a: Slot, b: Slot, s: Hash, t: Hash, first: Pending, second: Pending, env: AddEnv)
    requires CacheInv(c.disk) && KeyLink(b, t) in c.disk.files && Filled(c.disk, t)
    requires s !in c.disk.srcDirs && a !in c.disk.slots
    requires s in second.queued && !second.Holds(t)
    requires env == AllFine(env.now)
    ensures var o := AddStreamKey(c, a, s, first, env);
      && CacheInv(o.cache.disk)
      && o.result == SourceUnknown && o.joined == None
      && KeyLink(b, t) in o.cache.disk.files && View(o.cache.disk, b) == View(c.disk, b)
      && var u := AddStreamKey(o.cache, b, s, second, env);
      && CacheInv(u.cache.disk)
      && u.result == Replaced && u.joined == None
      && KeyLink(b, s) in u.cache.disk.files && !HasOutputs(u.cache.disk, s)
  {
    LinkedSourceExists(c.disk, b, t);
    CurrentLinkIs(c.disk, b, t);
    AddStreamKeyIsolated(c, a, s, first, env, b);
    NewSourceIsEmpty(c, a, s, first, env);
    var o := AddStreamKey(c, a, s, first, env);
    CurrentLinkIs(o.cache.disk, b, t);
    EmptySourceTaken(o.cache, b, s, t, second, env);
  }

  /** A key is moved to a source that has nothing yet. */
  lemma EmptySourceTaken(c: Cache, slot: Slot, source: Hash, prior: Hash, pending: Pending, env: AddEnv)
    requires CacheInv(c.disk) && KeyLink(slot, prior) in c.disk.files && prior != source
    requires SrcFile(source, Ref) in c.disk.files && !HasOutputs(c.disk, source)
    requires source in pending.queued && !pending.Holds(prior)
    requires env == AllFine(env.now)
    ensures var u := AddStreamKey(c, slot, source, pending, env);
      && CacheInv(u.cache.disk) && u.result == Replaced && u.joined == None
      && KeyLink(slot, source) in u.cache.disk.files && !HasOutputs(u.cache.disk, source)
  {
    LinkedSourceExists(c.disk, slot, prior);
    CurrentLinkIs(c.disk, slot, prior);
    AddStreamKeyInv(c, slot, source, pending, env);
    assert ParentExists(c.disk, SrcFile(source, Ref));
    UnlinkSlotInv(c.disk, slot, prior);
    assert LinkToSource(c.disk, slot, source, Inserted, Fine) ==
      NewLink(Remove(c.disk, {KeyLink(slot, prior)}), slot, source, Replaced, Fine);
  }

  lemma NewSourceIsEmpty(c: Cache, slot: Slot, source: Hash, pending: Pending, env: AddEnv)
    requires CacheInv(c.disk) && source !in c.disk.srcDirs && slot !in c.disk.slots
    requires env == AllFine(env.now)
    ensures var r := AddStreamKey(c, slot, source, pending, env);
      && r.result == SourceUnknown && r.joined == None
      && SrcFile(source, Ref) in r.cache.disk.files && !HasOutputs(r.cache.disk, source)
      && r.cache.disk.slots == c.disk.slots + {slot}
  {
  }
}
