/**
 * Deleting keys, in any number and order: when the assertions on the
 * counters hold throughout.
 */
module Deletions {
  import opened CacheTypes
  import opened FileSystem
  import opened CacheInvariant
  import opened Operations
  import opened Runs
  import opened Counting
  import opened Firing
  import opened Leftovers

  ghost predicate OnlyDeletes(steps: seq<Step>) {
    forall i :: 0 <= i < |steps| ==> steps[i].Delete?
  }

  /** No sequence of deletions decrements this counter below zero. */
  ghost predicate SafeToDelete(md5: Bytes -> Hash, c: Cache, k: Counter)
    requires CacheInv(c.disk)
  {
    forall steps :: OnlyDeletes(steps) ==> !SomeFiresOn(md5, c, steps, k)
  }

  /** The two ways in which deleting a key can fire. */
  lemma DeleteFiresOn(c: Cache, slot: Slot)
    requires CacheInv(c.disk)
    ensures DeleteFires(c, slot) <==> exists k :: FiresOn(c, Delete(slot), k)
  {
    assert FiresOn(c, Delete(slot), StreamKeys) <==> slot in c.disk.slots && c.counts.streams == 0;
    assert FiresOn(c, Delete(slot), Sources) <==>
      slot in c.disk.slots && c.counts.sources == 0 && TakesSource(c.disk, slot);
    assert !FiresOn(c, Delete(slot), Objects);
  }

  // ---------- the stream counter ----------

  /** Deletions are safe for the stream counter if and only if it covers the key/prio directories. */
  lemma SafeIffSlotsCovered(md5: Bytes -> Hash, c: Cache)
    requires CacheInv(c.disk)
    ensures SafeToDelete(md5, c, StreamKeys) <==> SlotsCovered(c)
  {
    if SlotsCovered(c) {
      forall steps | OnlyDeletes(steps)
        ensures !SomeFiresOn(md5, c, steps, StreamKeys)
      {
        CoveredDeletes(md5, c, steps);
      }
    } else {
      var steps := DeleteAllSlots(md5, c);
    }
  }

  lemma {:induction false} CoveredDeletes(md5: Bytes -> Hash, c: Cache, steps: seq<Step>)
    requires CacheInv(c.disk) && SlotsCovered(c) && OnlyDeletes(steps)
    ensures !SomeFiresOn(md5, c, steps, StreamKeys)
    decreases |steps|
  {
    if steps != [] {
      ApplyInv(md5, c, steps[0]);
      DeleteKeepsSlots(c, steps[0].slot);
      CoveredDeletes(md5, Apply(md5, c, steps[0]), steps[1..]);
    }
  }

  /** Deleting one key after the other runs the counter out. */
  lemma {:induction false} DeleteAllSlots(md5: Bytes -> Hash, c: Cache) returns (steps: seq<Step>)
    requires CacheInv(c.disk) && !SlotsCovered(c)
    ensures OnlyDeletes(steps) && SomeFiresOn(md5, c, steps, StreamKeys)
    decreases |c.disk.slots|
  {
    var slot :| slot in c.disk.slots;
    var step := Delete(slot);
    steps := [step];
    if c.counts.streams > 0 {
      ApplyInv(md5, c, step);
      DeleteKeepsSlots(c, slot);
      var rest := DeleteAllSlots(md5, Apply(md5, c, step));
      steps := [step] + rest;
      assert steps[0] == step && steps[1..] == rest;
    }
  }

  // ---------- the source counter ----------

  /** The sources that deletions can take: those with keys and without outputs. */
  ghost function Removable(d: Disk): set<Hash> {
    set s | s in d.srcDirs && SrcFile(s, Ref) in d.files && Holders(d, s) != {} && !HasOutputs(d, s)
  }

  /** What a deletion leaves of the files. */
  lemma DeletedFiles(c: Cache, slot: Slot, source: Hash)
    requires CacheInv(c.disk) && KeyLink(slot, source) in c.disk.files
    ensures var e := DeleteKey(c, slot).disk;
      && CacheInv(e) && slot in c.disk.slots && e.slots == c.disk.slots - {slot}
      && KeyLink(slot, source) !in e.files
      && (forall p :: p != KeyLink(slot, source) && p != SrcFile(source, Ref) ==> (p in e.files <==> p in c.disk.files))
  {
    var link := KeyLink(slot, source);
    LinkedSourceExists(c.disk, slot, source);
    CurrentLinkIs(c.disk, slot, source);
    UnlinkSlotInv(c.disk, slot, source);
    DeleteKeyInv(c, slot);
    var u := c.(disk := Remove(c.disk, {link}));
    DeleteSourceInv(u, source);
    var e := DeleteSource(u, source).disk;
    forall p | p != link && p != SrcFile(source, Ref)
      ensures p in e.files <==> p in c.disk.files
    {
      assert p in e.files.Keys - {SrcFile(source, Ref)} <==> p in u.disk.files.Keys - {SrcFile(source, Ref)};
    }
    assert link in e.files.Keys - {SrcFile(source, Ref)} <==> link in u.disk.files.Keys - {SrcFile(source, Ref)};
  }

  /** A deletion takes the source exactly if the key is its only one and it was never filled. */
  lemma TakesSourceIff(d: Disk, slot: Slot, source: Hash)
    requires CacheInv(d) && KeyLink(slot, source) in d.files
    ensures CurrentLink(d, slot) == Some(source)
    ensures TakesSource(d, slot) <==> Holders(d, source) == {slot} && !HasOutputs(d, source)
  {
    CurrentLinkIs(d, slot, source);
    UnlinkedCount(d, slot, source);
    OnlyHolder(d, slot, source);
  }

  /** The holders of a source after a deletion. */
  lemma HoldersAfter(c: Cache, slot: Slot, source: Hash, s: Hash)
    requires CacheInv(c.disk) && KeyLink(slot, source) in c.disk.files
    ensures var e := DeleteKey(c, slot).disk;
      Holders(e, s) == Holders(c.disk, s) - {slot} && (HasOutputs(e, s) <==> HasOutputs(c.disk, s))
  {
    DeletedFiles(c, slot, source);
  }

  /** A deletion takes its source off the ones that deletions can take, or changes nothing about them. */
  lemma RemovableAfter(c: Cache, slot: Slot)
    requires CacheInv(c.disk) && slot in c.disk.slots && CurrentLink(c.disk, slot).Some?
    ensures var source, e := CurrentLink(c.disk, slot).value, DeleteKey(c, slot).disk;
      if TakesSource(c.disk, slot) then
        source in Removable(c.disk) && Removable(e) == Removable(c.disk) - {source}
      else
        Removable(e) == Removable(c.disk)
  {
    var source, e := CurrentLink(c.disk, slot).value, DeleteKey(c, slot).disk;
    LinkedSourceExists(c.disk, slot, source);
    TakesSourceIff(c.disk, slot, source);
    DeleteKeyExact(c, slot, source);
    DeletedFiles(c, slot, source);
    forall s
      ensures s in Removable(e) <==> s in Removable(c.disk) && !(s == source && TakesSource(c.disk, slot))
    {
      HoldersAfter(c, slot, source, s);
      if s == source {
        assert slot in Holders(c.disk, s);
      } else {
        SrcDirOfRef(c.disk, s);
        SrcDirOfRef(e, s);
        assert slot !in Holders(c.disk, s);
      }
    }
  }

  lemma SrcDirOfRef(d: Disk, s: Hash)
    requires CacheInv(d)
    ensures SrcFile(s, Ref) in d.files ==> s in d.srcDirs
  {
    if SrcFile(s, Ref) in d.files {
      assert ParentExists(d, SrcFile(s, Ref));
    }
  }

  lemma NothingRemovable(c: Cache, slot: Slot)
    requires CacheInv(c.disk) && CurrentLink(c.disk, slot).None?
    ensures Removable(DeleteKey(c, slot).disk) == Removable(c.disk)
    ensures DeleteKey(c, slot).counts.sources == c.counts.sources
  {
    var e := DeleteKey(c, slot).disk;
    forall s
      ensures Holders(e, s) == Holders(c.disk, s)
    {
    }
    assert forall s :: HasOutputs(e, s) <==> HasOutputs(c.disk, s);
  }

  /** A deletion takes one off the stream counter, and one off the sources if it takes the source; it is noted. */
  lemma SourcesAfter(c: Cache, slot: Slot)
    requires CacheInv(c.disk) && slot in c.disk.slots
    ensures DeleteKey(c, slot).counts.sources ==
      if TakesSource(c.disk, slot) && c.counts.sources > 0 then c.counts.sources - 1 else c.counts.sources
    ensures DeleteKey(c, slot).counts.streams == if c.counts.streams > 0 then c.counts.streams - 1 else 0
    ensures DeleteKey(c, slot).counts.objects == c.counts.objects && DeleteKey(c, slot).counts.changed
  {
  }

  /** What a deletion does to the source counter and to what it has to cover. */
  lemma DeleteEffect(c: Cache, slot: Slot)
    requires CacheInv(c.disk)
    ensures var e := DeleteKey(c, slot);
      if slot in c.disk.slots && TakesSource(c.disk, slot) then
        |Removable(e.disk)| + 1 == |Removable(c.disk)| &&
        e.counts.sources == if c.counts.sources > 0 then c.counts.sources - 1 else 0
      else
        Removable(e.disk) == Removable(c.disk) && e.counts.sources == c.counts.sources
  {
    if slot in c.disk.slots {
      SourcesAfter(c, slot);
      if CurrentLink(c.disk, slot).Some? {
        RemovableAfter(c, slot);
      } else {
        NothingRemovable(c, slot);
      }
    }
  }

  /** Deletions are safe for the source counter if and only if it covers the sources that deletions can take. */
  lemma SafeIffRemovableCovered(md5: Bytes -> Hash, c: Cache)
    requires CacheInv(c.disk)
    ensures SafeToDelete(md5, c, Sources) <==> c.counts.sources >= |Removable(c.disk)|
  {
    if c.counts.sources >= |Removable(c.disk)| {
      forall steps | OnlyDeletes(steps)
        ensures !SomeFiresOn(md5, c, steps, Sources)
      {
        CoveredRemovals(md5, c, steps);
      }
    } else {
      var steps := RemoveAll(md5, c);
    }
  }

  lemma {:induction false} CoveredRemovals(md5: Bytes -> Hash, c: Cache, steps: seq<Step>)
    requires CacheInv(c.disk) && c.counts.sources >= |Removable(c.disk)| && OnlyDeletes(steps)
    ensures !SomeFiresOn(md5, c, steps, Sources)
    decreases |steps|
  {
    if steps != [] {
      ApplyInv(md5, c, steps[0]);
      DeleteEffect(c, steps[0].slot);
      CoveredRemovals(md5, Apply(md5, c, steps[0]), steps[1..]);
    }
  }

  lemma {:induction false} RemoveAll(md5: Bytes -> Hash, c: Cache) returns (steps: seq<Step>)
    requires CacheInv(c.disk) && c.counts.sources < |Removable(c.disk)|
    ensures OnlyDeletes(steps) && SomeFiresOn(md5, c, steps, Sources)
    decreases |c.disk.slots|
  {
    var source :| source in Removable(c.disk);
    var slot :| slot in Holders(c.disk, source);
    var step := Delete(slot);
    steps := [step];
    if !FiresOn(c, step, Sources) {
      ApplyInv(md5, c, step);
      DeleteEffect(c, slot);
      DeleteKeepsSlots(c, slot);
      var rest := RemoveAll(md5, Apply(md5, c, step));
      steps := [step] + rest;
      assert steps[0] == step && steps[1..] == rest;
    }
  }

  // ---------- after a restart ----------

  lemma AddToSlots(c: Cache, slot: Slot, source: Hash, pending: Pending, now: Timespec)
    requires CacheInv(c.disk) && slot !in c.disk.slots
    ensures var e := AddStreamKey(c, slot, source, pending, AllFine(now)).cache;
      && e.disk.slots == c.disk.slots + {slot} && e.counts.streams == c.counts.streams + 1
      && e.disk.keyDirs == if slot.key in c.disk.keyDirs then c.disk.keyDirs else c.disk.keyDirs[slot.key := now]
  {
    MkSourceEntryInv(c.disk, source, now, Fine, Fine);
    EnteredDirs(c.disk, source, now, Fine, Fine);
    var d := MkSourceEntry(c.disk, source, now, Fine, Fine).0;
    MakeSlotInv(d, slot, now);
    LinkedDirs(MakeSlot(d, slot, now), slot, source, SourceUnknown, Fine);
    LinkedDirs(MakeSlot(d, slot, now), slot, source, Inserted, Fine);
  }

  /**
   * It happens after a restart: a key is there at two priorities, start-up
   * counts its one directory, and the second deletion finds a zero counter.
   */
  lemma RestartUncovers(md5: Bytes -> Hash, key: string, p: byte, q: byte, s: Hash, t: Hash, now: Timespec)
    requires p != q
    ensures var idle := Pending({}, None);
      var c := Run(md5, EMPTY_CACHE, [AddKey(Slot(key, p), s, idle, AllFine(now)),
                                      AddKey(Slot(key, q), t, idle, AllFine(now)), Recount]);
      && c.disk.slots == {Slot(key, p), Slot(key, q)} && StreamsCovered(c) && !SlotsCovered(c)
      && SomeFiresOn(md5, c, [Delete(Slot(key, p)), Delete(Slot(key, q))], StreamKeys)
  {
    var idle := Pending({}, None);
    var a, b := AddKey(Slot(key, p), s, idle, AllFine(now)), AddKey(Slot(key, q), t, idle, AllFine(now));
    ThreeSteps(md5, a, b, Recount);
    AddToSlots(EMPTY_CACHE, Slot(key, p), s, idle, now);
    var c1 := Apply(md5, EMPTY_CACHE, a);
    AddToSlots(c1, Slot(key, q), t, idle, now);
    Recounted(md5, Apply(md5, c1, b), key, p, q);
  }

  lemma Recounted(md5: Bytes -> Hash, c: Cache, key: string, p: byte, q: byte)
    requires CacheInv(c.disk) && c.disk.slots == {Slot(key, p), Slot(key, q)} && c.disk.keyDirs.Keys == {key} && p != q
    ensures var e := Apply(md5, c, Recount);
      && e.disk == c.disk && StreamsCovered(e) && !SlotsCovered(e)
      && SomeFiresOn(md5, e, [Delete(Slot(key, p)), Delete(Slot(key, q))], StreamKeys)
  {
    TwoDeletions(md5, Apply(md5, c, Recount), Slot(key, p), Slot(key, q));
  }

  lemma TwoDeletions(md5: Bytes -> Hash, c: Cache, a: Slot, b: Slot)
    requires CacheInv(c.disk) && a in c.disk.slots && b in c.disk.slots && a != b && c.counts.streams == 1
    ensures SomeFiresOn(md5, c, [Delete(a), Delete(b)], StreamKeys)
  {
    ApplyInv(md5, c, Delete(a));
    DeleteKeepsSlots(c, a);
    assert [Delete(a), Delete(b)][1..] == [Delete(b)];
    assert FiresOn(Apply(md5, c, Delete(a)), Delete(b), StreamKeys);
  }
}
