/**
 * What deleting a key leaves behind.  A source that nobody else refers to is
 * said to be removed with the pictures only it used; the code removes it if
 * it was never filled, and never removes a picture.
 */
module Leftovers {
  import opened CacheTypes
  import opened FileSystem
  import opened CacheInvariant
  import opened Operations
  import opened Delivery
  import opened Runs

  /** Pool objects are as before, with the same link counts. */
  ghost predicate PoolUntouched(d: Disk, e: Disk)
    requires FsInv(d) && FsInv(e)
  {
    forall h :: (ObjFile(h) in d.files <==> ObjFile(h) in e.files) &&
                (ObjFile(h) in d.files ==> e.At(ObjFile(h)) == d.At(ObjFile(h)))
  }

  /** Unlinking an entry that is not an output changes nothing about the pool. */
  lemma UnlinkKeepsPool(d: Disk, p: FilePath)
    requires CacheInv(d) && p in d.files && !Anchor(p).ObjFile?
    ensures FsInv(Remove(d, {p})) && PoolUntouched(d, Remove(d, {p}))
  {
    RemoveKeeps(d, {p});
    forall h | ObjFile(h) in d.files
      ensures Remove(d, {p}).files[ObjFile(h)] == d.files[ObjFile(h)]
      ensures Remove(d, {p}).At(ObjFile(h)) == d.At(ObjFile(h))
    {
      assert Anchor(ObjFile(h)) != Anchor(p);
      RemoveSurvivor(d, {p}, ObjFile(h));
      assert Links(d, d.files[ObjFile(h)]) - {p} == Links(d, d.files[ObjFile(h)]);
    }
  }

  /**
   * Of a source, `.ref` goes if and only if nobody links to it, the directory
   * goes if and only if there is no output either, and nothing else changes.
   */
  lemma DeleteSourceExact(c: Cache, source: Hash)
    requires CacheInv(c.disk) && SrcFile(source, Ref) in c.disk.files
    ensures var e := DeleteSource(c, source).disk;
      && CacheInv(e)
      && (SrcFile(source, Ref) !in e.files <==> c.disk.At(SrcFile(source, Ref)).nlink < 2)
      && (source !in e.srcDirs <==> c.disk.At(SrcFile(source, Ref)).nlink < 2 && !HasOutputs(c.disk, source))
      && e.srcDirs + {source} == c.disk.srcDirs
      && e.slots == c.disk.slots && e.keyDirs == c.disk.keyDirs
      && (forall p :: p != SrcFile(source, Ref) ==> (p in e.files <==> p in c.disk.files))
      && PoolUntouched(c.disk, e)
  {
    var ref := SrcFile(source, Ref);
    assert ParentExists(c.disk, ref);
    DeleteSourceInv(c, source);
    if c.disk.At(ref).nlink < 2 {
      UnlinkKeepsPool(c.disk, ref);
    }
  }

  /** Unlinking a key's link takes one off the count of its source. */
  lemma UnlinkedCount(d: Disk, slot: Slot, source: Hash)
    requires CacheInv(d) && KeyLink(slot, source) in d.files
    ensures var e := Remove(d, {KeyLink(slot, source)});
      && CacheInv(e) && SrcFile(source, Ref) in d.files && SrcFile(source, Ref) in e.files
      && e.At(SrcFile(source, Ref)).nlink == d.At(SrcFile(source, Ref)).nlink - 1
  {
    var link, ref := KeyLink(slot, source), SrcFile(source, Ref);
    LinkedSourceExists(d, slot, source);
    UnlinkSlotInv(d, slot, source);
    RemoveSurvivor(d, {link}, ref);
    assert link in Links(d, d.files[ref]);
  }

  /**
   * Deleting the last key of a source removes the source if and only if it
   * was never filled, and no picture is removed or left with a smaller count.
   */
  lemma DeleteKeyExact(c: Cache, slot: Slot, source: Hash)
    requires CacheInv(c.disk) && KeyLink(slot, source) in c.disk.files
    ensures var e := DeleteKey(c, slot).disk;
      && CacheInv(e) && SrcFile(source, Ref) in c.disk.files
      && (SrcFile(source, Ref) !in e.files <==> Holders(c.disk, source) == {slot})
      && (source !in e.srcDirs <==> Holders(c.disk, source) == {slot} && !HasOutputs(c.disk, source))
      && (forall n: SrcName :: n.Out? ==> (SrcFile(source, n) in e.files <==> SrcFile(source, n) in c.disk.files))
      && PoolUntouched(c.disk, e)
  {
    var link := KeyLink(slot, source);
    CurrentLinkIs(c.disk, slot, source);
    LinkedSourceExists(c.disk, slot, source);
    UnlinkedCount(c.disk, slot, source);
    UnlinkKeepsPool(c.disk, link);
    OnlyHolder(c.disk, slot, source);
    DeleteKeyInv(c, slot);
    DeleteSourceExact(c.(disk := Remove(c.disk, {link})), source);
  }

  lemma OnlyHolder(d: Disk, slot: Slot, source: Hash)
    requires CacheInv(d) && KeyLink(slot, source) in d.files
    ensures SrcFile(source, Ref) in d.files
    ensures d.At(SrcFile(source, Ref)).nlink <= 2 <==> Holders(d, source) == {slot}
  {
    LinkedSourceExists(d, slot, source);
    RefCountsHolders(d, source);
    assert slot in Holders(d, source);
    if |Holders(d, source)| <= 1 {
      assert |Holders(d, source) - {slot}| == 0;
    }
  }

  /**
   * It happens: a key is added, its source is filled with a picture, the key
   * is deleted, and no key is left.  The source directory, the output and the
   * pool object are still there, the object with a count that says it is used.
   */
  lemma FilledSourceStays(md5: Bytes -> Hash, slot: Slot, source: Hash, i: Import, now: Timespec)
    requires Importable(i)
    ensures var env := AllFine(now);
      var d := Run(md5, EMPTY_CACHE, [AddKey(slot, source, Pending({}, None), env),
                                     Update(source, [PendingKey(slot, SourceUnknown)], UpdateEnv([i], [])),
                                     Delete(slot)]).disk;
      && CurrentLink(d, slot) == None && SrcFile(source, Ref) !in d.files
      && source in d.srcDirs && SrcFile(source, OutputOf(md5, i)) in d.files
      && ObjFile(OutputOf(md5, i).hash) in d.files && d.At(ObjFile(OutputOf(md5, i).hash)).nlink >= 2
  {
    var add := AddKey(slot, source, Pending({}, None), AllFine(now));
    var fill := Update(source, [PendingKey(slot, SourceUnknown)], UpdateEnv([i], []));
    var c1 := Apply(md5, EMPTY_CACHE, add);
    ApplyInv(md5, EMPTY_CACHE, add);
    AddToEmpty(slot, source, add.env);
    FillWithOne(md5, c1, slot, source, i);
    var c2 := Apply(md5, c1, fill);
    HoldersKept(c1.disk, c2.disk, slot, source);
    DeleteKeyExact(c2, slot, source);
    var c3 := Apply(md5, c2, Delete(slot));
    ThreeSteps(md5, add, fill, Delete(slot));
    OutputKept(md5, c3.disk, source, OutputOf(md5, i));
    DeletedUnlinks(c2, slot);
  }

  lemma HoldersKept(d: Disk, e: Disk, slot: Slot, source: Hash)
    requires CacheInv(d) && d.files.Keys == {SrcFile(source, Ref), KeyLink(slot, source)} && slot in d.slots
    requires e.slots == d.slots && forall t, s :: KeyLink(t, s) in e.files <==> KeyLink(t, s) in d.files
    ensures Holders(e, source) == {slot}
  {
  }

  lemma DeletedUnlinks(c: Cache, slot: Slot)
    requires CacheInv(c.disk) && slot in c.disk.slots
    ensures CurrentLink(DeleteKey(c, slot).disk, slot) == None
  {
  }

  lemma OutputKept(md5: Bytes -> Hash, d: Disk, source: Hash, n: SrcName)
    requires CacheInv(d) && n.Out? && SrcFile(source, n) in d.files
    ensures ObjFile(n.hash) in d.files && d.At(ObjFile(n.hash)).nlink >= 2
  {
    assert Anchor(SrcFile(source, n)) == ObjFile(n.hash);
    ObjectCountsOutputs(d, n.hash);
    assert SrcFile(source, n) in OutputsNaming(d, n.hash);
  }

  lemma ThreeSteps(md5: Bytes -> Hash, a: Step, b: Step, c: Step)
    ensures CacheInv(Apply(md5, EMPTY_CACHE, a).disk)
    ensures CacheInv(Apply(md5, Apply(md5, EMPTY_CACHE, a), b).disk)
    ensures Run(md5, EMPTY_CACHE, [a, b, c]) == Apply(md5, Apply(md5, Apply(md5, EMPTY_CACHE, a), b), c)
  {
    ApplyInv(md5, EMPTY_CACHE, a);
    var c1 := Apply(md5, EMPTY_CACHE, a);
    ApplyInv(md5, c1, b);
    var c2 := Apply(md5, c1, b);
    ApplyInv(md5, c2, c);
    assert [a, b, c][1..] == [b, c] && [b, c][1..] == [c] && [c][1..] == [];
    assert Run(md5, c2, [c]) == Run(md5, Apply(md5, c2, c), []);
  }

  /** An object that is not shared goes; the counter follows if it was the last one in its two-letter directory. */
  lemma DeleteObjectExact(c: Cache, hash: Hash)
    requires CacheInv(c.disk) && |hash.hex| == 32 && forall h :: ObjFile(h) in c.disk.files ==> |h.hex| == 32
    ensures var e := DeleteObject(c, hash);
      var gone := ObjFile(hash) in c.disk.files && c.disk.At(ObjFile(hash)).nlink < 2;
      && (forall p :: p in e.disk.files <==> p in c.disk.files && !(gone && p == ObjFile(hash)))
      && (!gone ==> e == c)
      && (gone ==>
            var last := forall h :: ObjFile(h) in c.disk.files && h.hex[..2] == hash.hex[..2] ==> h == hash;
            && e.counts.streams == c.counts.streams && e.counts.sources == c.counts.sources
            && e.counts.objects == if last && c.counts.objects > 0 then c.counts.objects - 1 else c.counts.objects)
  {
    var d := Remove(c.disk, {ObjFile(hash)});
    forall h
      ensures ObjFile(h) in PoolDirMates(d, hash) <==>
        ObjFile(h) in c.disk.files && h != hash && h.hex[..2] == hash.hex[..2]
    {
    }
    if p :| p in PoolDirMates(d, hash) {
      assert p == ObjFile(p.hash);
    }
  }
}
