/**
 * What a round of collection leaves: keys by their age, and sources and
 * pictures by their age or because something that is left still uses them.
 */
module Sweep {
  import opened CacheTypes
  import opened FileSystem
  import opened CacheInvariant
  import opened Operations
  import opened Collection

  /** The keys that are old enough go, with their priorities and links, and nothing else does. */
  lemma StreamsSwept(d: Disk, threshold: Timespec)
    requires CacheInv(d)
    ensures var e := GcStreams(d, threshold);
      && CacheInv(e)
      && (forall k :: k in e.keyDirs <==> k in d.keyDirs && !d.keyDirs[k].Before(threshold))
      && (forall slot :: slot in e.slots <==> slot in d.slots && slot.key in e.keyDirs)
      && (forall slot, s :: KeyLink(slot, s) in e.files <==> KeyLink(slot, s) in d.files && slot.key in e.keyDirs)
      && e.srcDirs == d.srcDirs
      && (forall s, n :: SrcFile(s, n) in e.files <==> SrcFile(s, n) in d.files)
      && (forall h :: ObjFile(h) in e.files <==> ObjFile(h) in d.files)
      && SameTimes(d, e)
  {
    RmKeysInv(d, OldKeys(d, threshold));
    var e := GcStreams(d, threshold);
    forall slot, s
      ensures KeyLink(slot, s) in e.files <==> KeyLink(slot, s) in d.files && slot.key in e.keyDirs
    {
      if KeyLink(slot, s) in d.files {
        LinkedSourceExists(d, slot, s);
      }
    }
    KeptTimes(d, LinksOfKeys(d, OldKeys(d, threshold)), e);
  }

  /** What is left has kept its access time. */
  ghost predicate SameTimes(d: Disk, e: Disk)
    requires FsInv(d) && FsInv(e)
  {
    forall p :: p in e.files ==> p in d.files && e.At(p).atime == d.At(p).atime
  }

  lemma KeptTimes(d: Disk, victims: set<FilePath>, e: Disk)
    requires FsInv(d) && FsInv(e) && e.files == Remove(d, victims).files && e.inodes == Remove(d, victims).inodes
    ensures SameTimes(d, e)
  {
    forall p | p in e.files
      ensures p in d.files && e.At(p).atime == d.At(p).atime
    {
      SurvivorTime(d, victims, e, p);
    }
  }

  /** Some key leads to the source. */
  ghost predicate Used(d: Disk, source: Hash) {
    exists slot :: KeyLink(slot, source) in d.files
  }

  /** Some source has the picture among its outputs. */
  ghost predicate Shown(d: Disk, hash: Hash) {
    exists s, f :: SrcFile(s, Out(f, hash)) in d.files
  }

  /** A source is dead if it has no `.ref`, or nobody uses it and it is old. */
  lemma DeadIffUnused(d: Disk, source: Hash, threshold: Timespec)
    requires CacheInv(d)
    ensures DeadSource(d, source, threshold) <==>
      SrcFile(source, Ref) !in d.files || (!Used(d, source) && d.At(SrcFile(source, Ref)).atime.Before(threshold))
  {
    if SrcFile(source, Ref) in d.files {
      RefCountsHolders(d, source);
      UsedIffHeld(d, source);
    }
  }

  lemma UsedIffHeld(d: Disk, source: Hash)
    requires CacheInv(d)
    ensures Used(d, source) <==> Holders(d, source) != {}
  {
    forall slot
      ensures KeyLink(slot, source) in d.files <==> slot in Holders(d, source)
    {
      assert KeyLink(slot, source) in d.files ==> ParentExists(d, KeyLink(slot, source));
    }
  }

  lemma DeadIffHidden(d: Disk, hash: Hash, threshold: Timespec)
    requires CacheInv(d)
    ensures DeadObject(d, hash, threshold) <==>
      ObjFile(hash) in d.files && !Shown(d, hash) && d.At(ObjFile(hash)).atime.Before(threshold)
  {
    if ObjFile(hash) in d.files {
      ObjectCountsOutputs(d, hash);
      ShownIffNamed(d, hash);
    }
  }

  lemma ShownIffNamed(d: Disk, hash: Hash)
    ensures Shown(d, hash) <==> OutputsNaming(d, hash) != {}
  {
    if s, f :| SrcFile(s, Out(f, hash)) in d.files {
      assert SrcFile(s, Out(f, hash)) in OutputsNaming(d, hash);
    }
    if p :| p in OutputsNaming(d, hash) {
      assert p == SrcFile(p.source, Out(p.name.format, hash));
    }
  }

  /** The sources that are unused and old go, with all their files, and nothing else does. */
  lemma SourcesSwept(d: Disk, threshold: Timespec)
    requires CacheInv(d)
    ensures var e := GcSources(d, threshold);
      && CacheInv(e)
      && e.keyDirs == d.keyDirs && e.slots == d.slots
      && (forall slot, s :: KeyLink(slot, s) in e.files <==> KeyLink(slot, s) in d.files)
      && (forall s :: s in e.srcDirs <==>
            && s in d.srcDirs && SrcFile(s, Ref) in d.files
            && (Used(d, s) || !d.At(SrcFile(s, Ref)).atime.Before(threshold)))
      && (forall s, n :: SrcFile(s, n) in e.files <==> SrcFile(s, n) in d.files && s in e.srcDirs)
      && (forall h :: ObjFile(h) in e.files <==> ObjFile(h) in d.files)
      && SameTimes(d, e)
  {
    var dead := DeadSources(d, threshold);
    RmSourcesInv(d, dead);
    var e := GcSources(d, threshold);
    forall s
      ensures DeadSource(d, s, threshold) <==>
        SrcFile(s, Ref) !in d.files || (!Used(d, s) && d.At(SrcFile(s, Ref)).atime.Before(threshold))
    {
      DeadIffUnused(d, s, threshold);
    }
    forall s, n
      ensures SrcFile(s, n) in e.files <==> SrcFile(s, n) in d.files && s in e.srcDirs
    {
      assert SrcFile(s, n) in d.files ==> ParentExists(d, SrcFile(s, n));
    }
    KeptTimes(d, FilesOfSources(d, dead), e);
  }

  /** The pictures that nobody shows and that are old go, and nothing else does. */
  lemma ObjectsSwept(d: Disk, threshold: Timespec)
    requires CacheInv(d)
    ensures var e := GcObjects(d, threshold);
      && CacheInv(e)
      && e.keyDirs == d.keyDirs && e.slots == d.slots && e.srcDirs == d.srcDirs
      && (forall slot, s :: KeyLink(slot, s) in e.files <==> KeyLink(slot, s) in d.files)
      && (forall s, n :: SrcFile(s, n) in e.files <==> SrcFile(s, n) in d.files)
      && (forall h :: ObjFile(h) in e.files <==>
            ObjFile(h) in d.files && (Shown(d, h) || !d.At(ObjFile(h)).atime.Before(threshold)))
      && SameTimes(d, e)
  {
    var dead := DeadObjects(d, threshold);
    RmObjectsInv(d, dead);
    var e := GcObjects(d, threshold);
    forall h
      ensures ObjFile(h) in dead <==>
        ObjFile(h) in d.files && !Shown(d, h) && d.At(ObjFile(h)).atime.Before(threshold)
    {
      DeadIffHidden(d, h, threshold);
    }
    KeptTimes(d, dead, e);
  }

  /** What is left of `d` in `e`: exactly this. */
  ghost predicate Swept(d: Disk, e: Disk, streams: Timespec, sources: Timespec, objects: Timespec)
    requires FsInv(d)
  {
    && (forall k :: k in e.keyDirs <==> k in d.keyDirs && !d.keyDirs[k].Before(streams))
    && (forall slot :: slot in e.slots <==> slot in d.slots && slot.key in e.keyDirs)
    && (forall slot, s :: KeyLink(slot, s) in e.files <==> KeyLink(slot, s) in d.files && slot.key in e.keyDirs)
    && (forall s :: s in e.srcDirs <==>
          && s in d.srcDirs && SrcFile(s, Ref) in d.files
          && (Used(e, s) || !d.At(SrcFile(s, Ref)).atime.Before(sources)))
    && (forall s, n :: SrcFile(s, n) in e.files <==> SrcFile(s, n) in d.files && s in e.srcDirs)
    && (forall h :: ObjFile(h) in e.files <==>
          && ObjFile(h) in d.files
          && (Shown(e, h) || !d.At(ObjFile(h)).atime.Before(objects)))
  }

  /**
   * A round sweeps: a key stays if it is young, a source if it is young or
   * a key that stays leads to it, a picture if it is young or a source that
   * stays shows it, and everything else goes.
   */
  lemma RoundSweeps(d: Disk, streams: Timespec, sources: Timespec, objects: Timespec)
    requires CacheInv(d)
    ensures Swept(d, Round(d, streams, sources, objects), streams, sources, objects)
  {
    StreamsSwept(d, streams);
    var d1 := GcStreams(d, streams);
    SourcesSwept(d1, sources);
    var d2 := GcSources(d1, sources);
    ObjectsSwept(d2, objects);
    var e := Round(d, streams, sources, objects);
    assert e == GcObjects(d2, objects);
    forall s
      ensures Used(e, s) <==> Used(d1, s)
    {
      assert forall slot :: KeyLink(slot, s) in e.files <==> KeyLink(slot, s) in d1.files;
    }
    forall h
      ensures Shown(e, h) <==> Shown(d2, h)
    {
      assert forall s, f :: SrcFile(s, Out(f, h)) in e.files <==> SrcFile(s, Out(f, h)) in d2.files;
    }
  }
}
