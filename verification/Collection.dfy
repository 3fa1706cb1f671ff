/**
 * One round of garbage collection: keys first, then the sources they left
 * unreferenced, then the pool objects those left unreferenced.
 */
module Collection {
  import opened CacheTypes
  import opened FileSystem
  import opened CacheInvariant
  import opened Operations
  import opened Accounting
  import opened Isolation
  import opened Threshold

  // ---------- the categories and their ages ----------

  function SourceTimes(d: Disk): map<Hash, Timespec>
    requires InodesPresent(d)
  {
    map s | s in d.srcDirs && SrcFile(s, Ref) in d.files :: d.At(SrcFile(s, Ref)).atime
  }

  function ObjectTimes(d: Disk): map<FilePath, Timespec>
    requires InodesPresent(d)
  {
    map p | p in d.files && p.ObjFile? :: d.At(p).atime
  }

  /** Key directories, source directories and pool objects. */
  function Entries(d: Disk): nat {
    |d.keyDirs.Keys| + |d.srcDirs| + |PoolFiles(d)|
  }

  // ---------- the three passes ----------

  function OldKeys(d: Disk, threshold: Timespec): set<string> {
    set k | k in d.keyDirs && d.keyDirs[k].Before(threshold)
  }

  function DeadSources(d: Disk, threshold: Timespec): set<Hash>
    requires InodesPresent(d)
  {
    set s | s in d.srcDirs && DeadSource(d, s, threshold)
  }

  function DeadObjects(d: Disk, threshold: Timespec): set<FilePath>
    requires InodesPresent(d)
  {
    set p | p in d.files && p.ObjFile? && DeadObject(d, p.hash, threshold)
  }

  function GcStreams(d: Disk, threshold: Timespec): Disk {
    RmKeys(d, OldKeys(d, threshold))
  }

  function GcSources(d: Disk, threshold: Timespec): Disk
    requires InodesPresent(d)
  {
    RmSources(d, DeadSources(d, threshold))
  }

  function GcObjects(d: Disk, threshold: Timespec): Disk
    requires InodesPresent(d)
  {
    Remove(d, DeadObjects(d, threshold))
  }

  ghost function Round(d: Disk, streams: Timespec, sources: Timespec, objects: Timespec): Disk
    requires CacheInv(d)
  {
    RmKeysInv(d, OldKeys(d, streams));
    var d1 := GcStreams(d, streams);
    RmSourcesInv(d1, DeadSources(d1, sources));
    GcObjects(GcSources(d1, sources), objects)
  }

  lemma RoundInv(d: Disk, streams: Timespec, sources: Timespec, objects: Timespec)
    requires CacheInv(d)
    ensures CacheInv(Round(d, streams, sources, objects))
  {
    RmKeysInv(d, OldKeys(d, streams));
    var d1 := GcStreams(d, streams);
    RmSourcesInv(d1, DeadSources(d1, sources));
    var d2 := GcSources(d1, sources);
    RmObjectsInv(d2, DeadObjects(d2, objects));
  }

  // ---------- collection preserves meaning ----------

  /** Whatever the thresholds and ages, a key that survives leads to the same pictures as before. */
  lemma RoundPreservesViews(d: Disk, streams: Timespec, sources: Timespec, objects: Timespec, slot: Slot)
    requires CacheInv(d) && slot.key in Round(d, streams, sources, objects).keyDirs
    ensures CacheInv(Round(d, streams, sources, objects))
    ensures View(Round(d, streams, sources, objects), slot) == View(d, slot)
  {
    RmKeysView(d, OldKeys(d, streams), slot);
    var d1 := GcStreams(d, streams);
    RmSourcesView(d1, DeadSources(d1, sources), slot);
    var d2 := GcSources(d1, sources);
    RmObjectsView(d2, DeadObjects(d2, objects), slot);
  }

  // ---------- collection is complete ----------

  /** A pass over the sources leaves no dead source behind. */
  lemma SourcesComplete(d: Disk, threshold: Timespec, source: Hash)
    requires CacheInv(d) && source in GcSources(d, threshold).srcDirs
    ensures CacheInv(GcSources(d, threshold))
    ensures !DeadSource(GcSources(d, threshold), source, threshold)
  {
    var dead := DeadSources(d, threshold);
    RmSourcesInv(d, dead);
    RefUntouched(d, dead, source);
  }

  /** A survivor keeps its reference count when no entry of its inode goes. */
  lemma CountUntouched(d: Disk, victims: set<FilePath>, a: FilePath)
    requires FsInv(d) && a in d.files && forall p :: p in victims ==> p !in Links(d, d.files[a])
    ensures a in Remove(d, victims).files && Remove(d, victims).files[a] in Remove(d, victims).inodes
    ensures Remove(d, victims).At(a) == d.At(a)
  {
  }

  /** Removing other sources does not change a source's reference count. */
  lemma RefUntouched(d: Disk, sources: set<Hash>, source: Hash)
    requires CacheInv(d) && Unlinked(d, sources) && source !in sources
    ensures CacheInv(RmSources(d, sources))
    ensures SrcFile(source, Ref) in d.files <==> SrcFile(source, Ref) in RmSources(d, sources).files
    ensures SrcFile(source, Ref) in d.files ==>
      RmSources(d, sources).At(SrcFile(source, Ref)) == d.At(SrcFile(source, Ref))
  {
    RmSourcesInv(d, sources);
    var ref := SrcFile(source, Ref);
    if ref in d.files {
      forall p | p in FilesOfSources(d, sources)
        ensures p !in Links(d, d.files[ref])
      {
        assert Anchor(p) != Anchor(ref);
      }
      CountUntouched(d, FilesOfSources(d, sources), ref);
    }
  }

  /** An unshared owner's inode belongs to no other entry. */
  lemma OthersElsewhere(d: Disk, p: FilePath, a: FilePath)
    requires CacheInv(d) && p in d.files && Anchor(p) == p && d.At(p).nlink <= 1
    requires a in d.files && a != p
    ensures p !in Links(d, d.files[a])
  {
    if Anchor(a) == p {
      Unshared(d, p);
    }
  }

  /** Removing pool objects does not change the count of any other entry. */
  lemma ObjectsUntouched(d: Disk, victims: set<FilePath>, a: FilePath)
    requires CacheInv(d) && a in d.files && a !in victims
    requires forall p :: p in victims ==> p.ObjFile? && p in d.files && d.At(p).nlink <= 1
    ensures CacheInv(Remove(d, victims))
    ensures a in Remove(d, victims).files && Remove(d, victims).At(a) == d.At(a)
  {
    RmObjectsInv(d, victims);
    forall p | p in victims
      ensures p !in Links(d, d.files[a])
    {
      OthersElsewhere(d, p, a);
    }
    CountUntouched(d, victims, a);
  }

  /**
   * After a round no unreferenced entry older than its threshold is left,
   * not even one that the same round made unreferenced.
   */
  lemma RoundComplete(d: Disk, streams: Timespec, sources: Timespec, objects: Timespec)
    requires CacheInv(d)
    ensures var e := Round(d, streams, sources, objects);
      && CacheInv(e)
      && (forall k :: k in e.keyDirs ==> !e.keyDirs[k].Before(streams))
      && (forall s :: s in e.srcDirs ==> !DeadSource(e, s, sources))
      && (forall h :: ObjFile(h) in e.files ==> !DeadObject(e, h, objects))
  {
    RoundInv(d, streams, sources, objects);
    RmKeysInv(d, OldKeys(d, streams));
    var d1 := GcStreams(d, streams);
    RmSourcesInv(d1, DeadSources(d1, sources));
    var d2 := GcSources(d1, sources);
    var e := Round(d, streams, sources, objects);
    forall s | s in e.srcDirs
      ensures !DeadSource(e, s, sources)
    {
      SourcesComplete(d1, sources, s);
      ObjectsUntouched(d2, DeadObjects(d2, objects), SrcFile(s, Ref));
    }
    forall h | ObjFile(h) in e.files
      ensures !DeadObject(e, h, objects)
    {
      ObjectsUntouched(d2, DeadObjects(d2, objects), ObjFile(h));
    }
  }

  // ---------- one entry at a time ----------

  lemma RmKeysTwice(d: Disk, a: set<string>, b: set<string>)
    requires CacheInv(d)
    ensures RmKeys(RmKeys(d, a), b) == RmKeys(d, a + b)
  {
    var va, vb := LinksOfKeys(d, a), LinksOfKeys(RmKeys(d, a), b);
    RemoveTwice(d, va, vb);
    assert va + vb == LinksOfKeys(d, a + b);
    assert d.keyDirs - a - b == d.keyDirs - (a + b);
    assert RmKeys(RmKeys(d, a), b).slots == RmKeys(d, a + b).slots;
    RedirRemove(Remove(d, va), RmKeys(d, a), vb);
  }

  lemma RmSourcesTwice(d: Disk, a: set<Hash>, b: set<Hash>)
    requires CacheInv(d)
    ensures RmSources(RmSources(d, a), b) == RmSources(d, a + b)
  {
    var va, vb := FilesOfSources(d, a), FilesOfSources(RmSources(d, a), b);
    RemoveTwice(d, va, vb);
    assert va + vb == FilesOfSources(d, a + b);
    assert d.srcDirs - a - b == d.srcDirs - (a + b);
    RedirRemove(Remove(d, va), RmSources(d, a), vb);
  }

  /** Unlinking files does not depend on the directories. */
  lemma RedirRemove(d: Disk, e: Disk, victims: set<FilePath>)
    requires d.files == e.files && d.inodes == e.inodes
    ensures Remove(d, victims).files == Remove(e, victims).files
    ensures Remove(d, victims).inodes == Remove(e, victims).inodes
  {
  }

  // ---------- what a pass does to the ages ----------

  /** Entries that survive an unlinking keep their access times. */
  lemma SurvivorTime(d: Disk, victims: set<FilePath>, e: Disk, p: FilePath)
    requires FsInv(d) && e.files == Remove(d, victims).files && e.inodes == Remove(d, victims).inodes
    requires p in e.files
    ensures p in d.files && e.files[p] in e.inodes && e.At(p).atime == d.At(p).atime
  {
    RemoveSurvivor(d, victims, p);
  }

  /** Ages of the pool do not change unless pool objects go. */
  lemma PoolTimesFrame(d: Disk, victims: set<FilePath>, e: Disk)
    requires FsInv(d) && FsInv(e) && e.files == Remove(d, victims).files && e.inodes == Remove(d, victims).inodes
    requires forall h :: ObjFile(h) !in victims
    ensures ObjectTimes(e) == ObjectTimes(d)
  {
  }

  /** Ages of the sources do not change unless reference files go. */
  lemma SourceTimesFrame(d: Disk, victims: set<FilePath>, e: Disk)
    requires FsInv(d) && FsInv(e) && e.files == Remove(d, victims).files && e.inodes == Remove(d, victims).inodes
    requires e.srcDirs == d.srcDirs && forall s :: SrcFile(s, Ref) !in victims
    ensures SourceTimes(e) == SourceTimes(d)
  {
  }

  lemma GcStreamsTimes(d: Disk, threshold: Timespec)
    requires CacheInv(d)
    ensures CacheInv(GcStreams(d, threshold))
    ensures Decimated(d.keyDirs, GcStreams(d, threshold).keyDirs, threshold)
    ensures SourceTimes(GcStreams(d, threshold)) == SourceTimes(d)
    ensures ObjectTimes(GcStreams(d, threshold)) == ObjectTimes(d)
  {
    var keys := OldKeys(d, threshold);
    RmKeysInv(d, keys);
    SourceTimesFrame(d, LinksOfKeys(d, keys), GcStreams(d, threshold));
    PoolTimesFrame(d, LinksOfKeys(d, keys), GcStreams(d, threshold));
  }

  lemma GcSourcesTimes(d: Disk, threshold: Timespec)
    requires CacheInv(d)
    ensures CacheInv(GcSources(d, threshold))
    ensures GcSources(d, threshold).keyDirs == d.keyDirs
    ensures Decimated(SourceTimes(d), SourceTimes(GcSources(d, threshold)), threshold)
    ensures ObjectTimes(GcSources(d, threshold)) == ObjectTimes(d)
  {
    var dead := DeadSources(d, threshold);
    var e := GcSources(d, threshold);
    RmSourcesInv(d, dead);
    PoolTimesFrame(d, FilesOfSources(d, dead), e);
    forall s | s in SourceTimes(e)
      ensures s in SourceTimes(d) && SourceTimes(e)[s] == SourceTimes(d)[s]
    {
      SurvivorTime(d, FilesOfSources(d, dead), e, SrcFile(s, Ref));
    }
    forall s | s in SourceTimes(d) && s !in dead
      ensures s in SourceTimes(e)
    {
      assert SrcFile(s, Ref) in e.files;
    }
  }

  lemma GcObjectsTimes(d: Disk, threshold: Timespec)
    requires CacheInv(d)
    ensures CacheInv(GcObjects(d, threshold))
    ensures GcObjects(d, threshold).keyDirs == d.keyDirs
    ensures SourceTimes(GcObjects(d, threshold)) == SourceTimes(d)
    ensures Decimated(ObjectTimes(d), ObjectTimes(GcObjects(d, threshold)), threshold)
  {
    var dead := DeadObjects(d, threshold);
    var e := GcObjects(d, threshold);
    RmObjectsInv(d, dead);
    SourceTimesFrame(d, dead, e);
    forall p | p in ObjectTimes(e)
      ensures p in ObjectTimes(d) && ObjectTimes(e)[p] == ObjectTimes(d)[p]
    {
      SurvivorTime(d, dead, e, p);
    }
    assert forall p :: p in ObjectTimes(d) && p !in dead ==> p in ObjectTimes(e);
  }
}
