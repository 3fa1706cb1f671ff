/**
 * The object pool stays content-addressed and counted, and source
 * directories never outnumber their counter.
 */
module Accounting {
  import opened CacheTypes
  import opened FileSystem
  import opened CacheInvariant
  import opened Operations

  function PoolFiles(d: Disk): set<FilePath> {
    set p | p in d.files && p.ObjFile?
  }

  /** Every pool object is filed under the hash of its bytes. */
  ghost predicate ContentAddressed(md5: Bytes -> Hash, d: Disk)
    requires FsInv(d)
  {
    forall h :: ObjFile(h) in d.files ==> md5(d.At(ObjFile(h)).content) == h
  }

  ghost predicate Accounted(md5: Bytes -> Hash, c: Cache) {
    && CacheInv(c.disk)
    && ContentAddressed(md5, c.disk)
    && c.counts.objects == |PoolFiles(c.disk)|
  }

  /** So is every `format:hash` entry of a source. */
  lemma OutputsAddressed(md5: Bytes -> Hash, d: Disk, source: Hash, format: string, hash: Hash)
    requires CacheInv(d) && ContentAddressed(md5, d) && SrcFile(source, Out(format, hash)) in d.files
    ensures md5(d.At(SrcFile(source, Out(format, hash))).content) == hash
  {
    assert Anchor(SrcFile(source, Out(format, hash))) == ObjFile(hash);
  }

  // ---------- operations that leave the pool alone ----------

  ghost predicate SamePool(d: Disk, e: Disk)
    requires FsInv(d) && FsInv(e)
  {
    forall h :: SameFile(d, e, ObjFile(h))
  }

  lemma SamePoolAddressed(md5: Bytes -> Hash, d: Disk, e: Disk)
    requires FsInv(d) && FsInv(e) && SamePool(d, e)
    ensures PoolFiles(e) == PoolFiles(d)
    ensures ContentAddressed(md5, d) ==> ContentAddressed(md5, e)
  {
  }

  lemma RemovePool(d: Disk, victims: set<FilePath>)
    requires FsInv(d) && forall h :: ObjFile(h) !in victims
    ensures FsInv(Remove(d, victims)) && SamePool(d, Remove(d, victims))
  {
    RemoveKeeps(d, victims);
    forall h
      ensures SameFile(d, Remove(d, victims), ObjFile(h))
    {
      if ObjFile(h) in d.files {
        RemoveSurvivor(d, victims, ObjFile(h));
      }
    }
  }

  lemma TouchPool(d: Disk, source: Hash, now: Timespec, touch: Fault)
    requires CacheInv(d) && source in d.srcDirs && SrcFile(source, Ref) !in d.files
    ensures CacheInv(Touch(d, source, now, touch).0) && SamePool(d, Touch(d, source, now, touch).0)
  {
    TouchInv(d, source, now, touch);
  }

  lemma ClearedPool(d: Disk, source: Hash)
    requires FsInv(d)
    ensures var e := Remove(d, FilesOfSources(d, {source}));
      FsInv(e) && SamePool(d, e)
  {
    RemovePool(d, FilesOfSources(d, {source}));
  }

  lemma MkSourceEntryPool(d: Disk, source: Hash, now: Timespec, mkdir: Fault, touch: Fault)
    requires CacheInv(d)
    ensures CacheInv(MkSourceEntry(d, source, now, mkdir, touch).0)
    ensures SamePool(d, MkSourceEntry(d, source, now, mkdir, touch).0)
    ensures var (e, r) := MkSourceEntry(d, source, now, mkdir, touch);
      |e.srcDirs| <= |d.srcDirs| + if r.SourceInserted? || touch != Fine then 1 else 0
  {
    MkSourceEntryInv(d, source, now, mkdir, touch);
    if mkdir == Fine && SrcFile(source, Ref) !in d.files {
      if source in d.srcDirs {
        ClearedInv(d, source);
        ClearedPool(d, source);
        TouchPool(Remove(d, FilesOfSources(d, {source})), source, now, touch);
      } else {
        GrowSources(d, source);
        TouchPool(d.(srcDirs := d.srcDirs + {source}), source, now, touch);
      }
    }
  }

  lemma NewLinkPool(d: Disk, slot: Slot, source: Hash, onSuccess: AddKeyResult, link: Fault)
    requires CacheInv(d) && slot in d.slots && forall s :: KeyLink(slot, s) !in d.files
    ensures var e := NewLink(d, slot, source, onSuccess, link).0;
      CacheInv(e) && SamePool(d, e) && e.srcDirs == d.srcDirs
  {
    NewLinkInv(d, slot, source, onSuccess, link);
  }

  lemma LinkToSourcePool(d: Disk, slot: Slot, source: Hash, ifAdded: AddKeyResult, link: Fault)
    requires CacheInv(d)
    ensures var e := LinkToSource(d, slot, source, ifAdded, link).0;
      CacheInv(e) && SamePool(d, e) && e.srcDirs == d.srcDirs
  {
    if slot in d.slots {
      match CurrentLink(d, slot)
      case None => NewLinkPool(d, slot, source, ifAdded, link);
      case Some(prior) =>
        if prior != source {
          UnlinkSlotInv(d, slot, prior);
          RemovePool(d, {KeyLink(slot, prior)});
          NewLinkPool(Remove(d, {KeyLink(slot, prior)}), slot, source, Replaced, link);
        }
    }
  }

  lemma AddSlotPool(c: Cache, slot: Slot, source: Hash, isNew: bool, pending: Pending, env: AddEnv)
    requires CacheInv(c.disk)
    ensures var r := AddSlot(c, slot, source, isNew, pending, env).cache;
      && CacheInv(r.disk)
      && SamePool(c.disk, r.disk)
      && r.counts.objects == c.counts.objects && r.counts.sources == c.counts.sources
      && r.disk.srcDirs == c.disk.srcDirs
  {
    if slot in c.disk.slots {
      LinkToSourcePool(c.disk, slot, source, Inserted, env.link);
    } else {
      MakeSlotInv(c.disk, slot, env.now);
      LinkToSourcePool(MakeSlot(c.disk, slot, env.now), slot, source, if isNew then SourceUnknown else Inserted,
                       env.link);
    }
  }

  lemma AddStreamKeyPool(c: Cache, slot: Slot, source: Hash, pending: Pending, env: AddEnv)
    requires CacheInv(c.disk)
    ensures var r := AddStreamKey(c, slot, source, pending, env).cache;
      && CacheInv(r.disk)
      && SamePool(c.disk, r.disk)
      && r.counts.objects == c.counts.objects
      && (env.touch == Fine && c.counts.sources >= |c.disk.srcDirs| ==> r.counts.sources >= |r.disk.srcDirs|)
  {
    AddStreamKeyInv(c, slot, source, pending, env);
    MkSourceEntryPool(c.disk, source, env.now, env.mkdirSource, env.touch);
    var (d, r) := MkSourceEntry(c.disk, source, env.now, env.mkdirSource, env.touch);
    var counts := if r.SourceInserted? then c.counts.AddSource() else c.counts;
    AddSlotPool(Cache(d, counts), slot, source, IsNewSource(r, source, pending), pending, env);
  }

  lemma DeleteSourcePool(c: Cache, source: Hash)
    requires CacheInv(c.disk)
    ensures var r := DeleteSource(c, source);
      && CacheInv(r.disk)
      && SamePool(c.disk, r.disk)
      && r.counts.objects == c.counts.objects
      && (c.counts.sources >= |c.disk.srcDirs| ==> r.counts.sources >= |r.disk.srcDirs|)
  {
    DeleteSourceInv(c, source);
    var ref := SrcFile(source, Ref);
    if ref in c.disk.files && c.disk.At(ref).nlink < 2 {
      RemovePool(c.disk, {ref});
      assert ParentExists(c.disk, ref);
    }
  }

  lemma DeleteKeyPool(c: Cache, slot: Slot)
    requires CacheInv(c.disk)
    ensures var r := DeleteKey(c, slot);
      && CacheInv(r.disk)
      && SamePool(c.disk, r.disk)
      && r.counts.objects == c.counts.objects
      && (c.counts.sources >= |c.disk.srcDirs| ==> r.counts.sources >= |r.disk.srcDirs|)
  {
    DeleteKeyInv(c, slot);
    if slot in c.disk.slots {
      match CurrentLink(c.disk, slot)
      case None =>
      case Some(source) =>
        UnlinkSlotInv(c.disk, slot, source);
        RemovePool(c.disk, {KeyLink(slot, source)});
        DeleteSourcePool(c.(disk := Remove(c.disk, {KeyLink(slot, source)})), source);
    }
  }

  lemma {:induction false} LinkKeysPool(k: KeysOutcome, source: Hash, i: nat, objectsAdded: bool, faults: seq<Fault>)
    requires CacheInv(k.disk) && i <= |k.keys|
    ensures var r := LinkKeys(k, source, i, objectsAdded, faults);
      CacheInv(r.disk) && SamePool(k.disk, r.disk) && r.disk.srcDirs == k.disk.srcDirs
    decreases |k.keys| - i
  {
    if i < |k.keys| && k.GoesOn() {
      LinkOneInv(k, source, i, objectsAdded, FaultAt(faults, i));
      LinkToSourcePool(k.disk, k.keys[i].slot, source, Inserted, FaultAt(faults, i));
      LinkKeysPool(LinkOne(k, source, i, objectsAdded, FaultAt(faults, i)), source, i + 1, objectsAdded, faults);
    }
  }

  lemma RmKeysPool(d: Disk, keys: set<string>)
    requires CacheInv(d)
    ensures CacheInv(RmKeys(d, keys)) && SamePool(d, RmKeys(d, keys))
  {
    RmKeysInv(d, keys);
    RemovePool(d, LinksOfKeys(d, keys));
  }

  lemma RmSourcesPool(d: Disk, sources: set<Hash>)
    requires CacheInv(d) && Unlinked(d, sources)
    ensures CacheInv(RmSources(d, sources)) && SamePool(d, RmSources(d, sources))
  {
    RmSourcesInv(d, sources);
    RemovePool(d, FilesOfSources(d, sources));
  }

  // ---------- operations that change the pool ----------

  lemma ImportObjectAccounted(md5: Bytes -> Hash, c: Cache, i: Import)
    requires Accounted(md5, c) && i.content.Some?
    ensures var r := ImportObject(md5, c, i);
      && Accounted(md5, r.cache)
      && r.cache.disk.srcDirs == c.disk.srcDirs
      && r.cache.counts.sources == c.counts.sources
  {
    var h := md5(i.content.value);
    var r := ImportObject(md5, c, i);
    if ObjFile(h) !in c.disk.files && r.added {
      CreateInv(c.disk, ObjFile(h), i.content.value, i.atime);
      assert PoolFiles(r.cache.disk) == PoolFiles(c.disk) + {ObjFile(h)};
    }
  }

  lemma LinkOutputPool(d: Disk, source: Hash, name: SrcName, link: Fault)
    requires CacheInv(d) && name.Out? && ObjFile(name.hash) in d.files
    ensures var e := LinkOutput(d, source, name, link);
      CacheInv(e) && SamePool(d, e) && e.srcDirs == d.srcDirs
  {
    LinkOutputInv(d, source, name, link);
  }

  lemma MoveOneAccounted(md5: Bytes -> Hash, c: Cache, source: Hash, i: Import)
    requires Accounted(md5, c)
    ensures var r := MoveOne(md5, c, source, i);
      && Accounted(md5, r.cache)
      && r.cache.disk.srcDirs == c.disk.srcDirs
      && r.cache.counts.sources == c.counts.sources
  {
    if i.content.Some? {
      ImportObjectAccounted(md5, c, i);
      ImportObjectFs(md5, c, i);
      var r := ImportObject(md5, c, i);
      if r.result.UpdNotChanged? && PlainName(i.path).Some? {
        var name := Out(PlainName(i.path).value, md5(i.content.value));
        LinkOutputPool(r.cache.disk, source, name, i.link);
        SamePoolAddressed(md5, r.cache.disk, LinkOutput(r.cache.disk, source, name, i.link));
      }
    }
  }

  lemma {:induction false} MoveObjectsAccounted(md5: Bytes -> Hash, c: Cache, source: Hash, imports: seq<Import>,
                                                added: bool)
    requires Accounted(md5, c)
    ensures var r := MoveObjects(md5, c, source, imports, added);
      && Accounted(md5, r.cache)
      && r.cache.disk.srcDirs == c.disk.srcDirs
      && r.cache.counts.sources == c.counts.sources
    decreases |imports|
  {
    if imports != [] {
      MoveOneAccounted(md5, c, source, imports[0]);
      var r := MoveOne(md5, c, source, imports[0]);
      if r.result.UpdNotChanged? {
        MoveObjectsAccounted(md5, r.cache, source, imports[1..], added || r.added);
      }
    }
  }

  lemma UpdateSourceAccounted(md5: Bytes -> Hash, c: Cache, source: Hash, keys: seq<PendingKey>, env: UpdateEnv)
    requires Accounted(md5, c)
    ensures var r := UpdateSource(md5, c, source, keys, env);
      && Accounted(md5, r.cache)
      && r.cache.disk.srcDirs == c.disk.srcDirs
      && r.cache.counts.sources == c.counts.sources
  {
    MoveObjectsAccounted(md5, c, source, env.imports, false);
    var m := MoveObjects(md5, c, source, env.imports, false);
    var k := KeysOutcome(m.cache.disk, keys, UpdNotChanged);
    LinkKeysPool(k, source, 0, m.result != UpdNotChanged, env.linkFaults);
    SamePoolAddressed(md5, m.cache.disk, LinkKeys(k, source, 0, m.result != UpdNotChanged, env.linkFaults).disk);
  }

  lemma RmObjectsAccounted(md5: Bytes -> Hash, d: Disk, victims: set<FilePath>)
    requires CacheInv(d) && ContentAddressed(md5, d)
    requires forall p :: p in victims ==> p.ObjFile? && p in d.files && d.At(p).nlink <= 1
    ensures CacheInv(Remove(d, victims)) && ContentAddressed(md5, Remove(d, victims))
    ensures PoolFiles(Remove(d, victims)) == PoolFiles(d) - victims
  {
    RmObjectsInv(d, victims);
    forall h | ObjFile(h) in Remove(d, victims).files
      ensures md5(Remove(d, victims).At(ObjFile(h)).content) == h
    {
      RemoveSurvivor(d, victims, ObjFile(h));
    }
  }
}
