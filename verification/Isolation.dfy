/**
 * Sources and pictures are shared between keys, yet an operation on one key
 * does not change what any other key leads to.
 */
module Isolation {
  import opened CacheTypes
  import opened FileSystem
  import opened CacheInvariant
  import opened Operations

  // ---------- frames of the primitives ----------

  /** `p` is the slot's link or a file of the source it links to. */
  ghost predicate Visible(d: Disk, slot: Slot, p: FilePath) {
    match p
    case KeyLink(s, _) => s == slot
    case SrcFile(source, _) => KeyLink(slot, source) in d.files
    case ObjFile(_) => false
  }

  lemma RemoveView(d: Disk, victims: set<FilePath>, slot: Slot)
    requires CacheInv(d) && CacheInv(Remove(d, victims))
    requires forall p :: p in victims ==> !Visible(d, slot, p)
    ensures View(Remove(d, victims), slot) == View(d, slot)
  {
    var e := Remove(d, victims);
    forall s, n | KeyLink(slot, s) in d.files
      ensures SameFile(d, e, SrcFile(s, n))
    {
      assert Visible(d, slot, SrcFile(s, n));
      if SrcFile(s, n) in d.files {
        RemoveSurvivor(d, victims, SrcFile(s, n));
      }
    }
    forall s
      ensures KeyLink(slot, s) in d.files <==> KeyLink(slot, s) in e.files
    {
      assert Visible(d, slot, KeyLink(slot, s));
    }
    ViewFrame(d, e, slot);
  }

  lemma AddLinkView(d: Disk, name: FilePath, slot: Slot)
    requires CacheInv(d) && Anchor(name) in d.files && CacheInv(AddLink(d, Anchor(name), name))
    requires !Visible(d, slot, name)
    ensures View(AddLink(d, Anchor(name), name), slot) == View(d, slot)
  {
    ViewFrame(d, AddLink(d, Anchor(name), name), slot);
  }

  lemma CreateView(d: Disk, name: FilePath, content: Bytes, atime: Timespec, slot: Slot)
    requires CacheInv(d) && CacheInv(Create(d, name, content, atime))
    requires !Visible(d, slot, name)
    ensures View(Create(d, name, content, atime), slot) == View(d, slot)
  {
    ViewFrame(d, Create(d, name, content, atime), slot);
  }

  /** The directories around the files do not matter. */
  lemma ReparentView(d: Disk, e: Disk, slot: Slot)
    requires CacheInv(d) && CacheInv(e) && e.files == d.files && e.inodes == d.inodes
    ensures View(e, slot) == View(d, slot)
  {
    ViewFrame(d, e, slot);
  }

  // ---------- adding a key ----------

  lemma ClearedView(d: Disk, source: Hash, slot: Slot)
    requires CacheInv(d) && SrcFile(source, Ref) !in d.files
    ensures var e := Remove(d, FilesOfSources(d, {source}));
      CacheInv(e) && SrcFile(source, Ref) !in e.files && View(e, slot) == View(d, slot)
  {
    NobodyLinks(d, source, slot);
    ClearedInv(d, source);
    RemoveView(d, FilesOfSources(d, {source}), slot);
  }

  lemma MkSourceEntryView(d: Disk, source: Hash, now: Timespec, mkdir: Fault, touch: Fault, slot: Slot)
    requires CacheInv(d)
    ensures CacheInv(MkSourceEntry(d, source, now, mkdir, touch).0)
    ensures View(MkSourceEntry(d, source, now, mkdir, touch).0, slot) == View(d, slot)
    ensures forall s :: KeyLink(slot, s) in MkSourceEntry(d, source, now, mkdir, touch).0.files <==>
      KeyLink(slot, s) in d.files
    ensures MkSourceEntry(d, source, now, mkdir, touch).0.slots == d.slots
  {
    MkSourceEntryInv(d, source, now, mkdir, touch);
    if mkdir == Fine && SrcFile(source, Ref) !in d.files {
      NobodyLinks(d, source, slot);
      var e :=
        if source in d.srcDirs then Remove(d, FilesOfSources(d, {source}))
        else d.(srcDirs := d.srcDirs + {source});
      if source in d.srcDirs {
        ClearedView(d, source, slot);
      } else {
        GrowSources(d, source);
        ReparentView(d, e, slot);
      }
      if touch == Fine {
        CreateView(e, SrcFile(source, Ref), [], now, slot);
      }
    }
  }

  lemma NobodyLinks(d: Disk, source: Hash, slot: Slot)
    requires CacheInv(d) && SrcFile(source, Ref) !in d.files
    ensures KeyLink(slot, source) !in d.files
  {
  }

  lemma NewLinkView(d: Disk, slot: Slot, source: Hash, onSuccess: AddKeyResult, link: Fault, other: Slot)
    requires CacheInv(d) && slot in d.slots && (forall s :: KeyLink(slot, s) !in d.files) && other != slot
    ensures CacheInv(NewLink(d, slot, source, onSuccess, link).0)
    ensures View(NewLink(d, slot, source, onSuccess, link).0, other) == View(d, other)
  {
    NewLinkInv(d, slot, source, onSuccess, link);
    if link == Fine && SrcFile(source, Ref) in d.files {
      AddLinkView(d, KeyLink(slot, source), other);
    }
  }

  lemma LinkToSourceView(d: Disk, slot: Slot, source: Hash, ifAdded: AddKeyResult, link: Fault, other: Slot)
    requires CacheInv(d) && other != slot
    ensures CacheInv(LinkToSource(d, slot, source, ifAdded, link).0)
    ensures View(LinkToSource(d, slot, source, ifAdded, link).0, other) == View(d, other)
  {
    LinkToSourceInv(d, slot, source, ifAdded, link);
    if slot in d.slots {
      match CurrentLink(d, slot)
      case None => NewLinkView(d, slot, source, ifAdded, link, other);
      case Some(prior) =>
        if prior != source {
          UnlinkSlotInv(d, slot, prior);
          RemoveView(d, {KeyLink(slot, prior)}, other);
          NewLinkView(Remove(d, {KeyLink(slot, prior)}), slot, source, Replaced, link, other);
        }
    }
  }

  lemma AddSlotIsolated(c: Cache, slot: Slot, source: Hash, isNew: bool, pending: Pending, env: AddEnv, other: Slot)
    requires CacheInv(c.disk) && other != slot
    ensures CacheInv(AddSlot(c, slot, source, isNew, pending, env).cache.disk)
    ensures View(AddSlot(c, slot, source, isNew, pending, env).cache.disk, other) == View(c.disk, other)
  {
    if env.mkdirSlot != Fine {
      MakeKeyDirInv(c.disk, slot.key, env.now);
      ReparentView(c.disk, MakeKeyDir(c.disk, slot.key, env.now), other);
    } else if slot in c.disk.slots {
      LinkToSourceView(c.disk, slot, source, Inserted, env.link, other);
    } else {
      NewSlotView(c.disk, slot, source, if isNew then SourceUnknown else Inserted, env, other);
    }
  }

  lemma NewSlotView(d: Disk, slot: Slot, source: Hash, ifAdded: AddKeyResult, env: AddEnv, other: Slot)
    requires CacheInv(d) && other != slot
    ensures CacheInv(MakeSlot(d, slot, env.now))
    ensures var e := LinkToSource(MakeSlot(d, slot, env.now), slot, source, ifAdded, env.link).0;
      CacheInv(e) && View(e, other) == View(d, other)
  {
    MakeSlotInv(d, slot, env.now);
    ReparentView(d, MakeSlot(d, slot, env.now), other);
    LinkToSourceView(MakeSlot(d, slot, env.now), slot, source, ifAdded, env.link, other);
  }

  /** Adding a key does not touch what any other key leads to. */
  lemma AddStreamKeyIsolated(c: Cache, slot: Slot, source: Hash, pending: Pending, env: AddEnv, other: Slot)
    requires CacheInv(c.disk) && other != slot
    ensures CacheInv(AddStreamKey(c, slot, source, pending, env).cache.disk)
    ensures View(AddStreamKey(c, slot, source, pending, env).cache.disk, other) == View(c.disk, other)
  {
    MkSourceEntryView(c.disk, source, env.now, env.mkdirSource, env.touch, other);
    var (d, r) := MkSourceEntry(c.disk, source, env.now, env.mkdirSource, env.touch);
    var counts := if r.SourceInserted? then c.counts.AddSource() else c.counts;
    AddSlotIsolated(Cache(d, counts), slot, source, IsNewSource(r, source, pending), pending, env, other);
  }

  // ---------- deleting a key ----------

  lemma DeleteSourceView(c: Cache, source: Hash, slot: Slot)
    requires CacheInv(c.disk)
    ensures CacheInv(DeleteSource(c, source).disk)
    ensures View(DeleteSource(c, source).disk, slot) == View(c.disk, slot)
  {
    DeleteSourceInv(c, source);
    var ref := SrcFile(source, Ref);
    if ref in c.disk.files && c.disk.At(ref).nlink < 2 {
      UnsharedRef(c.disk, source, slot);
      DropOwner(c.disk, ref);
      RemoveView(c.disk, {ref}, slot);
      ReparentView(Remove(c.disk, {ref}), DeleteSource(c, source).disk, slot);
    }
  }

  lemma UnsharedRef(d: Disk, source: Hash, slot: Slot)
    requires CacheInv(d) && SrcFile(source, Ref) in d.files && d.At(SrcFile(source, Ref)).nlink <= 1
    ensures KeyLink(slot, source) !in d.files
  {
    if KeyLink(slot, source) in d.files {
      LinkedSourceExists(d, slot, source);
    }
  }

  /** Deleting a key does not touch what any other key leads to. */
  lemma DeleteKeyIsolated(c: Cache, slot: Slot, other: Slot)
    requires CacheInv(c.disk) && other != slot
    ensures CacheInv(DeleteKey(c, slot).disk)
    ensures View(DeleteKey(c, slot).disk, other) == View(c.disk, other)
  {
    DeleteKeyInv(c, slot);
    if slot in c.disk.slots {
      match CurrentLink(c.disk, slot)
      case None => ReparentView(c.disk, DeleteKey(c, slot).disk, other);
      case Some(source) =>
        UnlinkSlotInv(c.disk, slot, source);
        RemoveView(c.disk, {KeyLink(slot, source)}, other);
        var e := c.(disk := Remove(c.disk, {KeyLink(slot, source)}));
        DeleteSourceView(e, source, other);
        ReparentView(DeleteSource(e, source).disk, DeleteKey(c, slot).disk, other);
    }
  }

  // ---------- updating a source ----------

  lemma MoveOneView(md5: Bytes -> Hash, c: Cache, source: Hash, i: Import, slot: Slot)
    requires CacheInv(c.disk) && KeyLink(slot, source) !in c.disk.files
    ensures CacheInv(MoveOne(md5, c, source, i).cache.disk)
    ensures View(MoveOne(md5, c, source, i).cache.disk, slot) == View(c.disk, slot)
    ensures KeyLink(slot, source) !in MoveOne(md5, c, source, i).cache.disk.files
  {
    MoveOneInv(md5, c, source, i);
    if i.content.Some? {
      var h := md5(i.content.value);
      var r := ImportObject(md5, c, i);
      if ObjFile(h) !in c.disk.files {
        CreateInv(c.disk, ObjFile(h), i.content.value, i.atime);
        CreateView(c.disk, ObjFile(h), i.content.value, i.atime, slot);
      }
      if r.result.UpdNotChanged? && PlainName(i.path).Some? {
        LinkOutputView(r.cache.disk, source, Out(PlainName(i.path).value, h), i.link, slot);
      }
    }
  }

  lemma LinkOutputView(d: Disk, source: Hash, name: SrcName, link: Fault, slot: Slot)
    requires CacheInv(d) && name.Out? && ObjFile(name.hash) in d.files && KeyLink(slot, source) !in d.files
    ensures CacheInv(LinkOutput(d, source, name, link))
    ensures View(LinkOutput(d, source, name, link), slot) == View(d, slot)
    ensures KeyLink(slot, source) !in LinkOutput(d, source, name, link).files
  {
    LinkOutputInv(d, source, name, link);
    if link == Fine && source in d.srcDirs && SrcFile(source, name) !in d.files {
      AddLinkView(d, SrcFile(source, name), slot);
    }
  }

  lemma {:induction false} MoveObjectsView(md5: Bytes -> Hash, c: Cache, source: Hash, imports: seq<Import>,
                                           added: bool, slot: Slot)
    requires CacheInv(c.disk) && KeyLink(slot, source) !in c.disk.files
    ensures CacheInv(MoveObjects(md5, c, source, imports, added).cache.disk)
    ensures View(MoveObjects(md5, c, source, imports, added).cache.disk, slot) == View(c.disk, slot)
    decreases |imports|
  {
    if imports != [] {
      MoveOneView(md5, c, source, imports[0], slot);
      var r := MoveOne(md5, c, source, imports[0]);
      if r.result.UpdNotChanged? {
        MoveObjectsView(md5, r.cache, source, imports[1..], added || r.added, slot);
      }
    }
  }

  ghost predicate Mentions(keys: seq<PendingKey>, slot: Slot) {
    exists i :: 0 <= i < |keys| && keys[i].slot == slot
  }

  lemma {:induction false} LinkKeysView(k: KeysOutcome, source: Hash, i: nat, objectsAdded: bool, faults: seq<Fault>,
                                        slot: Slot)
    requires CacheInv(k.disk) && i <= |k.keys| && !Mentions(k.keys, slot)
    ensures CacheInv(LinkKeys(k, source, i, objectsAdded, faults).disk)
    ensures View(LinkKeys(k, source, i, objectsAdded, faults).disk, slot) == View(k.disk, slot)
    decreases |k.keys| - i
  {
    if i < |k.keys| && k.GoesOn() {
      LinkOneInv(k, source, i, objectsAdded, FaultAt(faults, i));
      LinkToSourceView(k.disk, k.keys[i].slot, source, Inserted, FaultAt(faults, i), slot);
      LinkKeysView(LinkOne(k, source, i, objectsAdded, FaultAt(faults, i)), source, i + 1, objectsAdded, faults, slot);
    }
  }

  /** Filling a source does not touch a key that is neither pending on it nor linked to it. */
  lemma UpdateSourceIsolated(md5: Bytes -> Hash, c: Cache, source: Hash, keys: seq<PendingKey>, env: UpdateEnv,
                             slot: Slot)
    requires CacheInv(c.disk) && !Mentions(keys, slot) && KeyLink(slot, source) !in c.disk.files
    ensures CacheInv(UpdateSource(md5, c, source, keys, env).cache.disk)
    ensures View(UpdateSource(md5, c, source, keys, env).cache.disk, slot) == View(c.disk, slot)
  {
    UpdateSourceInv(md5, c, source, keys, env);
    MoveObjectsView(md5, c, source, env.imports, false, slot);
    var m := MoveObjects(md5, c, source, env.imports, false);
    LinkKeysView(KeysOutcome(m.cache.disk, keys, UpdNotChanged), source, 0, m.result != UpdNotChanged, env.linkFaults,
                 slot);
  }

  // ---------- garbage collection ----------

  lemma RmKeysView(d: Disk, keys: set<string>, slot: Slot)
    requires CacheInv(d) && slot.key !in keys
    ensures CacheInv(RmKeys(d, keys))
    ensures View(RmKeys(d, keys), slot) == View(d, slot)
  {
    RmKeysInv(d, keys);
    var victims := LinksOfKeys(d, keys);
    RemoveInv(d, victims);
    RemoveView(d, victims, slot);
    ReparentView(Remove(d, victims), RmKeys(d, keys), slot);
  }

  lemma RmSourcesView(d: Disk, sources: set<Hash>, slot: Slot)
    requires CacheInv(d) && Unlinked(d, sources)
    ensures CacheInv(RmSources(d, sources))
    ensures View(RmSources(d, sources), slot) == View(d, slot)
  {
    RmSourcesInv(d, sources);
    var victims := FilesOfSources(d, sources);
    forall p | p in d.files && p !in victims
      ensures Anchor(p) !in victims
    {
      UnlinkedFiles(d, sources, p);
    }
    RemoveInv(d, victims);
    forall p | p in victims
      ensures !Visible(d, slot, p)
    {
      if KeyLink(slot, p.source) in d.files {
        LinkedSourceExists(d, slot, p.source);
      }
    }
    RemoveView(d, victims, slot);
    ReparentView(Remove(d, victims), RmSources(d, sources), slot);
  }

  lemma RmObjectsView(d: Disk, victims: set<FilePath>, slot: Slot)
    requires CacheInv(d)
    requires forall p :: p in victims ==> p.ObjFile? && p in d.files && d.At(p).nlink <= 1
    ensures CacheInv(Remove(d, victims))
    ensures View(Remove(d, victims), slot) == View(d, slot)
  {
    RmObjectsInv(d, victims);
    RemoveView(d, victims, slot);
  }

  lemma RestampView(d: Disk, keyTimes: map<string, Timespec>, inodeTimes: map<nat, Timespec>, slot: Slot)
    requires CacheInv(d)
    ensures CacheInv(Restamp(d, keyTimes, inodeTimes))
    ensures View(Restamp(d, keyTimes, inodeTimes), slot) == View(d, slot)
  {
    RestampInv(d, keyTimes, inodeTimes);
    ViewFrame(d, Restamp(d, keyTimes, inodeTimes), slot);
  }

  // ---------- keep until filled, then idempotent ----------

  /** An existing key keeps its link while the source it is to get is still new. */
  lemma KeptUntilFilled(c: Cache, slot: Slot, source: Hash, pending: Pending, env: AddEnv)
    requires CacheInv(c.disk) && slot in c.disk.slots
    requires env.mkdirSource == Fine && env.touch == Fine && env.mkdirSlot == Fine
    requires SrcFile(source, Ref) !in c.disk.files || (!HasOutputs(c.disk, source) && source !in pending.queued)
    ensures var r := AddStreamKey(c, slot, source, pending, env);
      && r.result == SourceUnknown
      && CacheInv(r.cache.disk)
      && CurrentLink(r.cache.disk, slot) == CurrentLink(c.disk, slot)
      && View(r.cache.disk, slot) == View(c.disk, slot)
  {
    MkSourceEntryView(c.disk, source, env.now, env.mkdirSource, env.touch, slot);
    if SrcFile(source, Ref) in c.disk.files {
      assert ParentExists(c.disk, SrcFile(source, Ref));
    }
  }

  /** Adding a filled source again changes nothing on disk. */
  lemma AddAgainChangesNothing(c: Cache, slot: Slot, source: Hash, pending: Pending, env: AddEnv)
    requires CacheInv(c.disk) && KeyLink(slot, source) in c.disk.files && HasOutputs(c.disk, source)
    requires env.mkdirSource == Fine && env.mkdirSlot == Fine && !pending.Holds(source)
    ensures AddStreamKey(c, slot, source, pending, env) == AddOutcome(c, NotChanged, None)
  {
    LinkedSourceExists(c.disk, slot, source);
    CurrentLinkIs(c.disk, slot, source);
  }
}
