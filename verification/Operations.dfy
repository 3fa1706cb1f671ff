/**
 * What each critical section of the cache manager does to the disk and the
 * counters, as functions of the state before.  Failing system calls are
 * chosen by the environment through `Fault` arguments.
 */
module Operations {
  import opened CacheTypes
  import opened FileSystem
  import opened CacheInvariant
  import opened Statistics

  datatype Cache = Cache(disk: Disk, counts: Counters)

  // ---------- sources ----------

  ghost predicate HasOutputs(d: Disk, source: Hash) {
    exists n: SrcName :: n.Out? && SrcFile(source, n) in d.files
  }

  function Touch(d: Disk, source: Hash, now: Timespec, touch: Fault): (Disk, AddSourceResult) {
    match touch
    case Fine => (Create(d, SrcFile(source, Ref), [], now), SourceInserted)
    case NoSpace => (d, SourceDiskFull)
    case IoFail => (d, SourceIoError)
  }

  /** A new source directory, or one that lost its `.ref`, gets a new reference count. */
  ghost function MkSourceEntry(d: Disk, source: Hash, now: Timespec, mkdir: Fault, touch: Fault)
    : (Disk, AddSourceResult)
  {
    if mkdir != Fine then
      (d, SourceIoError)
    else if source !in d.srcDirs then
      Touch(d.(srcDirs := d.srcDirs + {source}), source, now, touch)
    else if SrcFile(source, Ref) in d.files then
      (d, if HasOutputs(d, source) then SourceNotChanged else SourceEmpty)
    else
      Touch(Remove(d, FilesOfSources(d, {source})), source, now, touch)
  }

  // ---------- keys ----------

  function LinkError(link: Fault): AddKeyResult {
    if link == NoSpace then DiskFull else IoError
  }

  /** Points a key/prio directory at a source, dropping the link it had. */
  ghost function LinkToSource(d: Disk, slot: Slot, source: Hash, ifAdded: AddKeyResult, link: Fault)
    : (Disk, AddKeyResult)
    requires FsInv(d)
  {
    if slot !in d.slots then
      (d, InternalError)
    else
      match CurrentLink(d, slot)
      case None => NewLink(d, slot, source, ifAdded, link)
      case Some(prior) =>
        if prior == source then
          (d, NotChanged)
        else
          RemoveKeeps(d, {KeyLink(slot, prior)});
          NewLink(Remove(d, {KeyLink(slot, prior)}), slot, source, Replaced, link)
  }

  function NewLink(d: Disk, slot: Slot, source: Hash, onSuccess: AddKeyResult, link: Fault)
    : (Disk, AddKeyResult)
    requires SrcFile(source, Ref) in d.files ==> d.files[SrcFile(source, Ref)] in d.inodes
  {
    if link == Fine && SrcFile(source, Ref) in d.files then
      (AddLink(d, SrcFile(source, Ref), KeyLink(slot, source)), onSuccess)
    else
      (d, LinkError(link))
  }

  /** What the converter queue answers: the sources of waiting jobs and of the running one. */
  datatype Pending = Pending(queued: set<Hash>, running: Option<Hash>) {
    predicate Holds(source: Hash) {
      running == Some(source) || source in queued
    }
  }

  /** When making the priority directory fails, its key directory may have been made before. */
  datatype AddEnv = AddEnv(now: Timespec, mkdirSource: Fault, touch: Fault, mkdirSlot: Fault, keyDirMade: bool,
                           link: Fault)

  function AllFine(now: Timespec): AddEnv {
    AddEnv(now, Fine, Fine, Fine, false, Fine)
  }

  /** `joined` is the source of the job the key was handed to, if any. */
  datatype AddOutcome = AddOutcome(cache: Cache, result: AddKeyResult, joined: Option<Hash>)

  ghost function AddStreamKey(c: Cache, slot: Slot, source: Hash, pending: Pending, env: AddEnv): AddOutcome
    requires CacheInv(c.disk)
  {
    var (d, r) := MkSourceEntry(c.disk, source, env.now, env.mkdirSource, env.touch);
    MkSourceEntryInv(c.disk, source, env.now, env.mkdirSource, env.touch);
    match r
    case SourceIoError => AddOutcome(Cache(d, c.counts), IoError, None)
    case SourceDiskFull => AddOutcome(Cache(d, c.counts), DiskFull, None)
    case _ =>
      var counts := if r.SourceInserted? then c.counts.AddSource() else c.counts;
      AddSlot(Cache(d, counts), slot, source, IsNewSource(r, source, pending), pending, env)
  }

  predicate IsNewSource(r: AddSourceResult, source: Hash, pending: Pending) {
    r.SourceInserted? || (r.SourceEmpty? && source !in pending.queued)
  }

  ghost function AddSlot(c: Cache, slot: Slot, source: Hash, isNew: bool, pending: Pending, env: AddEnv): AddOutcome
    requires FsInv(c.disk)
  {
    if env.mkdirSlot != Fine then
      AddOutcome(if env.keyDirMade then c.(disk := MakeKeyDir(c.disk, slot.key, env.now)) else c, IoError, None)
    else if slot !in c.disk.slots then
      var (d, r) := LinkToSource(MakeSlot(c.disk, slot, env.now), slot, source,
                                 if isNew then SourceUnknown else Inserted, env.link);
      AddOutcome(Cache(d, c.counts.AddStream()), r, None)
    else if isNew then
      AddOutcome(c, SourceUnknown, None)
    else if JoinsJob(c.disk, slot, pending) then
      AddOutcome(c, SourcePending, CurrentLink(c.disk, slot))
    else
      var (d, r) := LinkToSource(c.disk, slot, source, Inserted, env.link);
      AddOutcome(Cache(d, c.counts), r, None)
  }

  ghost predicate JoinsJob(d: Disk, slot: Slot, pending: Pending) {
    CurrentLink(d, slot).Some? && pending.Holds(CurrentLink(d, slot).value)
  }

  // ---------- update after conversion ----------

  datatype Import = Import(path: string, content: Option<Bytes>, atime: Timespec, mkdir: Fault, rename: Fault,
                           link: Fault)

  /** The part of a path after its last '/'. */
  function PlainName(path: string): Option<string> {
    if path == [] then None
    else
      match PlainName(path[1..])
      case Some(name) => Some(name)
      case None => if path[0] == '/' then Some(path[1..]) else None
  }

  datatype MoveOutcome = MoveOutcome(cache: Cache, added: bool, result: UpdateResult)

  /** `UpdNotChanged` lets the import loop go on. */
  function ImportObject(md5: Bytes -> Hash, c: Cache, i: Import): MoveOutcome
    requires i.content.Some?
  {
    var h := md5(i.content.value);
    if ObjFile(h) in c.disk.files then
      MoveOutcome(c, false, UpdNotChanged)
    else if i.mkdir != Fine then
      MoveOutcome(c, false, UpdIoError)
    else
      match i.rename
      case Fine => MoveOutcome(Cache(Create(c.disk, ObjFile(h), i.content.value, i.atime), c.counts.AddObject()),
                               true, UpdNotChanged)
      case NoSpace => MoveOutcome(c, false, UpdDiskFull)
      case IoFail => MoveOutcome(c, false, UpdIoError)
  }

  /** The link is attempted and its result discarded. */
  function LinkOutput(d: Disk, source: Hash, name: SrcName, link: Fault): Disk
    requires name.Out? && ObjFile(name.hash) in d.files && d.files[ObjFile(name.hash)] in d.inodes
  {
    if link == Fine && source in d.srcDirs && SrcFile(source, name) !in d.files then
      AddLink(d, ObjFile(name.hash), SrcFile(source, name))
    else
      d
  }

  ghost function MoveOne(md5: Bytes -> Hash, c: Cache, source: Hash, i: Import): (r: MoveOutcome)
    requires FsInv(c.disk)
  {
    if i.content.None? then
      MoveOutcome(c, false, UpdNotChanged)
    else
      var r := ImportObject(md5, c, i);
      ImportObjectFs(md5, c, i);
      if r.result != UpdNotChanged then
        r
      else
        match PlainName(i.path)
        case None => r.(result := UpdInternalError)
        case Some(format) =>
          r.(cache := r.cache.(disk := LinkOutput(r.cache.disk, source, Out(format, md5(i.content.value)), i.link)))
  }

  ghost function MoveObjects(md5: Bytes -> Hash, c: Cache, source: Hash, imports: seq<Import>, added: bool): MoveOutcome
    requires CacheInv(c.disk)
    decreases |imports|
  {
    if imports == [] then
      MoveOutcome(c, added, if added then UpdSourceOnly else UpdNotChanged)
    else
      var r := MoveOne(md5, c, source, imports[0]);
      MoveOneInv(md5, c, source, imports[0]);
      if r.result != UpdNotChanged then
        r
      else
        MoveObjects(md5, r.cache, source, imports[1..], added || r.added)
  }

  datatype PendingKey = PendingKey(slot: Slot, result: AddKeyResult)

  /** Progress of the loop over the pending keys; `UpdNotChanged` and `UpdKeysOnly` let it go on. */
  datatype KeysOutcome = KeysOutcome(disk: Disk, keys: seq<PendingKey>, result: UpdateResult) {
    predicate GoesOn() {
      result.UpdNotChanged? || result.UpdKeysOnly?
    }
  }

  function FaultAt(faults: seq<Fault>, i: nat): Fault {
    if i < |faults| then faults[i] else Fine
  }

  /** What becomes of the pending key at position `i`. */
  ghost function LinkOne(k: KeysOutcome, source: Hash, i: nat, objectsAdded: bool, link: Fault): KeysOutcome
    requires FsInv(k.disk) && i < |k.keys| && k.GoesOn()
  {
    if k.keys[i].slot !in k.disk.slots then
      k
    else
      var (e, r) := LinkToSource(k.disk, k.keys[i].slot, source, Inserted, link);
      var shown := if r.NotChanged? && objectsAdded then Inserted else r;
      KeysOutcome(e, k.keys[i := PendingKey(k.keys[i].slot, shown)],
        match r
        case NotChanged => k.result
        case Replaced => UpdKeysOnly
        case _ => LinkFailure(r))
  }

  /** Links the pending keys from position `i` on. */
  ghost function LinkKeys(k: KeysOutcome, source: Hash, i: nat, objectsAdded: bool, faults: seq<Fault>): KeysOutcome
    requires CacheInv(k.disk) && i <= |k.keys|
    decreases |k.keys| - i
  {
    if i == |k.keys| || !k.GoesOn() then
      k
    else
      LinkOneInv(k, source, i, objectsAdded, FaultAt(faults, i));
      LinkKeys(LinkOne(k, source, i, objectsAdded, FaultAt(faults, i)), source, i + 1, objectsAdded, faults)
  }

  function LinkFailure(r: AddKeyResult): UpdateResult {
    match r
    case IoError => UpdIoError
    case DiskFull => UpdDiskFull
    case _ => UpdInternalError
  }

  datatype UpdateOutcome = UpdateOutcome(cache: Cache, keys: seq<PendingKey>, result: UpdateResult)

  datatype UpdateEnv = UpdateEnv(imports: seq<Import>, linkFaults: seq<Fault>)

  ghost function UpdateSource(md5: Bytes -> Hash, c: Cache, source: Hash, keys: seq<PendingKey>, env: UpdateEnv)
    : UpdateOutcome
    requires CacheInv(c.disk)
  {
    var m := MoveObjects(md5, c, source, env.imports, false);
    MoveObjectsInv(md5, c, source, env.imports, false);
    if m.result != UpdNotChanged && m.result != UpdSourceOnly then
      UpdateOutcome(m.cache, keys, m.result)
    else
      var k := LinkKeys(KeysOutcome(m.cache.disk, keys, UpdNotChanged), source, 0, m.result != UpdNotChanged,
                        env.linkFaults);
      UpdateOutcome(Cache(k.disk, m.cache.counts), k.keys, Combined(m.result, k.result))
  }

  function Combined(moved: UpdateResult, linked: UpdateResult): UpdateResult {
    if linked != UpdNotChanged && linked != UpdKeysOnly then linked
    else if moved == UpdNotChanged then linked
    else if linked == UpdNotChanged then moved
    else UpdAll
  }

  // ---------- deletion of a key ----------

  function PoolDirMates(d: Disk, hash: Hash): set<FilePath> {
    set p | p in d.files && p.ObjFile? && p.hash.hex[..Least(2, |p.hash.hex|)] == hash.hex[..Least(2, |hash.hex|)]
  }

  function Least(a: nat, b: nat): nat {
    if a < b then a else b
  }

  /** The counter follows only when the object was the last one in its two-letter directory. */
  function DeleteObject(c: Cache, hash: Hash): Cache
    requires ObjFile(hash) in c.disk.files ==> c.disk.files[ObjFile(hash)] in c.disk.inodes
  {
    if ObjFile(hash) !in c.disk.files || c.disk.At(ObjFile(hash)).nlink >= 2 then
      c
    else
      var d := Remove(c.disk, {ObjFile(hash)});
      Cache(d, if PoolDirMates(d, hash) == {} then c.counts.RemoveObject(false) else c.counts)
  }

  /** A filled source loses its `.ref` but keeps its directory. */
  ghost function DeleteSource(c: Cache, source: Hash): Cache
    requires FsInv(c.disk)
  {
    var ref := SrcFile(source, Ref);
    if ref !in c.disk.files || c.disk.At(ref).nlink >= 2 then
      c
    else
      var d := Remove(c.disk, {ref});
      if HasOutputs(d, source) then
        Cache(d, c.counts)
      else
        Cache(d.(srcDirs := d.srcDirs - {source}), c.counts.RemoveSource(false))
  }

  /** Deleting the source takes its directory too, and the counter with it. */
  ghost predicate SourceGoes(d: Disk, source: Hash)
    requires FsInv(d)
  {
    var ref := SrcFile(source, Ref);
    ref in d.files && d.At(ref).nlink < 2 && !HasOutputs(d, source)
  }

  ghost function DropLink(c: Cache, slot: Slot): Cache
    requires FsInv(c.disk)
  {
    match CurrentLink(c.disk, slot)
    case None => c
    case Some(source) =>
      RemoveKeeps(c.disk, {KeyLink(slot, source)});
      DeleteSource(c.(disk := Remove(c.disk, {KeyLink(slot, source)})), source)
  }

  ghost function DeleteKey(c: Cache, slot: Slot): Cache
    requires FsInv(c.disk)
  {
    if slot !in c.disk.slots then
      c
    else
      var e := DropLink(c, slot);
      Cache(e.disk.(slots := e.disk.slots - {slot}), e.counts.RemoveStream(false))
  }

  /** Deleting the key takes one off a counter that is zero already, which the original asserts not to happen. */
  ghost predicate DeleteFires(c: Cache, slot: Slot)
    requires FsInv(c.disk)
  {
    slot in c.disk.slots && (c.counts.streams == 0 || (c.counts.sources == 0 && TakesSource(c.disk, slot)))
  }

  ghost predicate TakesSource(d: Disk, slot: Slot)
    requires FsInv(d)
  {
    match CurrentLink(d, slot)
    case None => false
    case Some(source) =>
      RemoveKeeps(d, {KeyLink(slot, source)});
      SourceGoes(Remove(d, {KeyLink(slot, source)}), source)
  }

  // ---------- garbage collection of single entries ----------

  predicate OldKey(d: Disk, key: string, threshold: Timespec) {
    key in d.keyDirs && d.keyDirs[key].Before(threshold)
  }

  /** Unreferenced and old, or without a reference count. */
  predicate DeadSource(d: Disk, source: Hash, threshold: Timespec)
    requires SrcFile(source, Ref) in d.files ==> d.files[SrcFile(source, Ref)] in d.inodes
  {
    var ref := SrcFile(source, Ref);
    ref !in d.files || (d.At(ref).nlink <= 1 && d.At(ref).atime.Before(threshold))
  }

  predicate DeadObject(d: Disk, hash: Hash, threshold: Timespec)
    requires ObjFile(hash) in d.files ==> d.files[ObjFile(hash)] in d.inodes
  {
    ObjFile(hash) in d.files && d.At(ObjFile(hash)).nlink <= 1 && d.At(ObjFile(hash)).atime.Before(threshold)
  }

  function GcKey(c: Cache, key: string, threshold: Timespec): Cache {
    if OldKey(c.disk, key, threshold) then
      Cache(RmKeys(c.disk, {key}), c.counts.RemoveStream(true))
    else
      c
  }

  /** Also decrements the counter for a source that vanished after it was listed. */
  function GcSource(c: Cache, source: Hash, threshold: Timespec): Cache
    requires SrcFile(source, Ref) in c.disk.files ==> c.disk.files[SrcFile(source, Ref)] in c.disk.inodes
  {
    if DeadSource(c.disk, source, threshold) then
      Cache(RmSources(c.disk, {source}), c.counts.RemoveSource(true))
    else
      c
  }

  function GcObject(c: Cache, hash: Hash, threshold: Timespec): Cache
    requires ObjFile(hash) in c.disk.files ==> c.disk.files[ObjFile(hash)] in c.disk.inodes
  {
    if ObjFile(hash) !in c.disk.files then
      c.(counts := c.counts.RemoveObject(true))
    else if DeadObject(c.disk, hash, threshold) then
      Cache(Remove(c.disk, {ObjFile(hash)}), c.counts.RemoveObject(true))
    else
      c
  }

  /** Access times change behind the manager's back and on its hot paths. */
  function Restamp(d: Disk, keyTimes: map<string, Timespec>, inodeTimes: map<nat, Timespec>): Disk {
    d.(keyDirs := map k | k in d.keyDirs :: if k in keyTimes then keyTimes[k] else d.keyDirs[k],
       inodes := map i | i in d.inodes ::
         if i in inodeTimes then d.inodes[i].(atime := inodeTimes[i]) else d.inodes[i])
  }

  // ---------- every operation keeps the cache invariant ----------

  lemma TouchInv(d: Disk, source: Hash, now: Timespec, touch: Fault)
    requires CacheInv(d) && source in d.srcDirs && SrcFile(source, Ref) !in d.files
    ensures CacheInv(Touch(d, source, now, touch).0)
  {
    if touch == Fine {
      CreateInv(d, SrcFile(source, Ref), [], now);
    }
  }

  lemma GrowSources(d: Disk, source: Hash)
    requires CacheInv(d)
    ensures CacheInv(d.(srcDirs := d.srcDirs + {source}))
  {
  }

  /** Emptying a source directory that has lost its `.ref`. */
  lemma ClearedInv(d: Disk, source: Hash)
    requires CacheInv(d) && SrcFile(source, Ref) !in d.files
    ensures var e := Remove(d, FilesOfSources(d, {source}));
      && CacheInv(e)
      && forall n :: SrcFile(source, n) !in e.files
  {
    RemoveInv(d, FilesOfSources(d, {source}));
  }

  lemma MkSourceEntryInv(d: Disk, source: Hash, now: Timespec, mkdir: Fault, touch: Fault)
    requires CacheInv(d)
    ensures CacheInv(MkSourceEntry(d, source, now, mkdir, touch).0)
  {
    if mkdir == Fine && SrcFile(source, Ref) !in d.files {
      if source in d.srcDirs {
        ClearedInv(d, source);
        TouchInv(Remove(d, FilesOfSources(d, {source})), source, now, touch);
      } else {
        assert forall p :: p in d.files ==> ParentExists(d, p);
        GrowSources(d, source);
        TouchInv(d.(srcDirs := d.srcDirs + {source}), source, now, touch);
      }
    } else if mkdir == Fine {
      assert ParentExists(d, SrcFile(source, Ref));
    }
  }

  lemma NewLinkInv(d: Disk, slot: Slot, source: Hash, onSuccess: AddKeyResult, link: Fault)
    requires CacheInv(d) && slot in d.slots && forall s :: KeyLink(slot, s) !in d.files
    ensures CacheInv(NewLink(d, slot, source, onSuccess, link).0)
  {
    if link == Fine && SrcFile(source, Ref) in d.files {
      AddLinkInv(d, KeyLink(slot, source));
    }
  }

  lemma UnlinkSlotInv(d: Disk, slot: Slot, source: Hash)
    requires CacheInv(d) && KeyLink(slot, source) in d.files
    ensures CacheInv(Remove(d, {KeyLink(slot, source)}))
    ensures forall s :: KeyLink(slot, s) !in Remove(d, {KeyLink(slot, source)}).files
  {
    RemoveInv(d, {KeyLink(slot, source)});
  }

  lemma LinkToSourceInv(d: Disk, slot: Slot, source: Hash, ifAdded: AddKeyResult, link: Fault)
    requires CacheInv(d)
    ensures CacheInv(LinkToSource(d, slot, source, ifAdded, link).0)
  {
    if slot in d.slots {
      match CurrentLink(d, slot)
      case None => NewLinkInv(d, slot, source, ifAdded, link);
      case Some(prior) =>
        if prior != source {
          UnlinkSlotInv(d, slot, prior);
          NewLinkInv(Remove(d, {KeyLink(slot, prior)}), slot, source, Replaced, link);
        }
    }
  }

  lemma MakeKeyDirInv(d: Disk, key: string, now: Timespec)
    requires CacheInv(d)
    ensures CacheInv(MakeKeyDir(d, key, now))
  {
    var e := MakeKeyDir(d, key, now);
    assert forall i :: Links(e, i) == Links(d, i);
  }

  lemma MakeSlotInv(d: Disk, slot: Slot, now: Timespec)
    requires CacheInv(d)
    ensures CacheInv(MakeSlot(d, slot, now))
  {
  }

  lemma AddSlotInv(c: Cache, slot: Slot, source: Hash, isNew: bool, pending: Pending, env: AddEnv)
    requires CacheInv(c.disk)
    ensures CacheInv(AddSlot(c, slot, source, isNew, pending, env).cache.disk)
  {
    MakeKeyDirInv(c.disk, slot.key, env.now);
    if slot in c.disk.slots {
      LinkToSourceInv(c.disk, slot, source, Inserted, env.link);
    } else {
      MakeSlotInv(c.disk, slot, env.now);
      var ifAdded := if isNew then SourceUnknown else Inserted;
      LinkToSourceInv(MakeSlot(c.disk, slot, env.now), slot, source, ifAdded, env.link);
    }
  }

  lemma AddStreamKeyInv(c: Cache, slot: Slot, source: Hash, pending: Pending, env: AddEnv)
    requires CacheInv(c.disk)
    ensures CacheInv(AddStreamKey(c, slot, source, pending, env).cache.disk)
  {
    var (d, r) := MkSourceEntry(c.disk, source, env.now, env.mkdirSource, env.touch);
    MkSourceEntryInv(c.disk, source, env.now, env.mkdirSource, env.touch);
    var counts := if r.SourceInserted? then c.counts.AddSource() else c.counts;
    AddSlotInv(Cache(d, counts), slot, source, IsNewSource(r, source, pending), pending, env);
  }

  lemma ImportObjectFs(md5: Bytes -> Hash, c: Cache, i: Import)
    requires FsInv(c.disk) && i.content.Some?
    ensures var r := ImportObject(md5, c, i);
      FsInv(r.cache.disk) && (r.result.UpdNotChanged? ==> ObjFile(md5(i.content.value)) in r.cache.disk.files)
  {
    var h := md5(i.content.value);
    if ObjFile(h) !in c.disk.files {
      CreateKeeps(c.disk, ObjFile(h), i.content.value, i.atime);
    }
  }

  lemma MoveOneInv(md5: Bytes -> Hash, c: Cache, source: Hash, i: Import)
    requires CacheInv(c.disk)
    ensures CacheInv(MoveOne(md5, c, source, i).cache.disk)
  {
    if i.content.Some? {
      var h := md5(i.content.value);
      if ObjFile(h) !in c.disk.files {
        CreateInv(c.disk, ObjFile(h), i.content.value, i.atime);
      }
      var r := ImportObject(md5, c, i);
      if r.result.UpdNotChanged? && PlainName(i.path).Some? {
        LinkOutputInv(r.cache.disk, source, Out(PlainName(i.path).value, h), i.link);
      }
    }
  }

  lemma LinkOutputInv(d: Disk, source: Hash, name: SrcName, link: Fault)
    requires CacheInv(d) && name.Out? && ObjFile(name.hash) in d.files
    ensures CacheInv(LinkOutput(d, source, name, link))
  {
    if link == Fine && source in d.srcDirs && SrcFile(source, name) !in d.files {
      AddLinkInv(d, SrcFile(source, name));
    }
  }

  lemma {:induction false} MoveObjectsInv(md5: Bytes -> Hash, c: Cache, source: Hash, imports: seq<Import>, added: bool)
    requires CacheInv(c.disk)
    ensures CacheInv(MoveObjects(md5, c, source, imports, added).cache.disk)
    decreases |imports|
  {
    if imports != [] {
      MoveOneInv(md5, c, source, imports[0]);
      var r := MoveOne(md5, c, source, imports[0]);
      if r.result.UpdNotChanged? {
        MoveObjectsInv(md5, r.cache, source, imports[1..], added || r.added);
      }
    }
  }

  lemma LinkOneInv(k: KeysOutcome, source: Hash, i: nat, objectsAdded: bool, link: Fault)
    requires CacheInv(k.disk) && i < |k.keys| && k.GoesOn()
    ensures CacheInv(LinkOne(k, source, i, objectsAdded, link).disk)
  {
    LinkToSourceInv(k.disk, k.keys[i].slot, source, Inserted, link);
  }

  lemma {:induction false} LinkKeysInv(k: KeysOutcome, source: Hash, i: nat, objectsAdded: bool, faults: seq<Fault>)
    requires CacheInv(k.disk) && i <= |k.keys|
    ensures CacheInv(LinkKeys(k, source, i, objectsAdded, faults).disk)
    decreases |k.keys| - i
  {
    if i < |k.keys| && k.GoesOn() {
      LinkOneInv(k, source, i, objectsAdded, FaultAt(faults, i));
      LinkKeysInv(LinkOne(k, source, i, objectsAdded, FaultAt(faults, i)), source, i + 1, objectsAdded, faults);
    }
  }

  lemma UpdateSourceInv(md5: Bytes -> Hash, c: Cache, source: Hash, keys: seq<PendingKey>, env: UpdateEnv)
    requires CacheInv(c.disk)
    ensures CacheInv(UpdateSource(md5, c, source, keys, env).cache.disk)
  {
    var m := MoveObjects(md5, c, source, env.imports, false);
    MoveObjectsInv(md5, c, source, env.imports, false);
    LinkKeysInv(KeysOutcome(m.cache.disk, keys, UpdNotChanged), source, 0, m.result != UpdNotChanged, env.linkFaults);
  }

  /** Directories may change as long as every file keeps its parent. */
  lemma ReparentInv(d: Disk, e: Disk)
    requires CacheInv(d)
    requires e.files == d.files && e.inodes == d.inodes && e.nextIno == d.nextIno
    requires forall p :: p in d.files ==> ParentExists(e, p)
    requires forall slot :: slot in e.slots ==> slot.key in e.keyDirs
    ensures CacheInv(e)
  {
  }

  lemma DropSourceDir(d: Disk, source: Hash)
    requires CacheInv(d) && forall n :: SrcFile(source, n) !in d.files
    ensures CacheInv(d.(srcDirs := d.srcDirs - {source}))
  {
  }

  lemma OwnedAlone(d: Disk, a: FilePath, p: FilePath)
    requires CacheInv(d) && a in d.files && Anchor(a) == a && d.At(a).nlink <= 1
    requires p in d.files && p != a
    ensures Anchor(p) != a
  {
    Unshared(d, a);
  }

  lemma DropOwner(d: Disk, a: FilePath)
    requires CacheInv(d) && a in d.files && Anchor(a) == a && d.At(a).nlink <= 1
    ensures CacheInv(Remove(d, {a}))
  {
    forall p | p in d.files && p != a
      ensures Anchor(p) != a
    {
      OwnedAlone(d, a, p);
    }
    RemoveInv(d, {a});
  }

  lemma DeleteSourceInv(c: Cache, source: Hash)
    requires CacheInv(c.disk)
    ensures CacheInv(DeleteSource(c, source).disk)
    ensures DeleteSource(c, source).disk.slots == c.disk.slots
    ensures DeleteSource(c, source).disk.files.Keys - {SrcFile(source, Ref)} ==
            c.disk.files.Keys - {SrcFile(source, Ref)}
  {
    var ref := SrcFile(source, Ref);
    if ref in c.disk.files && c.disk.At(ref).nlink < 2 {
      DropOwner(c.disk, ref);
      var d := Remove(c.disk, {ref});
      if !HasOutputs(d, source) {
        assert forall n: SrcName :: n.Ref? || n.Out?;
        DropSourceDir(d, source);
      }
    }
  }

  lemma DropSlot(d: Disk, slot: Slot)
    requires CacheInv(d) && forall s :: KeyLink(slot, s) !in d.files
    ensures CacheInv(d.(slots := d.slots - {slot}))
  {
  }

  lemma DeleteKeyInv(c: Cache, slot: Slot)
    requires CacheInv(c.disk)
    ensures CacheInv(DeleteKey(c, slot).disk)
  {
    if slot in c.disk.slots {
      match CurrentLink(c.disk, slot)
      case None => DropSlot(c.disk, slot);
      case Some(source) =>
        var link := KeyLink(slot, source);
        UnlinkSlotInv(c.disk, slot, source);
        var e := c.(disk := Remove(c.disk, {link}));
        DeleteSourceInv(e, source);
        assert forall s :: KeyLink(slot, s) !in DeleteSource(e, source).disk.files by {
          assert forall s :: KeyLink(slot, s) !in e.disk.files.Keys - {SrcFile(source, Ref)};
        }
        DropSlot(DeleteSource(e, source).disk, slot);
    }
  }

  lemma RmKeysInv(d: Disk, keys: set<string>)
    requires CacheInv(d)
    ensures CacheInv(RmKeys(d, keys))
  {
    var victims := LinksOfKeys(d, keys);
    RemoveInv(d, victims);
    forall p | p in Remove(d, victims).files
      ensures ParentExists(RmKeys(d, keys), p)
    {
      assert ParentExists(d, p);
    }
    ReparentInv(Remove(d, victims), RmKeys(d, keys));
  }

  ghost predicate Unlinked(d: Disk, sources: set<Hash>)
    requires FsInv(d)
  {
    forall s :: s in sources && SrcFile(s, Ref) in d.files ==> d.At(SrcFile(s, Ref)).nlink <= 1
  }

  lemma UnlinkedFiles(d: Disk, sources: set<Hash>, p: FilePath)
    requires CacheInv(d) && Unlinked(d, sources)
    requires p in d.files && p !in FilesOfSources(d, sources)
    ensures Anchor(p) !in FilesOfSources(d, sources)
  {
    if Anchor(p) in FilesOfSources(d, sources) {
      Unshared(d, Anchor(p));
    }
  }

  /** Only sources nobody links to may be removed. */
  lemma RmSourcesInv(d: Disk, sources: set<Hash>)
    requires CacheInv(d) && Unlinked(d, sources)
    ensures CacheInv(RmSources(d, sources))
  {
    var victims := FilesOfSources(d, sources);
    forall p | p in d.files && p !in victims
      ensures Anchor(p) !in victims
    {
      UnlinkedFiles(d, sources, p);
    }
    RemoveInv(d, victims);
    forall p | p in Remove(d, victims).files
      ensures ParentExists(RmSources(d, sources), p)
    {
      assert ParentExists(d, p);
    }
    ReparentInv(Remove(d, victims), RmSources(d, sources));
  }

  lemma RmObjectsInv(d: Disk, victims: set<FilePath>)
    requires CacheInv(d)
    requires forall p :: p in victims ==> p.ObjFile? && p in d.files && d.At(p).nlink <= 1
    ensures CacheInv(Remove(d, victims))
  {
    forall p | p in d.files && p !in victims
      ensures Anchor(p) !in victims
    {
      if Anchor(p) in victims {
        Unshared(d, Anchor(p));
      }
    }
    RemoveInv(d, victims);
  }

  lemma RestampInv(d: Disk, keyTimes: map<string, Timespec>, inodeTimes: map<nat, Timespec>)
    requires CacheInv(d)
    ensures CacheInv(Restamp(d, keyTimes, inodeTimes))
  {
    var e := Restamp(d, keyTimes, inodeTimes);
    assert forall i :: Links(e, i) == Links(d, i);
    forall p | p in e.files
      ensures ParentExists(e, p)
    {
      assert ParentExists(d, p);
    }
  }
}
