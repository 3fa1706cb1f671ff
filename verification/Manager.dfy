/** The cache manager: changes disk and counters in place, one system call at a time. */
module Manager {
  import opened CacheTypes
  import opened FileSystem
  import opened CacheInvariant
  import opened Statistics
  import opened Operations
  import opened Accounting
  import opened Isolation
  import opened Threshold
  import opened Lookup
  import opened HotPath
  import opened Priority
  import opened Runs
  import opened Jobs
  import Background

  /** A directory listing: all elements, in any order, each once. */
  ghost predicate IsListing<T(!new)>(l: seq<T>, s: set<T>) {
    && (forall x :: x in l <==> x in s)
    && (forall i, j :: 0 <= i < j < |l| ==> l[i] != l[j])
  }

  method List<T(==,!new)>(s: set<T>) returns (l: seq<T>)
    ensures IsListing(l, s) && |l| == |s|
  {
    l := [];
    var rest := s;
    while rest != {}
      invariant rest <= s && IsListing(l, s - rest) && |l| + |rest| == |s|
      decreases |rest|
    {
      var x :| x in rest;
      assert (s - rest) + {x} == s - (rest - {x});
      l := l + [x];
      rest := rest - {x};
    }
    assert s - rest == s;
  }

  /** The elements of the first `i` entries of a listing. */
  function Taken<T>(l: seq<T>, i: nat): set<T>
    requires i <= |l|
  {
    set j | 0 <= j < i :: l[j]
  }

  lemma TakenNext<T>(l: seq<T>, i: nat)
    requires i < |l|
    ensures Taken(l, i + 1) == Taken(l, i) + {l[i]}
  {
  }

  lemma TakenAll<T(!new)>(l: seq<T>, s: set<T>)
    requires IsListing(l, s)
    ensures Taken(l, |l|) == s
  {
  }

  /** Linking one key after the other. */
  lemma LinkKeysNext(k: KeysOutcome, source: Hash, i: nat, objectsAdded: bool, faults: seq<Fault>)
    requires CacheInv(k.disk) && i < |k.keys| && k.GoesOn()
    ensures var n := LinkOne(k, source, i, objectsAdded, FaultAt(faults, i));
      && CacheInv(n.disk) && |n.keys| == |k.keys|
      && LinkKeys(k, source, i, objectsAdded, faults) == LinkKeys(n, source, i + 1, objectsAdded, faults)
  {
    LinkOneInv(k, source, i, objectsAdded, FaultAt(faults, i));
  }

  lemma LinkKeysEnd(k: KeysOutcome, source: Hash, i: nat, objectsAdded: bool, faults: seq<Fault>)
    requires CacheInv(k.disk) && i <= |k.keys|
    ensures i == |k.keys| || !k.GoesOn() ==> LinkKeys(k, source, i, objectsAdded, faults) == k
  {
  }

  /** Unlinking one file after the other. */
  lemma RemoveNext(d: Disk, listing: seq<FilePath>, i: nat)
    requires FsInv(d) && i < |listing|
    ensures Remove(Remove(d, Taken(listing, i)), {listing[i]}) == Remove(d, Taken(listing, i + 1))
  {
    RemoveTwice(d, Taken(listing, i), {listing[i]});
    TakenNext(listing, i);
  }

  class Manager {
    const md5: Bytes -> Hash
    const stats: Statistics
    const background: Background.BackgroundTask
    const clock: Timestamp
    const upperLimits: Counters
    const lowerLimits: Counters := upperLimits.Scaled(LIMITS_LOW_HI_PERCENTAGE)

    var disk: Disk
    var poolTime: Option<Timespec>   // access time of the pool's directory, if there is one

    ghost function View(): Cache
      reads this, stats
    {
      Cache(disk, stats.View())
    }

    /** Some counter is above its own upper limit. */
    ghost predicate OverLimits()
      reads stats
    {
      || stats.streams > upperLimits.streams
      || stats.sources > upperLimits.sources
      || stats.objects > upperLimits.objects
    }

    constructor (md5: Bytes -> Hash, upperLimits: Counters)
      ensures View() == EMPTY_CACHE && poolTime == None
      ensures this.md5 == md5 && this.upperLimits == upperLimits
      ensures lowerLimits.streams == upperLimits.streams * 60 / 100
      ensures lowerLimits.sources == upperLimits.sources * 60 / 100
      ensures lowerLimits.objects == upperLimits.objects * 60 / 100
      ensures fresh(stats) && fresh(background) && fresh(clock) && clock.Valid()
    {
      this.md5 := md5;
      this.upperLimits := upperLimits;
      stats := new Statistics();
      background := new Background.BackgroundTask();
      clock := new Timestamp();
      disk, poolTime := EMPTY_DISK, None;
    }

    /**
     * Takes over what is on disk.  The clock goes on where the pool's directory
     * says it was; a first start marks everything as equally old.
     */
    method Init(directoriesMade: bool, readable: bool) returns (ok: bool)
      requires CacheInv(disk) && clock.Valid()
      requires poolTime.Some? ==> poolTime.value.Normalised() && 0 <= poolTime.value.sec <= MAX_INT64
      modifies this`disk, this`poolTime, stats, clock, background
      ensures clock.Valid() && CacheInv(disk) && ok == directoriesMade
      ensures ok && readable ==>
        disk.files == old(disk.files) && disk.slots == old(disk.slots) && disk.srcDirs == old(disk.srcDirs) &&
        stats.View() == Counters(|disk.keyDirs|, |disk.srcDirs|, |PoolFiles(disk)|, false)
      ensures ok && readable ==>
        forall slot :: CacheInvariant.View(disk, slot) == CacheInvariant.View(old(disk), slot)
      ensures ok && readable && old(poolTime).None? ==>
        poolTime == Some(clock.Stamp()) && clock.Stamp() == Timespec(0, 0)
      ensures ok && readable && old(poolTime).Some? ==>
        disk == old(disk) && poolTime == old(poolTime) &&
        (poolTime.value.nsec % 1000 == 0 ==> clock.Stamp() == poolTime.value)
      ensures !ok || !readable ==> View() == EMPTY_CACHE && poolTime == None
      ensures background.View() == if ok && OverLimits()
                                   then old(background.View()).Do(Background.Append(Background.CollectGarbage))
                                   else old(background.View())
    {
      clock.Restart(poolTime);
      if !directoriesMade {
        Reset();
        return false;
      }
      if poolTime.None? {
        ResetAllTimestamps();
      }
      if readable {
        stats.Set(|disk.keyDirs|, |disk.srcDirs|, |PoolFiles(disk)|);
      } else {
        Reset();
      }
      var _ := stats.MarkUnchanged();
      var _ := GcIfNeeded();
      return true;
    }

    /** Removes everything. */
    method Reset()
      modifies this`disk, this`poolTime, stats, clock
      ensures clock.Valid() && View() == EMPTY_CACHE && CacheInv(disk) && poolTime == None
    {
      disk, poolTime := EMPTY_DISK, None;
      stats.Reset();
      clock.Reset();
    }

    /** Makes all entries equally old. */
    method ResetAllTimestamps()
      requires CacheInv(disk) && clock.Valid()
      modifies this`disk, this`poolTime, clock
      ensures clock.Valid() && CacheInv(disk)
      ensures disk.files == old(disk.files) && disk.slots == old(disk.slots) && disk.srcDirs == old(disk.srcDirs)
      ensures disk.keyDirs.Keys == old(disk.keyDirs.Keys)
      ensures clock.Stamp() == Timespec(0, 0) && poolTime == Some(clock.Stamp())
      ensures forall k :: k in disk.keyDirs ==> disk.keyDirs[k] == clock.Stamp()
      ensures forall p :: p in disk.files ==> disk.At(p).atime == clock.Stamp()
      ensures forall slot :: CacheInvariant.View(disk, slot) == CacheInvariant.View(old(disk), slot)
    {
      clock.Reset();
      var now := clock.Stamp();
      poolTime := Some(now);
      var keyTimes := map k | k in disk.keyDirs :: now;
      var inodeTimes := map i | i in disk.inodes :: now;
      RestampInv(disk, keyTimes, inodeTimes);
      forall slot
        ensures CacheInvariant.View(Restamp(disk, keyTimes, inodeTimes), slot) == CacheInvariant.View(disk, slot)
      {
        RestampView(disk, keyTimes, inodeTimes, slot);
      }
      disk := Restamp(disk, keyTimes, inodeTimes);
    }

    // ---------- adding keys ----------

    /** Scans a source directory for anything but `.ref`. */
    method HaveLinkedOutputs(source: Hash) returns (found: bool)
      ensures found <==> HasOutputs(disk, source)
    {
      var listing := List(NamesIn(disk, source));
      var i := 0;
      while i < |listing|
        invariant i <= |listing| && forall j :: 0 <= j < i ==> listing[j].Ref?
      {
        if listing[i] != Ref {
          assert listing[i] in NamesIn(disk, source);
          return true;
        }
        i := i + 1;
      }
      forall n: SrcName | n.Out?
        ensures SrcFile(source, n) !in disk.files
      {
        NamesInHas(disk, source, n);
      }
      return false;
    }

    /** Unlinks everything in a source directory. */
    method DeleteFiles(source: Hash)
      requires FsInv(disk)
      modifies this`disk
      ensures disk == Remove(old(disk), FilesOfSources(old(disk), {source}))
    {
      var listing := List(FilesOfSources(disk, {source}));
      TakenAll(listing, FilesOfSources(disk, {source}));
      Unlink(listing);
    }

    method Unlink(listing: seq<FilePath>)
      requires FsInv(disk)
      modifies this`disk
      ensures disk == Remove(old(disk), Taken(listing, |listing|))
    {
      ghost var d := disk;
      RemoveNothing(d);
      var i := 0;
      while i < |listing|
        invariant i <= |listing| && disk == Remove(d, Taken(listing, i))
      {
        RemoveNext(d, listing, i);
        disk := Remove(disk, {listing[i]});
        i := i + 1;
      }
    }

    method MakeSourceEntry(source: Hash, now: Timespec, mkdir: Fault, touch: Fault) returns (r: AddSourceResult)
      requires CacheInv(disk)
      modifies this`disk
      ensures (disk, r) == MkSourceEntry(old(disk), source, now, mkdir, touch)
    {
      if mkdir != Fine {
        return SourceIoError;
      }
      var created := source !in disk.srcDirs;
      if created {
        disk := disk.(srcDirs := disk.srcDirs + {source});
      } else {
        if SrcFile(source, Ref) in disk.files {
          var found := HaveLinkedOutputs(source);
          return if found then SourceNotChanged else SourceEmpty;
        }
        DeleteFiles(source);
      }
      match touch
      case Fine =>
        disk := Create(disk, SrcFile(source, Ref), [], now);
        r := SourceInserted;
      case NoSpace =>
        r := SourceDiskFull;
      case IoFail =>
        r := SourceIoError;
    }

    /** The first `src:` entry of a key/prio directory. */
    method GetSourceLink(slot: Slot) returns (r: Option<Hash>)
      requires CacheInv(disk)
      ensures r == CurrentLink(disk, slot)
    {
      var listing := List(LinksIn(disk, slot));
      if listing == [] {
        forall s
          ensures KeyLink(slot, s) !in disk.files
        {
          assert KeyLink(slot, s) in LinksIn(disk, slot) <==> KeyLink(slot, s) in listing;
        }
        return None;
      }
      assert listing[0] in LinksIn(disk, slot);
      CurrentLinkIs(disk, slot, listing[0].source);
      return Some(listing[0].source);
    }

    method Link(slot: Slot, source: Hash, ifAdded: AddKeyResult, link: Fault) returns (r: AddKeyResult)
      requires CacheInv(disk)
      modifies this`disk
      ensures (disk, r) == LinkToSource(old(disk), slot, source, ifAdded, link)
    {
      if slot !in disk.slots {
        return InternalError;
      }
      var present := GetSourceLink(slot);
      var onSuccess := ifAdded;
      if present.Some? {
        if present.value == source {
          return NotChanged;
        }
        RemoveKeeps(disk, {KeyLink(slot, present.value)});
        disk := Remove(disk, {KeyLink(slot, present.value)});
        onSuccess := Replaced;
      }
      if link == Fine && SrcFile(source, Ref) in disk.files {
        disk := AddLink(disk, SrcFile(source, Ref), KeyLink(slot, source));
        r := onSuccess;
      } else {
        r := if link == NoSpace then DiskFull else IoError;
      }
    }

    /** Schedules a collection when a counter is over its limit. */
    method GcIfNeeded() returns (scheduled: bool)
      modifies background
      ensures scheduled <==> stats.streams > upperLimits.streams || stats.sources > upperLimits.sources ||
                             stats.objects > upperLimits.objects
      ensures background.View() ==
        if scheduled then old(background.View()).Do(Background.Append(Background.CollectGarbage))
        else old(background.View())
      ensures scheduled ==> Background.CollectGarbage in background.View().pending
    {
      scheduled := stats.ExceedsLimits(upperLimits);
      if scheduled {
        var _ := background.AppendAction(Background.CollectGarbage);
      }
    }

    /** Adds a key and associates it with a source, unless the source still has to be filled. */
    method AddStreamKeyForSource(slot: Slot, source: Hash, pending: JobQueue, env: AddEnv)
      returns (result: AddKeyResult)
      requires CacheInv(disk) && pending.Valid()
      modifies this`disk, stats, background, pending.Members()
      ensures pending.Valid() && pending.jobs == old(pending.jobs) && pending.running == old(pending.running)
      ensures var o := AddStreamKey(old(View()), slot, source, old(pending.View()).Pending(), env);
        && View() == o.cache
        && result == o.result
        && pending.View() ==
          match o.joined { case Some(s) => old(pending.View()).JoinFor(slot, s) case None => old(pending.View()) }
      ensures background.View() == if stats.streams > old(stats.streams) && OverLimits()
                                   then old(background.View()).Do(Background.Append(Background.CollectGarbage))
                                   else old(background.View())
    {
      var made, isNew := EnterSource(source, pending, env);
      if made.SourceIoError? {
        return IoError;
      }
      if made.SourceDiskFull? {
        return DiskFull;
      }
      result := AddOrRelink(slot, source, isNew, pending, env);
    }

    /** Makes sure that the source is there, and tells whether it has to be filled. */
    method EnterSource(source: Hash, pending: JobQueue, env: AddEnv) returns (made: AddSourceResult, isNew: bool)
      requires CacheInv(disk) && pending.Valid()
      modifies this`disk, stats
      ensures CacheInv(disk)
      ensures (disk, made) == MkSourceEntry(old(disk), source, env.now, env.mkdirSource, env.touch)
      ensures stats.View() == if made.SourceInserted? then old(stats.View()).AddSource() else old(stats.View())
      ensures isNew == IsNewSource(made, source, pending.View().Pending())
    {
      MkSourceEntryInv(disk, source, env.now, env.mkdirSource, env.touch);
      made := MakeSourceEntry(source, env.now, env.mkdirSource, env.touch);
      isNew := false;
      match made
      case SourceInserted =>
        isNew := true;
        stats.AddSource();
      case SourceEmpty =>
        var waiting := pending.IsSourcePending(source, true);
        isNew := !waiting;
      case _ =>
    }

    method AddOrRelink(slot: Slot, source: Hash, isNew: bool, pending: JobQueue, env: AddEnv)
      returns (result: AddKeyResult)
      requires CacheInv(disk) && pending.Valid()
      modifies this`disk, stats, background, pending.Members()
      ensures pending.Valid() && pending.jobs == old(pending.jobs) && pending.running == old(pending.running)
      ensures var o := AddSlot(old(View()), slot, source, isNew, old(pending.View()).Pending(), env);
        && View() == o.cache
        && result == o.result
        && pending.View() ==
          match o.joined { case Some(s) => old(pending.View()).JoinFor(slot, s) case None => old(pending.View()) }
      ensures background.View() == if stats.streams > old(stats.streams) && OverLimits()
                                   then old(background.View()).Do(Background.Append(Background.CollectGarbage))
                                   else old(background.View())
    {
      if env.mkdirSlot != Fine {
        if env.keyDirMade {
          disk := MakeKeyDir(disk, slot.key, env.now);
        }
        return IoError;
      }
      if slot !in disk.slots {
        result := AddNewSlot(slot, source, isNew, env);
      } else if isNew {
        result := SourceUnknown;
      } else {
        result := RelinkSlot(slot, source, pending, env);
      }
    }

    /** A key that did not exist is linked right away. */
    method AddNewSlot(slot: Slot, source: Hash, isNew: bool, env: AddEnv) returns (result: AddKeyResult)
      requires CacheInv(disk) && slot !in disk.slots
      modifies this`disk, stats, background
      ensures (disk, result) == LinkToSource(MakeSlot(old(disk), slot, env.now), slot, source,
                                             if isNew then SourceUnknown else Inserted, env.link)
      ensures stats.View() == old(stats.View()).AddStream()
      ensures background.View() == if OverLimits()
                                   then old(background.View()).Do(Background.Append(Background.CollectGarbage))
                                   else old(background.View())
    {
      MakeSlotInv(disk, slot, env.now);
      disk := MakeSlot(disk, slot, env.now);
      stats.AddStream();
      var _ := GcIfNeeded();
      result := Link(slot, source, if isNew then SourceUnknown else Inserted, env.link);
    }

    /** An existing key joins the job its present source waits for, or moves to the known source. */
    method RelinkSlot(slot: Slot, source: Hash, pending: JobQueue, env: AddEnv) returns (result: AddKeyResult)
      requires CacheInv(disk) && pending.Valid()
      modifies this`disk, pending.Members()
      ensures pending.Valid() && pending.jobs == old(pending.jobs) && pending.running == old(pending.running)
      ensures JoinsJob(old(disk), slot, old(pending.View()).Pending()) ==>
        disk == old(disk) && result == SourcePending &&
        pending.View() == old(pending.View()).JoinFor(slot, CurrentLink(old(disk), slot).value)
      ensures !JoinsJob(old(disk), slot, old(pending.View()).Pending()) ==>
        (disk, result) == LinkToSource(old(disk), slot, source, Inserted, env.link) &&
        pending.View() == old(pending.View())
    {
      var present := GetSourceLink(slot);
      if present.Some? {
        JoinNobody(pending.View(), slot, present.value);
        var joined := pending.AddKeyToPendingSource(slot, present.value);
        if joined {
          return SourcePending;
        }
      }
      result := Link(slot, source, Inserted, env.link);
    }

    // ---------- filling a source ----------

    method ImportObject(i: Import) returns (added: bool, result: UpdateResult)
      requires CacheInv(disk) && i.content.Some?
      modifies this`disk, stats
      ensures var r := Operations.ImportObject(md5, old(View()), i);
        View() == r.cache && added == r.added && result == r.result
    {
      var h := md5(i.content.value);
      added, result := false, UpdNotChanged;
      if ObjFile(h) in disk.files {
        return;
      }
      if i.mkdir != Fine {
        return false, UpdIoError;
      }
      match i.rename
      case Fine =>
        disk := Create(disk, ObjFile(h), i.content.value, i.atime);
        stats.AddObject();
        added := true;
      case NoSpace =>
        result := UpdDiskFull;
      case IoFail =>
        result := UpdIoError;
    }

    /** Moves converted pictures to the pool and links them to their source. */
    method MoveObjectsAndUpdateSource(source: Hash, imports: seq<Import>) returns (added: bool, result: UpdateResult)
      requires CacheInv(disk)
      modifies this`disk, stats
      ensures CacheInv(disk)
      ensures var r := MoveObjects(md5, old(View()), source, imports, false);
        View() == r.cache && result == r.result
    {
      ghost var goal := MoveObjects(md5, View(), source, imports, false);
      added := false;
      var i := 0;
      while i < |imports|
        invariant i <= |imports| && CacheInv(disk)
        invariant MoveObjects(md5, View(), source, imports[i..], added) == goal
      {
        assert imports[i..][0] == imports[i] && imports[i..][1..] == imports[i + 1..];
        ghost var before := View();
        MoveOneInv(md5, before, source, imports[i]);
        var one, failure := MoveOneObject(source, imports[i]);
        if failure != UpdNotChanged {
          result := failure;
          return;
        }
        added := added || one;
        i := i + 1;
      }
      result := if added then UpdSourceOnly else UpdNotChanged;
    }

    method MoveOneObject(source: Hash, i: Import) returns (added: bool, result: UpdateResult)
      requires CacheInv(disk)
      modifies this`disk, stats
      ensures var r := MoveOne(md5, old(View()), source, i);
        View() == r.cache && added == r.added && result == r.result
    {
      added, result := false, UpdNotChanged;
      if i.content.None? {
        return;
      }
      ImportObjectFs(md5, View(), i);
      added, result := ImportObject(i);
      if result != UpdNotChanged {
        return;
      }
      var format := FindPlainName(i.path);
      if format.None? {
        return added, UpdInternalError;
      }
      var name := Out(format.value, md5(i.content.value));
      if i.link == Fine && source in disk.srcDirs && SrcFile(source, name) !in disk.files {
        disk := AddLink(disk, ObjFile(name.hash), SrcFile(source, name));
      }
    }

    /** Points the pending keys at the source, up to the first failure. */
    method LinkPendingKeys(source: Hash, pendingKeys: seq<PendingKey>, objectsAdded: bool, faults: seq<Fault>)
      returns (keys: seq<PendingKey>, result: UpdateResult)
      requires CacheInv(disk)
      modifies this`disk
      ensures CacheInv(disk)
      ensures KeysOutcome(disk, keys, result) ==
        LinkKeys(KeysOutcome(old(disk), pendingKeys, UpdNotChanged), source, 0, objectsAdded, faults)
    {
      ghost var goal := LinkKeys(KeysOutcome(disk, pendingKeys, UpdNotChanged), source, 0, objectsAdded, faults);
      keys := pendingKeys;
      result := UpdNotChanged;
      var i := 0;
      while i < |keys|
        invariant i <= |keys| && CacheInv(disk) && KeysOutcome(disk, keys, result).GoesOn()
        invariant LinkKeys(KeysOutcome(disk, keys, result), source, i, objectsAdded, faults) == goal
      {
        LinkKeysNext(KeysOutcome(disk, keys, result), source, i, objectsAdded, faults);
        keys, result := LinkPendingKey(source, keys, i, result, objectsAdded, FaultAt(faults, i));
        LinkKeysEnd(KeysOutcome(disk, keys, result), source, i + 1, objectsAdded, faults);
        if !(result.UpdNotChanged? || result.UpdKeysOnly?) {
          return;
        }
        i := i + 1;
      }
    }

    method LinkPendingKey(source: Hash, pendingKeys: seq<PendingKey>, i: nat, before: UpdateResult, objectsAdded: bool,
                          fault: Fault)
      returns (keys: seq<PendingKey>, result: UpdateResult)
      requires CacheInv(disk) && i < |pendingKeys| && KeysOutcome(disk, pendingKeys, before).GoesOn()
      modifies this`disk
      ensures KeysOutcome(disk, keys, result) ==
        LinkOne(KeysOutcome(old(disk), pendingKeys, before), source, i, objectsAdded, fault)
    {
      keys, result := pendingKeys, before;
      if keys[i].slot in disk.slots {
        var r := Link(keys[i].slot, source, Inserted, fault);
        match r
        case NotChanged =>
          keys := keys[i := PendingKey(keys[i].slot, if objectsAdded then Inserted else NotChanged)];
        case Replaced =>
          keys := keys[i := PendingKey(keys[i].slot, r)];
          result := UpdKeysOnly;
        case _ =>
          keys := keys[i := PendingKey(keys[i].slot, r)];
          result := LinkFailure(r);
      }
    }

    /** Stores the converted pictures of a source and updates the keys waiting for it. */
    method UpdateSource(source: Hash, pendingKeys: seq<PendingKey>, env: UpdateEnv)
      returns (keys: seq<PendingKey>, result: UpdateResult)
      requires CacheInv(disk)
      modifies this`disk, stats
      ensures CacheInv(disk)
      ensures var u := Operations.UpdateSource(md5, old(View()), source, pendingKeys, env);
        View() == u.cache && keys == u.keys && result == u.result
    {
      var _, moved := MoveObjectsAndUpdateSource(source, env.imports);
      keys := pendingKeys;
      if moved != UpdNotChanged && moved != UpdSourceOnly {
        result := moved;
        return;
      }
      var linked;
      keys, linked := LinkPendingKeys(source, keys, moved != UpdNotChanged, env.linkFaults);
      if linked != UpdNotChanged && linked != UpdKeysOnly {
        result := linked;
      } else if moved == UpdNotChanged {
        result := linked;
      } else {
        result := if linked == UpdNotChanged then moved else UpdAll;
      }
    }

    // ---------- deletion ----------

    /** Deletes a pool object nobody links to. */
    method DeleteObject(hash: Hash)
      requires FsInv(disk)
      requires ObjFile(hash) in disk.files && disk.At(ObjFile(hash)).nlink < 2 ==> stats.objects > 0
      modifies this`disk, stats
      ensures View() == Operations.DeleteObject(old(View()), hash)
    {
      if ObjFile(hash) !in disk.files || disk.At(ObjFile(hash)).nlink >= 2 {
        return;
      }
      disk := Remove(disk, {ObjFile(hash)});
      if PoolDirMates(disk, hash) == {} {
        stats.RemoveObject(false);
      }
    }

    /** Deletes a source nobody links to, as far as its directory empties. */
    method DeleteSource(source: Hash)
      requires CacheInv(disk) && ValidPool(disk) && (SourceGoes(disk, source) ==> stats.sources > 0)
      modifies this`disk, stats
      ensures View() == Operations.DeleteSource(old(View()), source)
    {
      var ref := SrcFile(source, Ref);
      if ref !in disk.files || disk.At(ref).nlink >= 2 {
        return;
      }
      var listing := List(NamesIn(disk, source));
      var i := 0;
      while i < |listing|
        invariant i <= |listing| && View() == old(View())
      {
        if listing[i] != Ref {
          OutputIsNoObject(disk, listing[i]);
          DeleteObject(Hash(Render(listing[i])));
        }
        i := i + 1;
      }
      assert ParentExists(disk, ref);
      disk := Remove(disk, {ref});
      var filled := HaveLinkedOutputs(source);
      if filled {
        return;
      }
      disk := disk.(srcDirs := disk.srcDirs - {source});
      stats.RemoveSource(false);
    }

    /** Removes a key/prio directory, and its source if that would be left unreferenced. */
    method DeleteKey(slot: Slot)
      requires CacheInv(disk) && ValidPool(disk) && !DeleteFires(View(), slot)
      modifies this`disk, stats
      ensures CacheInv(disk)
      ensures View() == Operations.DeleteKey(old(View()), slot)
    {
      DeleteKeyInv(View(), slot);
      if slot !in disk.slots {
        return;
      }
      var present := GetSourceLink(slot);
      if present.Some? {
        var link := KeyLink(slot, present.value);
        UnlinkSlotInv(disk, slot, present.value);
        disk := Remove(disk, {link});
        DeleteSource(present.value);
        DropLinkStreams(old(View()), slot);
      }
      disk := disk.(slots := disk.slots - {slot});
      stats.RemoveStream(false);
    }

    // ---------- lookups ----------

    /** Stamps everything a successful lookup went through. */
    method MarkHotPath(key: string, source: Hash, objectHash: string)
      requires CacheInv(disk) && clock.Valid()
      modifies this`disk, this`poolTime, clock
      ensures clock.Valid() && CacheInv(disk)
      ensures Marked(old(disk), disk, key, source, objectHash, clock.Stamp())
      ensures poolTime == Some(clock.Stamp())
      ensures !clock.overflown ==> Ns(clock.Stamp()) == Ns(old(clock.Stamp())) + 1000
      ensures clock.overflown <==> old(clock.overflown) || (old(clock.sec) == MAX_INT64 && old(clock.usec) == 999_999)
    {
      var _ := clock.Increment();
      var now := clock.Stamp();
      poolTime := Some(now);
      var stamped: map<nat, Timespec> := map[];
      if ObjFile(Hash(objectHash)) in disk.files {
        stamped := stamped[disk.files[ObjFile(Hash(objectHash))] := now];
      }
      if SrcFile(source, Ref) in disk.files {
        stamped := stamped[disk.files[SrcFile(source, Ref)] := now];
      }
      RestampMarks(disk, key, source, objectHash, now, stamped);
      disk := Restamp(disk, map[key := now], stamped);
    }

    /** Scans a source directory for an output of a format. */
    method FindFormatLink(source: Hash, format: string, beyond: char)
      returns (found: Option<SrcName>, listing: seq<SrcName>)
      ensures Lists(listing, NamesIn(disk, source)) && found == FirstMatch(listing, format, beyond)
    {
      listing := List(NamesIn(disk, source));
      var i := 0;
      while i < |listing|
        invariant i <= |listing| && FirstMatch(listing[i..], format, beyond) == FirstMatch(listing, format, beyond)
      {
        assert listing[i..][0] == listing[i] && listing[i..][1..] == listing[i + 1..];
        if Matches(Render(listing[i]), format, beyond) {
          return Some(listing[i]), listing;
        }
        i := i + 1;
      }
      return None, listing;
    }

    /**
     * Looks up one key/prio directory; a hit marks what it used as recently
     * used.  A clock that has overflown is noticed when a picture is read.
     */
    method DoLookup(slot: Slot, hint: string, format: string, pending: JobQueue, beyond: char, readable: bool)
      returns (a: Answer)
      requires CacheInv(disk) && clock.Valid()
      modifies this`disk, this`poolTime, clock, stats, background
      ensures clock.Valid() && CacheInv(disk)
      ensures CanAnswer(old(disk), slot, hint, format, pending.Busy(), beyond, readable, a)
      ensures disk.slots == old(disk.slots) && disk.files == old(disk.files)
      ensures forall t :: CacheInvariant.View(disk, t) == CacheInvariant.View(old(disk), t)
      ensures stats.View() == if a.Found? then old(stats.View()).(changed := true) else old(stats.View())
      ensures poolTime == if a.Found? then Some(clock.Stamp()) else old(poolTime)
      ensures !a.Found? ==> disk == old(disk) && clock.Stamp() == old(clock.Stamp())
      ensures a.Found? ==>
        CurrentLink(old(disk), slot).Some? &&
        Marked(old(disk), disk, slot.key, CurrentLink(old(disk), slot).value, a.hash, clock.Stamp())
      ensures background.View() == if a.Found? && a.data.Some? && clock.overflown
                                   then old(background.View()).Do(Background.Append(Background.ResetTimestamps))
                                   else old(background.View())
    {
      if slot !in disk.slots {
        NoSlotNoLink(disk, slot);
        a := KeyUnknown;
        assert Lookup.DoLookup(disk, slot, hint, format, pending.Busy(), [], beyond, readable) == a;
        return;
      }
      var source := GetSourceLink(slot);
      if source.None? {
        a := Orphaned;
        assert Lookup.DoLookup(disk, slot, hint, format, pending.Busy(), [], beyond, readable) == a;
        return;
      }
      SourceNeverMissing(disk, slot);
      var used;
      a, used := LookupSource(slot, source.value, hint, format, pending, beyond, readable);
      if a.Found? {
        MarkHotPath(slot.key, source.value, used);
        stats.MarkForGc();
        if a.data.Some? && clock.overflown {
          var _ := background.AppendAction(Background.ResetTimestamps);
        }
      }
    }

    /** The part of a lookup that reads the source directory; `used` is the hash to be marked. */
    method LookupSource(slot: Slot, source: Hash, hint: string, format: string, pending: JobQueue, beyond: char,
                        readable: bool)
      returns (a: Answer, used: string)
      requires CacheInv(disk) && slot in disk.slots && source in disk.srcDirs && CurrentLink(disk, slot) == Some(source)
      ensures CanAnswer(disk, slot, hint, format, pending.Busy(), beyond, readable, a)
      ensures a.Found? ==> used == a.hash
    {
      used := "";
      var found, listing := FindFormatLink(source, format, beyond);
      if hint != "" && exists n | n in NamesIn(disk, source) :: Render(n) == format + ":" + hint {
        a, used := Found(hint, None), hint;
      } else {
        if found.None? {
          var busy := pending.IsSourcePending(source, false);
          a := if busy then IsPending else FormatNotSupported;
        } else {
          FirstMatchMatches(listing, format, beyond);
          NamesInHas(disk, source, found.value);
          a := ReadOutput(disk, source, found.value, format, readable);
          if a.Found? {
            used := a.hash;
          }
        }
      }
      assert Lookup.DoLookup(disk, slot, hint, format, pending.Busy(), listing, beyond, readable) == a;
    }

    /** Looks up the highest priority of a key. */
    method LookupHighest(key: string, hint: string, format: string, pending: JobQueue, beyond: char, readable: bool)
      returns (a: Answer, prio: byte)
      requires CacheInv(disk) && clock.Valid()
      modifies this`disk, this`poolTime, clock, stats, background
      ensures clock.Valid() && CacheInv(disk)
      ensures forall p: byte :: Slot(key, p) in old(disk.slots) ==> p <= prio
      ensures prio > 0 ==>
        Slot(key, prio) in old(disk.slots) &&
        CanAnswer(old(disk), Slot(key, prio), hint, format, pending.Busy(), beyond, readable, a)
      ensures prio == 0 ==> a == if key in old(disk.keyDirs) then KeyUnknown else LookupIoError
      ensures !a.Found? ==> disk == old(disk)
      ensures a.Found? ==>
        CurrentLink(old(disk), Slot(key, prio)).Some? &&
        Marked(old(disk), disk, key, CurrentLink(old(disk), Slot(key, prio)).value, a.hash, clock.Stamp())
      ensures forall t :: CacheInvariant.View(disk, t) == CacheInvariant.View(old(disk), t)
    {
      var names := List(set slot | slot in disk.slots && slot.key == key :: slot.prio);
      var listing := seq(|names|, i requires 0 <= i < |names| => Entry(DirName(names[i]), true));
      ListingOfKey(disk, key, names, listing);
      prio := FindHighestPriority(listing);
      HighestIsMaximum(disk, key, listing, prio);
      if prio > 0 {
        a := DoLookup(Slot(key, prio), hint, format, pending, beyond, readable);
      } else {
        a := if key in disk.keyDirs then KeyUnknown else LookupIoError;
      }
    }
  }

  /** Key directory, source and picture carry the time, all else is as it was, and no key leads elsewhere. */
  ghost predicate Marked(d: Disk, e: Disk, key: string, source: Hash, objectHash: string, now: Timespec)
    requires CacheInv(d)
  {
    && CacheInv(e) && e.files == d.files && e.slots == d.slots && e.srcDirs == d.srcDirs
    && e.keyDirs == (map k | k in d.keyDirs :: if k == key then now else d.keyDirs[k])
    && (forall p :: p in d.files ==> e.At(p) == d.At(p).(atime :=
          if Anchor(p) in {SrcFile(source, Ref), ObjFile(Hash(objectHash))} then now else d.At(p).atime))
    && (forall slot :: CacheInvariant.View(e, slot) == CacheInvariant.View(d, slot))
  }

  /** The inodes of the source's `.ref` and of the picture. */
  ghost predicate IsStamped(d: Disk, source: Hash, objectHash: string, i: nat) {
    || (ObjFile(Hash(objectHash)) in d.files && i == d.files[ObjFile(Hash(objectHash))])
    || (SrcFile(source, Ref) in d.files && i == d.files[SrcFile(source, Ref)])
  }

  /** Stamping the two inodes marks them under all their names. */
  lemma RestampMarks(d: Disk, key: string, source: Hash, objectHash: string, now: Timespec, stamped: map<nat, Timespec>)
    requires CacheInv(d)
    requires forall i :: i in stamped <==> IsStamped(d, source, objectHash, i)
    requires forall i :: i in stamped ==> stamped[i] == now
    ensures Marked(d, Restamp(d, map[key := now], stamped), key, source, objectHash, now)
  {
    RestampInv(d, map[key := now], stamped);
    var e := Restamp(d, map[key := now], stamped);
    forall slot
      ensures CacheInvariant.View(e, slot) == CacheInvariant.View(d, slot)
    {
      RestampView(d, map[key := now], stamped, slot);
    }
    forall p | p in d.files
      ensures e.At(p) == d.At(p).(atime :=
        if Anchor(p) in {SrcFile(source, Ref), ObjFile(Hash(objectHash))} then now else d.At(p).atime)
    {
      StampedNames(d, p, source, objectHash);
    }
  }

  lemma StampedNames(d: Disk, p: FilePath, source: Hash, objectHash: string)
    requires CacheInv(d) && p in d.files
    ensures IsStamped(d, source, objectHash, d.files[p]) <==>
      Anchor(p) == SrcFile(source, Ref) || Anchor(p) == ObjFile(Hash(objectHash))
  {
    OwnerStamped(d, p, SrcFile(source, Ref));
    OwnerStamped(d, p, ObjFile(Hash(objectHash)));
  }

  lemma OwnerStamped(d: Disk, p: FilePath, owner: FilePath)
    requires CacheInv(d) && p in d.files && Anchor(owner) == owner
    ensures Anchor(p) == owner <==> owner in d.files && d.files[p] == d.files[owner]
  {
  }

  lemma NoSlotNoLink(d: Disk, slot: Slot)
    requires CacheInv(d) && slot !in d.slots
    ensures CurrentLink(d, slot) == None
  {
  }

  lemma ListingOfKey(d: Disk, key: string, names: seq<byte>, listing: seq<Entry>)
    requires IsListing(names, set slot | slot in d.slots && slot.key == key :: slot.prio)
    requires |listing| == |names| && forall i :: 0 <= i < |names| ==> listing[i] == Entry(DirName(names[i]), true)
    ensures ListsKey(d, key, listing)
  {
    forall e
      ensures e in listing <==> e.isDirectory && exists p: byte :: Slot(key, p) in d.slots && e.name == DirName(p)
    {
      if e in listing {
        var i :| 0 <= i < |listing| && listing[i] == e;
        assert names[i] in names;
      }
      if e.isDirectory && exists p: byte :: Slot(key, p) in d.slots && e.name == DirName(p) {
        var p: byte :| Slot(key, p) in d.slots && e.name == DirName(p);
        assert Slot(key, p).prio in names;
        var i :| 0 <= i < |names| && names[i] == p;
        assert listing[i] == e;
      }
    }
  }

  lemma JoinNobody(q: QueueVal, slot: Slot, source: Hash)
    ensures !q.Pending().Holds(source) ==> q.JoinFor(slot, source) == q
  {
  }

  /** Every pool object is filed under the text of a digest. */
  ghost predicate ValidPool(d: Disk) {
    forall h :: ObjFile(h) in d.files ==> ValidHash(h)
  }

  lemma AddressedPoolIsValid(md5: Bytes -> Hash, d: Disk)
    requires FsInv(d) && ContentAddressed(md5, d) && IsDigest(md5)
    ensures ValidPool(d)
  {
  }

  /** The name of an output, taken for a hash, never names a pool object. */
  lemma OutputIsNoObject(d: Disk, n: SrcName)
    requires ValidPool(d) && n.Out?
    ensures ObjFile(Hash(Render(n))) !in d.files
  {
    assert Render(n)[|n.format|] == ':';
    assert !ValidHash(Hash(Render(n)));
  }

  lemma DropLinkStreams(c: Cache, slot: Slot)
    requires FsInv(c.disk)
    ensures DropLink(c, slot).counts.streams == c.counts.streams
  {
  }

  /** The name after the last slash of a path. */
  method FindPlainName(path: string) returns (name: Option<string>)
    ensures name == PlainName(path)
  {
    var i := |path|;
    while i > 0
      invariant 0 <= i <= |path| && '/' !in path[i..]
    {
      if path[i - 1] == '/' {
        LastSlash(path, i - 1);
        return Some(path[i..]);
      }
      assert path[i - 1..] == [path[i - 1]] + path[i..];
      i := i - 1;
    }
    NoSlashAtAll(path);
    return None;
  }

  lemma {:induction false} NoSlashAtAll(path: string)
    requires '/' !in path
    ensures PlainName(path) == None
  {
    if path != [] {
      NoSlashAtAll(path[1..]);
    }
  }

  lemma {:induction false} LastSlash(path: string, i: nat)
    requires i < |path| && path[i] == '/' && '/' !in path[i + 1..]
    ensures PlainName(path) == Some(path[i + 1..])
  {
    if i == 0 {
      NoSlashAtAll(path[1..]);
    } else {
      assert path[1..][i..] == path[i + 1..];
      LastSlash(path[1..], i - 1);
    }
  }

  lemma RemoveNothing(d: Disk)
    requires FsInv(d)
    ensures Remove(d, {}) == d
  {
  }

  lemma NamesInHas(d: Disk, source: Hash, n: SrcName)
    ensures n in NamesIn(d, source) <==> SrcFile(source, n) in d.files
  {
  }

  function LinksIn(d: Disk, slot: Slot): set<FilePath> {
    set p | p in d.files && p.KeyLink? && p.slot == slot
  }
}
