/** The garbage collector's loops over a cache nobody else changes meanwhile. */
module Collector {
  import opened CacheTypes
  import opened FileSystem
  import opened CacheInvariant
  import opened Operations
  import opened Accounting
  import opened Threshold
  import opened Collection
  import opened Manager

  // ---------- statistics of a category ----------

  /** Widens a minimum and a maximum by all ages of a category. */
  method CollectMinMax<K(==,!new)>(times: map<K, Timespec>, start: MinMax) returns (mm: MinMax)
    requires FileTimes(times)
    ensures start == MinMax(NEVER, EVER) || start.Accurate(times) ==> mm.Accurate(times)
  {
    var listing := List(times.Keys);
    mm := start;
    var i := 0;
    while i < |listing|
      invariant i <= |listing|
      invariant forall j :: 0 <= j < i ==> !times[listing[j]].Before(mm.min) && !mm.max.Before(times[listing[j]])
      invariant mm.min == start.min || exists k :: k in times && times[k] == mm.min
      invariant mm.max == start.max || exists k :: k in times && times[k] == mm.max
      invariant !start.min.Before(mm.min) && !mm.max.Before(start.max)
    {
      assert listing[i] in times.Keys;
      mm := mm.With(times[listing[i]]);
      i := i + 1;
    }
    assert forall k :: k in times ==> k in listing;
    if times != map[] {
      var k :| k in times;
      assert !times[k].Before(mm.min) && !mm.max.Before(times[k]);
    }
  }

  /** One more entry is kept. */
  lemma OldestExtends<K>(t: Timespec, times: map<K, Timespec>, k: K, x: Timespec)
    requires OldestOrNever(t, times) && k !in times && FileTime(x)
    ensures OldestOrNever(if x.Before(t) then x else t, times[k := x])
  {
    var bigger := times[k := x];
    assert bigger[k] == x;
    if times != map[] {
      var o :| o in times && times[o] == t;
      assert bigger[o] == t;
    }
  }

  // ---------- visiting one entry, under the manager's lock ----------

  method VisitKey(m: Manager, key: string, threshold: Timespec, oldest: Timespec)
    returns (removed: bool, kept: Timespec)
    requires OldKey(m.disk, key, threshold) ==> m.stats.streams > 0
    modifies m`disk, m.stats
    ensures m.View() == GcKey(old(m.View()), key, threshold)
    ensures removed <==> OldKey(old(m.disk), key, threshold)
    ensures kept ==
      if removed || key !in m.disk.keyDirs || !m.disk.keyDirs[key].Before(oldest) then oldest else m.disk.keyDirs[key]
  {
    removed, kept := false, oldest;
    if key !in m.disk.keyDirs {
      return;
    }
    if m.disk.keyDirs[key].Before(threshold) {
      m.disk := RmKeys(m.disk, {key});
      m.stats.RemoveStream(true);
      removed := true;
    } else if m.disk.keyDirs[key].Before(oldest) {
      kept := m.disk.keyDirs[key];
    }
  }

  method VisitSource(m: Manager, source: Hash, threshold: Timespec, oldest: Timespec)
    returns (removed: bool, kept: Timespec)
    requires FsInv(m.disk)
    requires DeadSource(m.disk, source, threshold) ==> m.stats.sources > 0
    modifies m`disk, m.stats
    ensures m.View() == GcSource(old(m.View()), source, threshold)
    ensures removed <==> DeadSource(old(m.disk), source, threshold)
    ensures removed ==> kept == oldest
    ensures !removed ==> kept == if old(m.disk.At(SrcFile(source, Ref))).atime.Before(oldest)
                                 then old(m.disk.At(SrcFile(source, Ref))).atime else oldest
  {
    var ref := SrcFile(source, Ref);
    removed, kept := false, oldest;
    if ref in m.disk.files && (m.disk.At(ref).nlink > 1 || !m.disk.At(ref).atime.Before(threshold)) {
      if m.disk.At(ref).atime.Before(oldest) {
        kept := m.disk.At(ref).atime;
      }
    } else {
      m.disk := RmSources(m.disk, {source});
      m.stats.RemoveSource(true);
      removed := true;
    }
  }

  method VisitObject(m: Manager, hash: Hash, threshold: Timespec, oldest: Timespec)
    returns (removed: bool, kept: Timespec)
    requires FsInv(m.disk)
    requires ObjFile(hash) !in m.disk.files || DeadObject(m.disk, hash, threshold) ==> m.stats.objects > 0
    modifies m`disk, m.stats
    ensures m.View() == GcObject(old(m.View()), hash, threshold)
    ensures removed <==> ObjFile(hash) !in old(m.disk.files) || DeadObject(old(m.disk), hash, threshold)
    ensures removed ==> kept == oldest
    ensures !removed ==> kept == if old(m.disk.At(ObjFile(hash))).atime.Before(oldest)
                                 then old(m.disk.At(ObjFile(hash))).atime else oldest
  {
    var obj := ObjFile(hash);
    removed, kept := false, oldest;
    if obj in m.disk.files && (m.disk.At(obj).nlink > 1 || !m.disk.At(obj).atime.Before(threshold)) {
      if m.disk.At(obj).atime.Before(oldest) {
        kept := m.disk.At(obj).atime;
      }
    } else {
      if obj in m.disk.files {
        m.disk := Remove(m.disk, {obj});
      }
      m.stats.RemoveObject(true);
      removed := true;
    }
  }

  // ---------- the three passes ----------

  lemma RmNothing(d: Disk)
    requires FsInv(d)
    ensures RmKeys(d, {}) == d && RmSources(d, {}) == d
  {
    RemoveNothing(d);
    assert LinksOfKeys(d, {}) == {} && FilesOfSources(d, {}) == {};
    assert d.keyDirs - {} == d.keyDirs;
  }

  lemma OneMore<T>(doomed: set<T>, seen: set<T>, x: T)
    requires x in doomed && x !in seen
    ensures doomed * (seen + {x}) == doomed * seen + {x}
    ensures |doomed * (seen + {x})| == |doomed * seen| + 1 <= |doomed|
  {
    assert doomed * (seen + {x}) == doomed * seen + {x};
    SubsetSize(doomed * (seen + {x}), doomed);
  }

  /** Part of the doomed entries is gone after part of a pass. */
  lemma KeysStep(d: Disk, threshold: Timespec, seen: set<string>, key: string)
    requires CacheInv(d) && key in d.keyDirs && key !in seen
    ensures var e := RmKeys(d, OldKeys(d, threshold) * seen);
      && CacheInv(e)
      && key in e.keyDirs && e.keyDirs[key] == d.keyDirs[key]
      && RmKeys(e, if key in OldKeys(d, threshold) then {key} else {}) ==
           RmKeys(d, OldKeys(d, threshold) * (seen + {key}))
  {
    var doomed := OldKeys(d, threshold);
    RmKeysInv(d, doomed * seen);
    var more := if key in doomed then {key} else {};
    RmKeysTwice(d, doomed * seen, more);
    assert doomed * (seen + {key}) == doomed * seen + more;
  }

  /** How far a pass over the keys got: what it removed, counted and kept among those seen. */
  ghost predicate KeysDone(e: Disk, d: Disk, threshold: Timespec, seen: set<string>, deleted: nat, oldest: Timespec) {
    var doomed := OldKeys(d, threshold);
    && CacheInv(e)
    && e == RmKeys(d, doomed * seen)
    && deleted == |doomed * seen|
    && OldestOrNever(oldest, Kept(d.keyDirs, doomed, seen))
  }

  /** The oldest entry kept after one more was looked at. */
  function Older(oldest: Timespec, t: Timespec): Timespec {
    if t.Before(oldest) then t else oldest
  }

  lemma KeysNext(e: Disk, d: Disk, threshold: Timespec, seen: set<string>, key: string, deleted: nat, oldest: Timespec)
    requires CacheInv(d) && key in d.keyDirs && key !in seen && FileTime(d.keyDirs[key])
    requires KeysDone(e, d, threshold, seen, deleted, oldest)
    ensures key in e.keyDirs && e.keyDirs[key] == d.keyDirs[key]
    ensures OldKey(e, key, threshold) ==>
      KeysDone(RmKeys(e, {key}), d, threshold, seen + {key}, deleted + 1, oldest) && deleted < |OldKeys(d, threshold)|
    ensures !OldKey(e, key, threshold) ==>
      KeysDone(e, d, threshold, seen + {key}, deleted, Older(oldest, d.keyDirs[key]))
  {
    var doomed := OldKeys(d, threshold);
    KeysStep(d, threshold, seen, key);
    RmNothing(e);
    RmKeysInv(d, doomed * (seen + {key}));
    SubsetSize(doomed * (seen + {key}), doomed);
    assert doomed * (seen + {key}) == doomed * seen + if key in doomed then {key} else {};
    KeptNext(d.keyDirs, doomed, seen, key, oldest);
  }

  lemma KeysStart(d: Disk, threshold: Timespec)
    requires CacheInv(d)
    ensures KeysDone(d, d, threshold, {}, 0, NEVER)
  {
    RmNothing(d);
    assert OldKeys(d, threshold) * {} == {};
  }

  lemma KeysEnd(e: Disk, d: Disk, threshold: Timespec, deleted: nat, oldest: Timespec)
    requires CacheInv(d) && KeysDone(e, d, threshold, d.keyDirs.Keys, deleted, oldest)
    ensures e == GcStreams(d, threshold) && deleted == |OldKeys(d, threshold)| && OldestOrNever(oldest, e.keyDirs)
  {
    var doomed := OldKeys(d, threshold);
    assert doomed * d.keyDirs.Keys == doomed;
    assert Kept(d.keyDirs, doomed, d.keyDirs.Keys) == e.keyDirs;
  }

  method PassKey(m: Manager, ghost d: Disk, threshold: Timespec, ghost seen: set<string>, key: string, deleted: nat,
                 oldest: Timespec)
    returns (total: nat, kept: Timespec)
    requires CacheInv(d) && key in d.keyDirs && key !in seen && FileTime(d.keyDirs[key])
    requires KeysDone(m.disk, d, threshold, seen, deleted, oldest)
    requires m.stats.streams + deleted >= |OldKeys(d, threshold)|
    modifies m`disk, m.stats
    ensures KeysDone(m.disk, d, threshold, seen + {key}, total, kept)
    ensures m.stats.streams + total == old(m.stats.streams) + deleted
    ensures m.stats.View() == old(m.stats.View()).(streams := m.stats.streams)
  {
    KeysNext(m.disk, d, threshold, seen, key, deleted, oldest);
    var removed;
    removed, kept := VisitKey(m, key, threshold, oldest);
    total := if removed then deleted + 1 else deleted;
  }

  method PassKeys(m: Manager, ghost d: Disk, threshold: Timespec, listing: seq<string>)
    returns (deleted: nat, oldest: Timespec)
    requires CacheInv(d) && m.disk == d && FileTimes(d.keyDirs) && IsListing(listing, d.keyDirs.Keys)
    requires m.stats.streams >= |OldKeys(d, threshold)|
    modifies m`disk, m.stats
    ensures KeysDone(m.disk, d, threshold, Taken(listing, |listing|), deleted, oldest)
    ensures m.stats.streams + deleted == old(m.stats.streams)
    ensures m.stats.View() == old(m.stats.View()).(streams := m.stats.streams)
  {
    deleted, oldest := 0, NEVER;
    KeysStart(d, threshold);
    var i := 0;
    while i < |listing|
      invariant i <= |listing| && KeysDone(m.disk, d, threshold, Taken(listing, i), deleted, oldest)
      invariant m.stats.streams + deleted == old(m.stats.streams)
      invariant m.stats.View() == old(m.stats.View()).(streams := m.stats.streams)
    {
      TakenNext(listing, i);
      assert listing[i] in d.keyDirs.Keys;
      deleted, oldest := PassKey(m, d, threshold, Taken(listing, i), listing[i], deleted, oldest);
      i := i + 1;
    }
  }

  method DecimateStreams(m: Manager, threshold: Timespec) returns (deleted: nat, oldest: Timespec)
    requires CacheInv(m.disk) && FileTimes(m.disk.keyDirs) && m.stats.streams >= |OldKeys(m.disk, threshold)|
    modifies m`disk, m.stats
    ensures CacheInv(m.disk) && m.disk == GcStreams(old(m.disk), threshold)
    ensures deleted == |OldKeys(old(m.disk), threshold)| <= old(m.stats.streams)
    ensures m.stats.View() == old(m.stats.View()).(streams := old(m.stats.streams) - deleted)
    ensures OldestOrNever(oldest, m.disk.keyDirs)
  {
    ghost var d := m.disk;
    var listing := List(m.disk.keyDirs.Keys);
    deleted, oldest := PassKeys(m, d, threshold, listing);
    TakenAll(listing, d.keyDirs.Keys);
    KeysEnd(m.disk, d, threshold, deleted, oldest);
  }

  /** The ages of the entries seen so far and not doomed. */
  function Kept<K>(times: map<K, Timespec>, doomed: set<K>, seen: set<K>): map<K, Timespec> {
    map k | k in times && k in seen && k !in doomed :: times[k]
  }

  lemma KeptNext<K>(times: map<K, Timespec>, doomed: set<K>, seen: set<K>, key: K, oldest: Timespec)
    requires key !in seen && (key !in doomed ==> key in times && FileTime(times[key]))
    requires OldestOrNever(oldest, Kept(times, doomed, seen))
    ensures key in doomed ==> Kept(times, doomed, seen + {key}) == Kept(times, doomed, seen)
    ensures key !in doomed ==>
      OldestOrNever(if times[key].Before(oldest) then times[key] else oldest, Kept(times, doomed, seen + {key}))
  {
    if key !in doomed {
      OldestExtends(oldest, Kept(times, doomed, seen), key, times[key]);
      assert Kept(times, doomed, seen + {key}) == Kept(times, doomed, seen)[key := times[key]];
    }
  }

  // ---------- sources ----------

  lemma SourcesStep(d: Disk, threshold: Timespec, seen: set<Hash>, source: Hash)
    requires CacheInv(d) && source in d.srcDirs && source !in seen
    ensures var dead := DeadSources(d, threshold);
      var e := RmSources(d, dead * seen);
      && CacheInv(e)
      && (DeadSource(e, source, threshold) <==> source in dead)
      && (source !in dead ==>
            SrcFile(source, Ref) in d.files && e.At(SrcFile(source, Ref)) == d.At(SrcFile(source, Ref)))
      && RmSources(e, if source in dead then {source} else {}) == RmSources(d, dead * (seen + {source}))
  {
    var dead := DeadSources(d, threshold);
    RmSourcesInv(d, dead * seen);
    RefUntouched(d, dead * seen, source);
    var more := if source in dead then {source} else {};
    RmSourcesTwice(d, dead * seen, more);
    assert dead * (seen + {source}) == dead * seen + more;
  }

  ghost predicate SourcesDone(e: Disk, d: Disk, threshold: Timespec, seen: set<Hash>, deleted: nat, oldest: Timespec)
    requires FsInv(d)
  {
    var dead := DeadSources(d, threshold);
    && CacheInv(e)
    && e == RmSources(d, dead * seen)
    && deleted == |dead * seen|
    && OldestOrNever(oldest, Kept(SourceTimes(d), dead, seen))
  }

  lemma SourcesNext(e: Disk, d: Disk, threshold: Timespec, seen: set<Hash>, source: Hash, deleted: nat,
                    oldest: Timespec)
    requires CacheInv(d) && source in d.srcDirs && source !in seen && FileTimes(SourceTimes(d))
    requires SourcesDone(e, d, threshold, seen, deleted, oldest)
    ensures DeadSource(e, source, threshold) <==> source in DeadSources(d, threshold)
    ensures DeadSource(e, source, threshold) ==>
      SourcesDone(RmSources(e, {source}), d, threshold, seen + {source}, deleted + 1, oldest) &&
      deleted < |DeadSources(d, threshold)|
    ensures !DeadSource(e, source, threshold) ==>
      SourcesDone(e, d, threshold, seen + {source}, deleted, Older(oldest, e.At(SrcFile(source, Ref)).atime))
  {
    SourcesStep(d, threshold, seen, source);
    if source in DeadSources(d, threshold) {
      SourceGoes(e, d, threshold, seen, source, deleted, oldest);
    } else {
      SourceStays(e, d, threshold, seen, source, deleted, oldest);
    }
  }

  lemma SourceGoes(e: Disk, d: Disk, threshold: Timespec, seen: set<Hash>, source: Hash, deleted: nat, oldest: Timespec)
    requires CacheInv(d) && source in DeadSources(d, threshold) && source !in seen
    requires SourcesDone(e, d, threshold, seen, deleted, oldest)
    ensures SourcesDone(RmSources(e, {source}), d, threshold, seen + {source}, deleted + 1, oldest)
    ensures deleted < |DeadSources(d, threshold)|
  {
    var dead := DeadSources(d, threshold);
    SourcesStep(d, threshold, seen, source);
    RmSourcesInv(d, dead * (seen + {source}));
    OneMore(dead, seen, source);
    KeptNext(SourceTimes(d), dead, seen, source, oldest);
  }

  lemma SourceStays(e: Disk, d: Disk, threshold: Timespec, seen: set<Hash>, source: Hash, deleted: nat,
                    oldest: Timespec)
    requires CacheInv(d) && source in d.srcDirs && source !in seen && source !in DeadSources(d, threshold)
    requires FileTimes(SourceTimes(d)) && SourcesDone(e, d, threshold, seen, deleted, oldest)
    ensures SrcFile(source, Ref) in e.files
    ensures SourcesDone(e, d, threshold, seen + {source}, deleted, Older(oldest, e.At(SrcFile(source, Ref)).atime))
  {
    var dead := DeadSources(d, threshold);
    SourcesStep(d, threshold, seen, source);
    assert dead * (seen + {source}) == dead * seen;
    KeptNext(SourceTimes(d), dead, seen, source, oldest);
  }

  lemma SourcesStart(d: Disk, threshold: Timespec)
    requires CacheInv(d)
    ensures SourcesDone(d, d, threshold, {}, 0, NEVER)
  {
    RmNothing(d);
    assert DeadSources(d, threshold) * {} == {};
  }

  lemma SourcesEnd(e: Disk, d: Disk, threshold: Timespec, deleted: nat, oldest: Timespec)
    requires CacheInv(d) && SourcesDone(e, d, threshold, d.srcDirs, deleted, oldest)
    ensures e == GcSources(d, threshold) && deleted == |DeadSources(d, threshold)|
    ensures OldestOrNever(oldest, SourceTimes(e))
  {
    assert DeadSources(d, threshold) * d.srcDirs == DeadSources(d, threshold);
    KeptSources(d, threshold);
  }

  method PassSource(m: Manager, ghost d: Disk, threshold: Timespec, ghost seen: set<Hash>, source: Hash, deleted: nat,
                    oldest: Timespec)
    returns (total: nat, kept: Timespec)
    requires CacheInv(d) && source in d.srcDirs && source !in seen && FileTimes(SourceTimes(d))
    requires SourcesDone(m.disk, d, threshold, seen, deleted, oldest)
    requires m.stats.sources + deleted >= |DeadSources(d, threshold)|
    modifies m`disk, m.stats
    ensures SourcesDone(m.disk, d, threshold, seen + {source}, total, kept)
    ensures m.stats.sources + total == old(m.stats.sources) + deleted
    ensures m.stats.View() == old(m.stats.View()).(sources := m.stats.sources)
  {
    SourcesNext(m.disk, d, threshold, seen, source, deleted, oldest);
    var removed;
    removed, kept := VisitSource(m, source, threshold, oldest);
    total := if removed then deleted + 1 else deleted;
  }

  method DecimateSources(m: Manager, threshold: Timespec) returns (deleted: nat, oldest: Timespec)
    requires CacheInv(m.disk) && FileTimes(SourceTimes(m.disk)) && m.stats.sources >= |DeadSources(m.disk, threshold)|
    modifies m`disk, m.stats
    ensures CacheInv(m.disk) && m.disk == GcSources(old(m.disk), threshold)
    ensures deleted == |DeadSources(old(m.disk), threshold)| <= old(m.stats.sources)
    ensures m.stats.View() == old(m.stats.View()).(sources := old(m.stats.sources) - deleted)
    ensures OldestOrNever(oldest, SourceTimes(m.disk))
  {
    ghost var d := m.disk;
    var listing := List(m.disk.srcDirs);
    deleted, oldest := 0, NEVER;
    SourcesStart(d, threshold);
    var i := 0;
    while i < |listing|
      invariant i <= |listing| && SourcesDone(m.disk, d, threshold, Taken(listing, i), deleted, oldest)
      invariant m.stats.sources + deleted == old(m.stats.sources)
      invariant m.stats.View() == old(m.stats.View()).(sources := m.stats.sources)
    {
      TakenNext(listing, i);
      deleted, oldest := PassSource(m, d, threshold, Taken(listing, i), listing[i], deleted, oldest);
      i := i + 1;
    }
    TakenAll(listing, d.srcDirs);
    SourcesEnd(m.disk, d, threshold, deleted, oldest);
  }

  lemma KeptSources(d: Disk, threshold: Timespec)
    requires CacheInv(d)
    ensures CacheInv(GcSources(d, threshold))
    ensures Kept(SourceTimes(d), DeadSources(d, threshold), d.srcDirs) == SourceTimes(GcSources(d, threshold))
  {
    GcSourcesTimes(d, threshold);
    var kept, after := Kept(SourceTimes(d), DeadSources(d, threshold), d.srcDirs), SourceTimes(GcSources(d, threshold));
    forall s | s in kept
      ensures s in after
    {
      assert SrcFile(s, Ref) in GcSources(d, threshold).files;
    }
    SameMap(kept, after);
  }

  // ---------- objects ----------

  lemma ObjectsStep(d: Disk, threshold: Timespec, seen: set<FilePath>, obj: FilePath)
    requires CacheInv(d) && obj.ObjFile? && obj in d.files && obj !in seen
    ensures var dead := DeadObjects(d, threshold);
      var e := Remove(d, dead * seen);
      && CacheInv(e)
      && obj in e.files && e.At(obj) == d.At(obj)
      && (DeadObject(e, obj.hash, threshold) <==> obj in dead)
      && Remove(e, if obj in dead then {obj} else {}) == Remove(d, dead * (seen + {obj}))
  {
    var dead := DeadObjects(d, threshold);
    ObjectsUntouched(d, dead * seen, obj);
    var more := if obj in dead then {obj} else {};
    RemoveTwice(d, dead * seen, more);
    assert dead * (seen + {obj}) == dead * seen + more;
    assert obj == ObjFile(obj.hash);
  }

  ghost predicate ObjectsDone(e: Disk, d: Disk, threshold: Timespec, seen: set<FilePath>, deleted: nat,
                              oldest: Timespec)
    requires FsInv(d)
  {
    var dead := DeadObjects(d, threshold);
    && CacheInv(e)
    && e == Remove(d, dead * seen)
    && deleted == |dead * seen|
    && OldestOrNever(oldest, Kept(ObjectTimes(d), dead, seen))
  }

  lemma ObjectsNext(e: Disk, d: Disk, threshold: Timespec, seen: set<FilePath>, obj: FilePath, deleted: nat,
                    oldest: Timespec)
    requires CacheInv(d) && obj.ObjFile? && obj in d.files && obj !in seen && FileTimes(ObjectTimes(d))
    requires ObjectsDone(e, d, threshold, seen, deleted, oldest)
    ensures obj in e.files && (DeadObject(e, obj.hash, threshold) <==> obj in DeadObjects(d, threshold))
    ensures DeadObject(e, obj.hash, threshold) ==>
      ObjectsDone(Remove(e, {obj}), d, threshold, seen + {obj}, deleted + 1, oldest) &&
      deleted < |DeadObjects(d, threshold)|
    ensures !DeadObject(e, obj.hash, threshold) ==>
      ObjectsDone(e, d, threshold, seen + {obj}, deleted, Older(oldest, e.At(obj).atime))
  {
    ObjectsStep(d, threshold, seen, obj);
    if obj in DeadObjects(d, threshold) {
      ObjectGoes(e, d, threshold, seen, obj, deleted, oldest);
    } else {
      ObjectStays(e, d, threshold, seen, obj, deleted, oldest);
    }
  }

  lemma ObjectGoes(e: Disk, d: Disk, threshold: Timespec, seen: set<FilePath>, obj: FilePath, deleted: nat,
                   oldest: Timespec)
    requires CacheInv(d) && obj.ObjFile? && obj in d.files && obj !in seen && obj in DeadObjects(d, threshold)
    requires ObjectsDone(e, d, threshold, seen, deleted, oldest)
    ensures ObjectsDone(Remove(e, {obj}), d, threshold, seen + {obj}, deleted + 1, oldest)
    ensures deleted < |DeadObjects(d, threshold)|
  {
    var dead := DeadObjects(d, threshold);
    ObjectsStep(d, threshold, seen, obj);
    RmObjectsInv(d, dead * (seen + {obj}));
    OneMore(dead, seen, obj);
    KeptNext(ObjectTimes(d), dead, seen, obj, oldest);
  }

  lemma ObjectStays(e: Disk, d: Disk, threshold: Timespec, seen: set<FilePath>, obj: FilePath, deleted: nat,
                    oldest: Timespec)
    requires CacheInv(d) && obj.ObjFile? && obj in d.files && obj !in seen && obj !in DeadObjects(d, threshold)
    requires FileTimes(ObjectTimes(d)) && ObjectsDone(e, d, threshold, seen, deleted, oldest)
    ensures obj in e.files && ObjectsDone(e, d, threshold, seen + {obj}, deleted, Older(oldest, e.At(obj).atime))
  {
    var dead := DeadObjects(d, threshold);
    ObjectsStep(d, threshold, seen, obj);
    assert dead * (seen + {obj}) == dead * seen;
    KeptNext(ObjectTimes(d), dead, seen, obj, oldest);
  }

  lemma ObjectsStart(d: Disk, threshold: Timespec)
    requires CacheInv(d)
    ensures ObjectsDone(d, d, threshold, {}, 0, NEVER)
  {
    RemoveNothing(d);
    assert DeadObjects(d, threshold) * {} == {};
  }

  lemma ObjectsEnd(e: Disk, d: Disk, threshold: Timespec, deleted: nat, oldest: Timespec)
    requires CacheInv(d) && ObjectsDone(e, d, threshold, PoolFiles(d), deleted, oldest)
    ensures e == GcObjects(d, threshold) && deleted == |DeadObjects(d, threshold)|
    ensures OldestOrNever(oldest, ObjectTimes(e))
  {
    assert DeadObjects(d, threshold) * PoolFiles(d) == DeadObjects(d, threshold);
    KeptObjects(d, threshold);
  }

  method PassObject(m: Manager, ghost d: Disk, threshold: Timespec, ghost seen: set<FilePath>, obj: FilePath,
                    deleted: nat, oldest: Timespec)
    returns (total: nat, kept: Timespec)
    requires CacheInv(d) && obj.ObjFile? && obj in d.files && obj !in seen && FileTimes(ObjectTimes(d))
    requires ObjectsDone(m.disk, d, threshold, seen, deleted, oldest)
    requires m.stats.objects + deleted >= |DeadObjects(d, threshold)|
    modifies m`disk, m.stats
    ensures ObjectsDone(m.disk, d, threshold, seen + {obj}, total, kept)
    ensures m.stats.objects + total == old(m.stats.objects) + deleted
    ensures m.stats.View() == old(m.stats.View()).(objects := m.stats.objects)
  {
    ObjectsNext(m.disk, d, threshold, seen, obj, deleted, oldest);
    var removed;
    removed, kept := VisitObject(m, obj.hash, threshold, oldest);
    total := if removed then deleted + 1 else deleted;
  }

  method DecimateObjects(m: Manager, threshold: Timespec) returns (deleted: nat, oldest: Timespec)
    requires CacheInv(m.disk) && FileTimes(ObjectTimes(m.disk)) && m.stats.objects >= |DeadObjects(m.disk, threshold)|
    modifies m`disk, m.stats
    ensures CacheInv(m.disk) && m.disk == GcObjects(old(m.disk), threshold)
    ensures deleted == |DeadObjects(old(m.disk), threshold)| <= old(m.stats.objects)
    ensures m.stats.View() == old(m.stats.View()).(objects := old(m.stats.objects) - deleted)
    ensures OldestOrNever(oldest, ObjectTimes(m.disk))
  {
    ghost var d := m.disk;
    var listing := List(PoolFiles(m.disk));
    deleted, oldest := 0, NEVER;
    ObjectsStart(d, threshold);
    var i := 0;
    while i < |listing|
      invariant i <= |listing| && ObjectsDone(m.disk, d, threshold, Taken(listing, i), deleted, oldest)
      invariant m.stats.objects + deleted == old(m.stats.objects)
      invariant m.stats.View() == old(m.stats.View()).(objects := m.stats.objects)
    {
      TakenNext(listing, i);
      assert listing[i] in PoolFiles(d) && listing[i] == ObjFile(listing[i].hash);
      deleted, oldest := PassObject(m, d, threshold, Taken(listing, i), listing[i], deleted, oldest);
      i := i + 1;
    }
    TakenAll(listing, PoolFiles(d));
    ObjectsEnd(m.disk, d, threshold, deleted, oldest);
  }

  lemma KeptObjects(d: Disk, threshold: Timespec)
    requires CacheInv(d)
    ensures CacheInv(GcObjects(d, threshold))
    ensures Kept(ObjectTimes(d), DeadObjects(d, threshold), PoolFiles(d)) == ObjectTimes(GcObjects(d, threshold))
  {
    GcObjectsTimes(d, threshold);
    SameMap(Kept(ObjectTimes(d), DeadObjects(d, threshold), PoolFiles(d)), ObjectTimes(GcObjects(d, threshold)));
  }
}
