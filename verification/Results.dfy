/**
 * What an update answers, as a whole and for each key that waited, told from
 * the entries on disk before it.
 */
module Results {
  import opened CacheTypes
  import opened FileSystem
  import opened CacheInvariant
  import opened Operations
  import opened Accounting
  import opened Filling
  import opened Requests

  // ---------- one pending key ----------

  /** The pending key at position `i`: what becomes of its link, its result, and the answer so far. */
  lemma LinkOneExact(k: KeysOutcome, source: Hash, i: nat, objectsAdded: bool, link: Fault)
    requires CacheInv(k.disk) && i < |k.keys| && k.GoesOn()
    ensures var slot, n := k.keys[i].slot, LinkOne(k, source, i, objectsAdded, link);
      var linkable := link == Fine && SrcFile(source, Ref) in k.disk.files;
      && CacheInv(n.disk) && n.keys == k.keys[i := PendingKey(slot, n.keys[i].result)]
      && n.disk.slots == k.disk.slots
      && (forall p: FilePath :: !(p.KeyLink? && p.slot == slot) ==> (p in n.disk.files <==> p in k.disk.files))
      && (slot !in k.disk.slots ==> n == k)
      && (KeyLink(slot, source) in k.disk.files ==>
            && n.disk == k.disk && n.result == k.result
            && n.keys[i].result == if objectsAdded then Inserted else NotChanged)
      && (slot in k.disk.slots && KeyLink(slot, source) !in k.disk.files && linkable ==>
            && KeyLink(slot, source) in n.disk.files
            && ((exists t :: KeyLink(slot, t) in k.disk.files) ==>
                  n.result == UpdKeysOnly && n.keys[i].result == Replaced)
            && ((forall t :: KeyLink(slot, t) !in k.disk.files) ==>
                  n.result == UpdInternalError && n.keys[i].result == Inserted))
      && (slot in k.disk.slots && KeyLink(slot, source) !in k.disk.files && !linkable ==>
            && (link == NoSpace ==> n.result == UpdDiskFull && n.keys[i].result == DiskFull)
            && (link != NoSpace ==> n.result == UpdIoError && n.keys[i].result == IoError))
  {
    var slot := k.keys[i].slot;
    NewKeyHasNoLinkUnless(k.disk, slot);
    if slot in k.disk.slots {
      if KeyLink(slot, source) in k.disk.files {
        LinkedSourceExists(k.disk, slot, source);
        Linked(k.disk, slot, source, Inserted);
        CurrentLinkIs(k.disk, slot, source);
      } else if link == Fine && SrcFile(source, Ref) in k.disk.files {
        Linked(k.disk, slot, source, Inserted);
      } else {
        NotLinked(k.disk, slot, source, Inserted, link);
      }
    }
  }

  // ---------- all pending keys ----------

  /** Position `j` of the keys from `i` on: its key is linked to the source before the loop gets there. */
  ghost predicate LinkedBy(d: Disk, keys: seq<PendingKey>, source: Hash, i: nat, j: nat)
    requires i <= j < |keys|
  {
    KeyLink(keys[j].slot, source) in d.files || exists l :: i <= l < j && keys[l].slot == keys[j].slot
  }

  /** It can be linked: there is no directory, or no need, or a link to replace and nothing in the way. */
  ghost predicate MayLink(d: Disk, keys: seq<PendingKey>, source: Hash, i: nat, j: nat, faults: seq<Fault>)
    requires i <= j < |keys|
  {
    || keys[j].slot !in d.slots
    || LinkedBy(d, keys, source, i, j)
    || ((exists t :: KeyLink(keys[j].slot, t) in d.files) &&
        FaultAt(faults, j) == Fine && SrcFile(source, Ref) in d.files)
  }

  /** The result that it gets if all can be linked. */
  ghost predicate Told(r: AddKeyResult, d: Disk, keys: seq<PendingKey>, source: Hash, i: nat, j: nat,
                       objectsAdded: bool)
    requires i <= j < |keys|
  {
    r == (if keys[j].slot !in d.slots then keys[j].result
          else if !LinkedBy(d, keys, source, i, j) then Replaced
          else if objectsAdded then Inserted
          else NotChanged)
  }

  /** Some key is moved from another source. */
  ghost predicate SomeMoved(d: Disk, keys: seq<PendingKey>, source: Hash, i: nat)
    requires i <= |keys|
  {
    exists j :: i <= j < |keys| && keys[j].slot in d.slots && !LinkedBy(d, keys, source, i, j)
  }

  /** One step of the loop changes nothing about the keys after it, except that its own key is linked by then. */
  ghost predicate Advances(d: Disk, e: Disk, source: Hash, slot: Slot) {
    && e.slots == d.slots
    && (forall p: FilePath :: !(p.KeyLink? && p.slot == slot) ==> (p in e.files <==> p in d.files))
    && (slot in d.slots ==> KeyLink(slot, source) in e.files)
    && (slot !in d.slots ==> e == d)
  }

  lemma Advance(d: Disk, e: Disk, keys: seq<PendingKey>, more: seq<PendingKey>, source: Hash, i: nat, j: nat,
                faults: seq<Fault>)
    requires i < j < |keys| && |more| == |keys| && CacheInv(d)
    requires forall l :: 0 <= l < |keys| ==> more[l].slot == keys[l].slot
    requires Advances(d, e, source, keys[i].slot)
    ensures keys[j].slot in d.slots ==>
      (LinkedBy(e, more, source, i + 1, j) <==> LinkedBy(d, keys, source, i, j))
    ensures MayLink(e, more, source, i + 1, j, faults) <==> MayLink(d, keys, source, i, j, faults)
  {
    if keys[j].slot == keys[i].slot {
      assert LinkedBy(d, keys, source, i, j);
    } else {
      assert forall t :: KeyLink(keys[j].slot, t) in e.files <==> KeyLink(keys[j].slot, t) in d.files;
    }
  }

  /** Why a key cannot be linked, as it is told itself and as the whole update is. */
  ghost predicate Cause(d: Disk, source: Hash, fault: Fault, r: AddKeyResult, u: UpdateResult) {
    if fault == NoSpace then r == DiskFull && u == UpdDiskFull
    else if fault != Fine || SrcFile(source, Ref) !in d.files then r == IoError && u == UpdIoError
    else r == Inserted && u == UpdInternalError
  }

  /** The loop stops at the first key that cannot be linked, and leaves the keys after it as they were. */
  ghost predicate StopsAt(k: KeysOutcome, r: KeysOutcome, source: Hash, i: nat, f: nat, faults: seq<Fault>)
    requires i <= |k.keys| && |r.keys| == |k.keys|
  {
    && i <= f < |k.keys|
    && !MayLink(k.disk, k.keys, source, i, f, faults)
    && (forall j :: i <= j < f ==> MayLink(k.disk, k.keys, source, i, j, faults))
    && (forall j :: f < j < |k.keys| ==> r.keys[j] == k.keys[j])
    && Cause(k.disk, source, FaultAt(faults, f), r.keys[f].result, r.result)
  }

  /** The loop gets through if and only if every key can be linked, and then the keys have these results. */
  ghost predicate LoopExact(k: KeysOutcome, r: KeysOutcome, source: Hash, i: nat, objectsAdded: bool,
                            faults: seq<Fault>)
    requires i <= |k.keys| && |r.keys| == |k.keys|
  {
    && (forall j :: 0 <= j < i ==> r.keys[j] == k.keys[j])
    && (r.GoesOn() <==> forall j :: i <= j < |k.keys| ==> MayLink(k.disk, k.keys, source, i, j, faults))
    && (r.GoesOn() ==> forall j :: i <= j < |k.keys| ==>
          r.keys[j].slot == k.keys[j].slot && Told(r.keys[j].result, k.disk, k.keys, source, i, j, objectsAdded))
    && (r.GoesOn() ==> r.result == if SomeMoved(k.disk, k.keys, source, i) then UpdKeysOnly else k.result)
    && (!r.GoesOn() ==> exists f: nat :: StopsAt(k, r, source, i, f, faults))
  }

  lemma {:induction false} LinkKeysExact(k: KeysOutcome, source: Hash, i: nat, objectsAdded: bool, faults: seq<Fault>)
    requires CacheInv(k.disk) && i <= |k.keys| && k.GoesOn()
    ensures var r := LinkKeys(k, source, i, objectsAdded, faults);
      |r.keys| == |k.keys| && LoopExact(k, r, source, i, objectsAdded, faults)
    decreases |k.keys| - i
  {
    if i < |k.keys| {
      LinkOneExact(k, source, i, objectsAdded, FaultAt(faults, i));
      LinkOneInv(k, source, i, objectsAdded, FaultAt(faults, i));
      var n := LinkOne(k, source, i, objectsAdded, FaultAt(faults, i));
      StepExact(k, source, i, objectsAdded, faults);
      if n.GoesOn() {
        LinkKeysExact(n, source, i + 1, objectsAdded, faults);
        LoopStep(k, n, LinkKeys(n, source, i + 1, objectsAdded, faults), source, i, objectsAdded, faults);
      } else {
        assert LinkKeys(k, source, i, objectsAdded, faults) == n;
        assert StopsAt(k, n, source, i, i, faults);
      }
    }
  }

  /** The first key of the rest. */
  lemma StepExact(k: KeysOutcome, source: Hash, i: nat, objectsAdded: bool, faults: seq<Fault>)
    requires CacheInv(k.disk) && i < |k.keys| && k.GoesOn()
    ensures var n := LinkOne(k, source, i, objectsAdded, FaultAt(faults, i));
      && (n.GoesOn() <==> MayLink(k.disk, k.keys, source, i, i, faults))
      && (!n.GoesOn() ==>
            Cause(k.disk, source, FaultAt(faults, i), n.keys[i].result, n.result))
      && (n.GoesOn() ==>
            && Advances(k.disk, n.disk, source, k.keys[i].slot)
            && Told(n.keys[i].result, k.disk, k.keys, source, i, i, objectsAdded)
            && n.result == if k.keys[i].slot in k.disk.slots && !LinkedBy(k.disk, k.keys, source, i, i)
                           then UpdKeysOnly else k.result)
  {
    LinkOneExact(k, source, i, objectsAdded, FaultAt(faults, i));
    NewKeyHasNoLinkUnless(k.disk, k.keys[i].slot);
  }

  lemma LoopStep(k: KeysOutcome, n: KeysOutcome, r: KeysOutcome, source: Hash, i: nat, objectsAdded: bool,
                 faults: seq<Fault>)
    requires CacheInv(k.disk) && i < |k.keys| && |r.keys| == |n.keys| == |k.keys| && k.GoesOn() && n.GoesOn()
    requires n.keys == k.keys[i := PendingKey(k.keys[i].slot, n.keys[i].result)]
    requires MayLink(k.disk, k.keys, source, i, i, faults) && Advances(k.disk, n.disk, source, k.keys[i].slot)
    requires Told(n.keys[i].result, k.disk, k.keys, source, i, i, objectsAdded)
    requires n.result == if k.keys[i].slot in k.disk.slots && !LinkedBy(k.disk, k.keys, source, i, i)
                         then UpdKeysOnly else k.result
    requires LoopExact(n, r, source, i + 1, objectsAdded, faults)
    ensures LoopExact(k, r, source, i, objectsAdded, faults)
  {
    forall j | i < j < |k.keys|
      ensures k.keys[j].slot in k.disk.slots ==>
        (LinkedBy(n.disk, n.keys, source, i + 1, j) <==> LinkedBy(k.disk, k.keys, source, i, j))
      ensures MayLink(n.disk, n.keys, source, i + 1, j, faults) <==> MayLink(k.disk, k.keys, source, i, j, faults)
    {
      Advance(k.disk, n.disk, k.keys, n.keys, source, i, j, faults);
    }
    if !r.GoesOn() {
      var f: nat :| StopsAt(n, r, source, i + 1, f, faults);
      assert StopsAt(k, r, source, i, f, faults);
    }
  }

  // ---------- importing ----------

  /** One file: what it adds, what it links, and what stops the loop. */
  lemma MoveOneExact(md5: Bytes -> Hash, c: Cache, source: Hash, i: Import)
    requires CacheInv(c.disk)
    ensures var r := MoveOne(md5, c, source, i);
      && CacheInv(r.cache.disk)
      && (i.content.None? ==> r == MoveOutcome(c, false, UpdNotChanged))
      && (i.content.Some? ==>
            var obj := ObjFile(md5(i.content.value));
            var absent := obj !in c.disk.files;
            && (absent && i.mkdir != Fine ==> r == MoveOutcome(c, false, UpdIoError))
            && (absent && i.mkdir == Fine && i.rename == NoSpace ==> r == MoveOutcome(c, false, UpdDiskFull))
            && (absent && i.mkdir == Fine && i.rename == IoFail ==> r == MoveOutcome(c, false, UpdIoError))
            && (!absent || (i.mkdir == Fine && i.rename == Fine) ==>
                  && r.added == absent && PoolFiles(r.cache.disk) == PoolFiles(c.disk) + {obj}
                  && r.cache.counts ==
                       (if absent then c.counts.(objects := c.counts.objects + 1, changed := true) else c.counts)
                  && (absent ==>
                        r.cache.disk.At(obj).content == i.content.value && r.cache.disk.At(obj).atime == i.atime)
                  && r.result == if PlainName(i.path).Some? then UpdNotChanged else UpdInternalError))
  {
    MoveOneInv(md5, c, source, i);
    if i.content.Some? {
      ImportObjectFs(md5, c, i);
    }
  }

  /** The file at position `j` can be imported: it is not there, or has a name and is stored or can be. */
  ghost predicate MayImport(md5: Bytes -> Hash, d: Disk, imports: seq<Import>, j: nat)
    requires j < |imports|
  {
    imports[j].content.None? ||
    (PlainName(imports[j].path).Some? &&
     (|| ObjFile(md5(imports[j].content.value)) in d.files
      || (exists l :: 0 <= l < j && imports[l].content.Some? &&
            md5(imports[l].content.value) == md5(imports[j].content.value))
      || (imports[j].mkdir == Fine && imports[j].rename == Fine)))
  }

  /** Why a file cannot be imported. */
  function ImportCause(i: Import): UpdateResult {
    if i.mkdir == Fine && i.rename == Fine then UpdInternalError
    else if i.mkdir == Fine && i.rename == NoSpace then UpdDiskFull
    else UpdIoError
  }

  /** The import stops at the first file that cannot be imported. */
  ghost predicate ImportStops(md5: Bytes -> Hash, d: Disk, imports: seq<Import>, f: nat, u: UpdateResult) {
    && f < |imports| && !MayImport(md5, d, imports, f)
    && (forall j :: 0 <= j < f ==> MayImport(md5, d, imports, j))
    && (u == ImportCause(imports[f]) || (u == UpdInternalError && PlainName(imports[f].path).None?))
  }

  ghost predicate ImportsExact(md5: Bytes -> Hash, c: Cache, imports: seq<Import>, added: bool, r: MoveOutcome) {
    var done := r.result == UpdNotChanged || r.result == UpdSourceOnly;
    && (done <==> forall j :: 0 <= j < |imports| ==> MayImport(md5, c.disk, imports, j))
    && PoolFiles(c.disk) <= PoolFiles(r.cache.disk)
    && (done ==> (r.result == UpdSourceOnly <==> added || PoolFiles(r.cache.disk) != PoolFiles(c.disk)))
    && (!done ==> exists f: nat :: ImportStops(md5, c.disk, imports, f, r.result))
  }

  /** The import gets through if and only if every file can be imported, and it tells whether the pool grew. */
  lemma {:induction false} MoveObjectsExact(md5: Bytes -> Hash, c: Cache, source: Hash, imports: seq<Import>,
                                            added: bool)
    requires CacheInv(c.disk)
    ensures ImportsExact(md5, c, imports, added, MoveObjects(md5, c, source, imports, added))
    decreases |imports|
  {
    if imports != [] {
      MoveOneExact(md5, c, source, imports[0]);
      MoveOneInv(md5, c, source, imports[0]);
      var one := MoveOne(md5, c, source, imports[0]);
      assert one.result == UpdNotChanged <==> MayImport(md5, c.disk, imports, 0);
      if one.result == UpdNotChanged {
        MoveObjectsExact(md5, one.cache, source, imports[1..], added || one.added);
        PoolAfterOne(md5, c, one, imports);
        forall j | 0 < j < |imports|
          ensures MayImport(md5, one.cache.disk, imports[1..], j - 1) <==> MayImport(md5, c.disk, imports, j)
        {
          ImportNext(md5, c.disk, one.cache.disk, imports, j);
        }
        ImportsStep(md5, c, one, imports, added, MoveObjects(md5, c, source, imports, added));
      } else {
        assert ImportStops(md5, c.disk, imports, 0, one.result);
      }
    }
  }

  /** The pool after one file that was imported. */
  lemma PoolAfterOne(md5: Bytes -> Hash, c: Cache, one: MoveOutcome, imports: seq<Import>)
    requires imports != []
    requires imports[0].content.None? ==> one.cache == c && !one.added
    requires imports[0].content.Some? ==>
      var obj := ObjFile(md5(imports[0].content.value));
      PoolFiles(one.cache.disk) == PoolFiles(c.disk) + {obj} && one.added == (obj !in c.disk.files)
    ensures PoolFiles(c.disk) <= PoolFiles(one.cache.disk)
    ensures one.added <==> PoolFiles(one.cache.disk) != PoolFiles(c.disk)
    ensures forall h :: ObjFile(h) in one.cache.disk.files <==>
      ObjFile(h) in c.disk.files || (imports[0].content.Some? && h == md5(imports[0].content.value))
  {
    forall h
      ensures ObjFile(h) in one.cache.disk.files <==> ObjFile(h) in PoolFiles(one.cache.disk)
      ensures ObjFile(h) in c.disk.files <==> ObjFile(h) in PoolFiles(c.disk)
    {
    }
  }

  lemma ImportNext(md5: Bytes -> Hash, d: Disk, e: Disk, imports: seq<Import>, j: nat)
    requires 0 < j < |imports|
    requires forall h :: ObjFile(h) in e.files <==>
      ObjFile(h) in d.files || (imports[0].content.Some? && h == md5(imports[0].content.value))
    ensures MayImport(md5, e, imports[1..], j - 1) <==> MayImport(md5, d, imports, j)
  {
    var rest := imports[1..];
    assert rest[j - 1] == imports[j];
    if imports[j].content.Some? {
      var h := md5(imports[j].content.value);
      if l :| 0 <= l < j - 1 && rest[l].content.Some? && md5(rest[l].content.value) == h {
        assert imports[l + 1] == rest[l];
      }
      if l :| 0 <= l < j && imports[l].content.Some? && md5(imports[l].content.value) == h {
        if l > 0 {
          assert rest[l - 1] == imports[l];
        }
      }
    }
  }

  lemma ImportsStep(md5: Bytes -> Hash, c: Cache, one: MoveOutcome, imports: seq<Import>, added: bool, r: MoveOutcome)
    requires imports != [] && MayImport(md5, c.disk, imports, 0)
    requires ImportsExact(md5, one.cache, imports[1..], added || one.added, r)
    requires forall j :: 0 < j < |imports| ==>
      (MayImport(md5, one.cache.disk, imports[1..], j - 1) <==> MayImport(md5, c.disk, imports, j))
    requires PoolFiles(c.disk) <= PoolFiles(one.cache.disk)
    requires one.added <==> PoolFiles(one.cache.disk) != PoolFiles(c.disk)
    ensures ImportsExact(md5, c, imports, added, r)
  {
    var rest := imports[1..];
    if forall j :: 0 <= j < |rest| ==> MayImport(md5, one.cache.disk, rest, j) {
      forall j | 0 < j < |imports|
        ensures MayImport(md5, c.disk, imports, j)
      {
        assert MayImport(md5, one.cache.disk, rest, j - 1);
      }
    } else {
      var j :| 0 <= j < |rest| && !MayImport(md5, one.cache.disk, rest, j);
      assert !MayImport(md5, c.disk, imports, j + 1);
      StopLater(md5, c.disk, one.cache.disk, imports, r.result);
    }
  }

  lemma StopLater(md5: Bytes -> Hash, d: Disk, e: Disk, imports: seq<Import>, u: UpdateResult)
    requires imports != [] && MayImport(md5, d, imports, 0)
    requires forall j :: 0 < j < |imports| ==>
      (MayImport(md5, e, imports[1..], j - 1) <==> MayImport(md5, d, imports, j))
    requires exists f: nat :: ImportStops(md5, e, imports[1..], f, u)
    ensures exists f: nat :: ImportStops(md5, d, imports, f, u)
  {
    var f: nat :| ImportStops(md5, e, imports[1..], f, u);
    assert imports[1..][f] == imports[f + 1];
    forall j | 0 < j < f + 1
      ensures MayImport(md5, d, imports, j)
    {
      assert MayImport(md5, e, imports[1..], j - 1);
    }
    assert ImportStops(md5, d, imports, f + 1, u);
  }

  // ---------- the whole update ----------

  /** Importing leaves links and reference files alone. */
  lemma {:induction false} MovedKeepsLinks(md5: Bytes -> Hash, c: Cache, source: Hash, imports: seq<Import>,
                                           added: bool)
    requires CacheInv(c.disk)
    ensures var e := MoveObjects(md5, c, source, imports, added).cache.disk;
      && e.slots == c.disk.slots
      && (forall t, s :: KeyLink(t, s) in e.files <==> KeyLink(t, s) in c.disk.files)
      && (forall s :: SrcFile(s, Ref) in e.files <==> SrcFile(s, Ref) in c.disk.files)
    decreases |imports|
  {
    if imports != [] {
      MoveOneInv(md5, c, source, imports[0]);
      MovedOneKeepsLinks(md5, c, source, imports[0]);
      var one := MoveOne(md5, c, source, imports[0]);
      if one.result == UpdNotChanged {
        MovedKeepsLinks(md5, one.cache, source, imports[1..], added || one.added);
      }
    }
  }

  lemma MovedOneKeepsLinks(md5: Bytes -> Hash, c: Cache, source: Hash, i: Import)
    requires CacheInv(c.disk)
    ensures var e := MoveOne(md5, c, source, i).cache.disk;
      && e.slots == c.disk.slots
      && (forall t, s :: KeyLink(t, s) in e.files <==> KeyLink(t, s) in c.disk.files)
      && (forall s :: SrcFile(s, Ref) in e.files <==> SrcFile(s, Ref) in c.disk.files)
  {
  }

  /** Every file can be imported and every key linked. */
  ghost predicate MaySucceed(md5: Bytes -> Hash, d: Disk, source: Hash, keys: seq<PendingKey>, fill: UpdateEnv) {
    && (forall j :: 0 <= j < |fill.imports| ==> MayImport(md5, d, fill.imports, j))
    && (forall j :: 0 <= j < |keys| ==> MayLink(d, keys, source, 0, j, fill.linkFaults))
  }

  /** The pool has an object that it did not have. */
  ghost predicate PoolGrew(d: Disk, e: Disk) {
    PoolFiles(e) != PoolFiles(d)
  }

  /** Linking keys is the same on two disks with the same links. */
  lemma SameLinks(d: Disk, e: Disk, keys: seq<PendingKey>, source: Hash, j: nat, faults: seq<Fault>)
    requires j < |keys| && e.slots == d.slots
    requires forall t, s :: KeyLink(t, s) in e.files <==> KeyLink(t, s) in d.files
    requires SrcFile(source, Ref) in e.files <==> SrcFile(source, Ref) in d.files
    ensures LinkedBy(e, keys, source, 0, j) <==> LinkedBy(d, keys, source, 0, j)
    ensures MayLink(e, keys, source, 0, j, faults) <==> MayLink(d, keys, source, 0, j, faults)
  {
    assert forall t :: KeyLink(keys[j].slot, t) in e.files <==> KeyLink(keys[j].slot, t) in d.files;
  }

  /** The keys' part of an update, told from a disk with the same links. */
  lemma LinkPart(d: Disk, e: Disk, keys: seq<PendingKey>, source: Hash, grew: bool, faults: seq<Fault>)
    requires CacheInv(e) && e.slots == d.slots
    requires forall t, s :: KeyLink(t, s) in e.files <==> KeyLink(t, s) in d.files
    requires SrcFile(source, Ref) in e.files <==> SrcFile(source, Ref) in d.files
    ensures var r := LinkKeys(KeysOutcome(e, keys, UpdNotChanged), source, 0, grew, faults);
      && |r.keys| == |keys| && PoolFiles(r.disk) == PoolFiles(e)
      && (r.result == UpdNotChanged || r.result == UpdKeysOnly <==>
            forall j :: 0 <= j < |keys| ==> MayLink(d, keys, source, 0, j, faults))
      && !r.result.UpdSourceOnly? && !r.result.UpdAll?
      && (r.result == UpdNotChanged || r.result == UpdKeysOnly ==>
            && (r.result == UpdKeysOnly <==> SomeMoved(d, keys, source, 0))
            && forall j :: 0 <= j < |keys| ==>
                 r.keys[j].slot == keys[j].slot && Told(r.keys[j].result, d, keys, source, 0, j, grew))
      && (r.result != UpdNotChanged && r.result != UpdKeysOnly ==>
            exists f: nat :: StopsAt(KeysOutcome(d, keys, UpdNotChanged), r, source, 0, f, faults))
  {
    var k := KeysOutcome(e, keys, UpdNotChanged);
    LinkKeysExact(k, source, 0, grew, faults);
    LinkKeysShape(k, source, 0, grew, faults);
    LinkKeysPool(k, source, 0, grew, faults);
    SamePoolFiles(e, LinkKeys(k, source, 0, grew, faults).disk);
    forall j | 0 <= j < |keys|
      ensures LinkedBy(e, keys, source, 0, j) <==> LinkedBy(d, keys, source, 0, j)
      ensures MayLink(e, keys, source, 0, j, faults) <==> MayLink(d, keys, source, 0, j, faults)
    {
      SameLinks(d, e, keys, source, j, faults);
    }
    var r := LinkKeys(k, source, 0, grew, faults);
    if !r.GoesOn() {
      var f: nat :| StopsAt(k, r, source, 0, f, faults);
      assert StopsAt(KeysOutcome(d, keys, UpdNotChanged), r, source, 0, f, faults);
    }
  }

  /**
   * An update succeeds if and only if every file can be imported and every
   * key linked.  It tells whether the pool grew and whether a key was moved;
   * a moved key is told so, and one that led to the source already is told
   * whether there is anything new.
   */
  lemma UpdateExact(md5: Bytes -> Hash, c: Cache, source: Hash, keys: seq<PendingKey>, fill: UpdateEnv)
    requires CacheInv(c.disk)
    ensures var u := UpdateSource(md5, c, source, keys, fill);
      && |u.keys| == |keys|
      && (u.result.Succeeded() <==> MaySucceed(md5, c.disk, source, keys, fill))
      && (u.result.Succeeded() ==>
            var grew, moved := PoolGrew(c.disk, u.cache.disk), SomeMoved(c.disk, keys, source, 0);
            && u.result == (if grew && moved then UpdAll else if grew then UpdSourceOnly
                            else if moved then UpdKeysOnly else UpdNotChanged)
            && forall j :: 0 <= j < |keys| ==>
                 u.keys[j].slot == keys[j].slot && Told(u.keys[j].result, c.disk, keys, source, 0, j, grew))
      && (!u.result.Succeeded() ==>
            || (u.keys == keys && exists f: nat :: ImportStops(md5, c.disk, fill.imports, f, u.result))
            || exists f: nat :: StopsAt(KeysOutcome(c.disk, keys, UpdNotChanged),
                                        KeysOutcome(u.cache.disk, u.keys, u.result), source, 0, f, fill.linkFaults))
  {
    var m := MoveObjects(md5, c, source, fill.imports, false);
    MoveObjectsInv(md5, c, source, fill.imports, false);
    MoveObjectsExact(md5, c, source, fill.imports, false);
    MovedKeepsLinks(md5, c, source, fill.imports, false);
    MoveObjectsSlots(md5, c, source, fill.imports, false);
    if m.result == UpdNotChanged || m.result == UpdSourceOnly {
      LinkPart(c.disk, m.cache.disk, keys, source, m.result != UpdNotChanged, fill.linkFaults);
    }
  }

  lemma SamePoolFiles(d: Disk, e: Disk)
    requires FsInv(d) && FsInv(e) && SamePool(d, e)
    ensures PoolFiles(d) == PoolFiles(e)
  {
    forall p: FilePath | p.ObjFile?
      ensures p in d.files <==> p in e.files
    {
      assert SameFile(d, e, ObjFile(p.hash)) && p == ObjFile(p.hash);
    }
  }
}
