/** A successful update links every pending key to the filled source. */
module Filling {
  import opened CacheTypes
  import opened FileSystem
  import opened CacheInvariant
  import opened Operations
  import opened Isolation

  /** Linking a key to a source keeps all other links to that source, and all directories. */
  lemma LinkToSourceKeeps(d: Disk, slot: Slot, source: Hash, ifAdded: AddKeyResult, link: Fault)
    requires CacheInv(d)
    ensures var (e, r) := LinkToSource(d, slot, source, ifAdded, link);
      && e.slots == d.slots
      && (forall t :: KeyLink(t, source) in d.files ==> KeyLink(t, source) in e.files)
      && (r.NotChanged? || r.Replaced? ==> KeyLink(slot, source) in e.files || r == ifAdded)
  {
  }

  /** Key `j` is settled: its directory is gone, or it is linked and has a final result. */
  ghost predicate Settled(d: Disk, keys: seq<PendingKey>, source: Hash, j: nat)
    requires j < |keys|
  {
    keys[j].slot in d.slots ==> KeyLink(keys[j].slot, source) in d.files && keys[j].result != SourceUnknown
  }

  ghost predicate SameSlots(a: seq<PendingKey>, b: seq<PendingKey>) {
    |a| == |b| && forall j :: 0 <= j < |a| ==> a[j].slot == b[j].slot
  }

  lemma LinkOneKeeps(k: KeysOutcome, source: Hash, i: nat, objectsAdded: bool, link: Fault)
    requires CacheInv(k.disk) && i < |k.keys| && k.GoesOn()
    ensures var n := LinkOne(k, source, i, objectsAdded, link);
      && SameSlots(n.keys, k.keys)
      && n.disk.slots == k.disk.slots
      && (forall j :: 0 <= j < |k.keys| && j != i ==> n.keys[j] == k.keys[j])
      && (forall t :: KeyLink(t, source) in k.disk.files ==> KeyLink(t, source) in n.disk.files)
      && (n.GoesOn() ==> Settled(n.disk, n.keys, source, i))
  {
    LinkToSourceKeeps(k.disk, k.keys[i].slot, source, Inserted, link);
  }

  ghost predicate SettledBelow(d: Disk, keys: seq<PendingKey>, source: Hash, i: nat)
    requires i <= |keys|
  {
    forall j :: 0 <= j < i ==> Settled(d, keys, source, j)
  }

  lemma LinkOneSettles(k: KeysOutcome, source: Hash, i: nat, objectsAdded: bool, link: Fault)
    requires CacheInv(k.disk) && i < |k.keys| && k.GoesOn() && SettledBelow(k.disk, k.keys, source, i)
    ensures var n := LinkOne(k, source, i, objectsAdded, link);
      |n.keys| == |k.keys| && (n.GoesOn() ==> SettledBelow(n.disk, n.keys, source, i + 1))
  {
    LinkOneKeeps(k, source, i, objectsAdded, link);
    var n := LinkOne(k, source, i, objectsAdded, link);
    forall j | 0 <= j < i
      ensures Settled(n.disk, n.keys, source, j)
    {
      assert Settled(k.disk, k.keys, source, j);
    }
  }

  lemma {:induction false} LinkKeysShape(k: KeysOutcome, source: Hash, i: nat, objectsAdded: bool, faults: seq<Fault>)
    requires CacheInv(k.disk) && i <= |k.keys| && !k.result.UpdSourceOnly? && !k.result.UpdAll?
    ensures var r := LinkKeys(k, source, i, objectsAdded, faults);
      && SameSlots(r.keys, k.keys)
      && r.disk.slots == k.disk.slots
      && !r.result.UpdSourceOnly? && !r.result.UpdAll?
    decreases |k.keys| - i
  {
    if i < |k.keys| && k.GoesOn() {
      LinkOneInv(k, source, i, objectsAdded, FaultAt(faults, i));
      LinkOneKeeps(k, source, i, objectsAdded, FaultAt(faults, i));
      LinkKeysShape(LinkOne(k, source, i, objectsAdded, FaultAt(faults, i)), source, i + 1, objectsAdded, faults);
    }
  }

  lemma {:induction false} LinkKeysSettles(k: KeysOutcome, source: Hash, i: nat, objectsAdded: bool, faults: seq<Fault>)
    requires CacheInv(k.disk) && i <= |k.keys|
    requires k.GoesOn() ==> SettledBelow(k.disk, k.keys, source, i)
    ensures var r := LinkKeys(k, source, i, objectsAdded, faults);
      r.GoesOn() ==> SettledBelow(r.disk, r.keys, source, |r.keys|)
    decreases |k.keys| - i
  {
    if i < |k.keys| && k.GoesOn() {
      LinkOneInv(k, source, i, objectsAdded, FaultAt(faults, i));
      LinkOneSettles(k, source, i, objectsAdded, FaultAt(faults, i));
      LinkKeysSettles(LinkOne(k, source, i, objectsAdded, FaultAt(faults, i)), source, i + 1, objectsAdded, faults);
    }
  }

  lemma {:induction false} MoveObjectsSlots(md5: Bytes -> Hash, c: Cache, source: Hash, imports: seq<Import>,
                                            added: bool)
    requires CacheInv(c.disk)
    ensures var r := MoveObjects(md5, c, source, imports, added);
      r.cache.disk.slots == c.disk.slots && !r.result.UpdKeysOnly? && !r.result.UpdAll?
    decreases |imports|
  {
    if imports != [] {
      MoveOneInv(md5, c, source, imports[0]);
      var r := MoveOne(md5, c, source, imports[0]);
      assert r.cache.disk.slots == c.disk.slots;
      if r.result.UpdNotChanged? {
        MoveObjectsSlots(md5, r.cache, source, imports[1..], added || r.added);
      }
    }
  }

  /** An update keeps the list of keys; if it succeeds, all of them are settled. */
  lemma UpdateSettles(md5: Bytes -> Hash, c: Cache, source: Hash, keys: seq<PendingKey>, env: UpdateEnv)
    requires CacheInv(c.disk)
    ensures var r := UpdateSource(md5, c, source, keys, env);
      && SameSlots(r.keys, keys)
      && r.cache.disk.slots == c.disk.slots
      && (r.result.Succeeded() ==> SettledBelow(r.cache.disk, r.keys, source, |r.keys|))
  {
    MoveObjectsInv(md5, c, source, env.imports, false);
    MoveObjectsSlots(md5, c, source, env.imports, false);
    var m := MoveObjects(md5, c, source, env.imports, false);
    if m.result == UpdNotChanged || m.result == UpdSourceOnly {
      var k := KeysOutcome(m.cache.disk, keys, UpdNotChanged);
      LinkKeysShape(k, source, 0, m.result != UpdNotChanged, env.linkFaults);
      LinkKeysSettles(k, source, 0, m.result != UpdNotChanged, env.linkFaults);
    }
  }

  /** After an update that gave the source an output, adding the same pair again changes nothing. */
  lemma FilledThenUnchanged(md5: Bytes -> Hash, c: Cache, source: Hash, keys: seq<PendingKey>, fill: UpdateEnv,
                            j: nat, pending: Pending, env: AddEnv)
    requires CacheInv(c.disk) && j < |keys| && keys[j].slot in c.disk.slots
    requires UpdateSource(md5, c, source, keys, fill).result.Succeeded()
    requires HasOutputs(UpdateSource(md5, c, source, keys, fill).cache.disk, source)
    requires env.mkdirSource == Fine && env.mkdirSlot == Fine && !pending.Holds(source)
    ensures var e := UpdateSource(md5, c, source, keys, fill).cache;
      CacheInv(e.disk) && AddStreamKey(e, keys[j].slot, source, pending, env) == AddOutcome(e, NotChanged, None)
  {
    UpdateSourceInv(md5, c, source, keys, fill);
    UpdateSettles(md5, c, source, keys, fill);
    var u := UpdateSource(md5, c, source, keys, fill);
    assert Settled(u.cache.disk, u.keys, source, j);
    AddAgainChangesNothing(UpdateSource(md5, c, source, keys, fill).cache, keys[j].slot, source, pending, env);
  }
}
