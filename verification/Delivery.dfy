/**
 * From conversion to lookup: after a successful update every pending key is
 * answered with the new pictures.
 */
module Delivery {
  import opened CacheTypes
  import opened FileSystem
  import opened CacheInvariant
  import opened Operations
  import opened Filling
  import opened Lookup

  /** The converted file is there and can be linked. */
  predicate Deliverable(i: Import) {
    i.content.Some? && i.link == Fine
  }

  /** The output that a converted file becomes. */
  function OutputOf(md5: Bytes -> Hash, i: Import): SrcName
    requires i.content.Some? && PlainName(i.path).Some?
  {
    Out(PlainName(i.path).value, md5(i.content.value))
  }

  /** Nothing is unlinked, and directories stay. */
  ghost predicate Grows(d: Disk, e: Disk) {
    && e.slots == d.slots && e.srcDirs == d.srcDirs
    && forall p :: p in d.files ==> p in e.files
  }

  /** One of the converted files becomes the output `n`. */
  ghost predicate Yields(md5: Bytes -> Hash, imports: seq<Import>, n: SrcName) {
    exists i :: 0 <= i < |imports| && imports[i].content.Some? && PlainName(imports[i].path).Some? &&
                n == OutputOf(md5, imports[i])
  }

  /** Every new output of a source comes from one of the converted files. */
  ghost predicate NamesFrom(md5: Bytes -> Hash, d: Disk, e: Disk, imports: seq<Import>) {
    forall s, n: SrcName :: n.Out? && SrcFile(s, n) in e.files && SrcFile(s, n) !in d.files ==> Yields(md5, imports, n)
  }

  lemma ImportKeepsSources(md5: Bytes -> Hash, c: Cache, i: Import)
    requires i.content.Some?
    ensures var r := ImportObject(md5, c, i);
      Grows(c.disk, r.cache.disk) && NamesFrom(md5, c.disk, r.cache.disk, [])
  {
  }

  lemma LinkOutputDelivers(d: Disk, source: Hash, name: SrcName, link: Fault)
    requires InodesPresent(d) && name.Out? && ObjFile(name.hash) in d.files
    ensures var e := LinkOutput(d, source, name, link);
      && Grows(d, e)
      && (forall p :: p in e.files && p !in d.files ==> p == SrcFile(source, name))
      && (link == Fine && source in d.srcDirs ==> SrcFile(source, name) in e.files)
  {
  }

  lemma MoveOneDelivers(md5: Bytes -> Hash, c: Cache, source: Hash, i: Import)
    requires FsInv(c.disk)
    ensures var r := MoveOne(md5, c, source, i);
      && Grows(c.disk, r.cache.disk) && NamesFrom(md5, c.disk, r.cache.disk, [i])
      && (r.result.UpdNotChanged? && Deliverable(i) && source in c.disk.srcDirs ==>
            PlainName(i.path).Some? && SrcFile(source, OutputOf(md5, i)) in r.cache.disk.files)
  {
    if i.content.Some? {
      ImportKeepsSources(md5, c, i);
      ImportObjectFs(md5, c, i);
      var r := ImportObject(md5, c, i);
      if r.result.UpdNotChanged? && PlainName(i.path).Some? {
        LinkOutputDelivers(r.cache.disk, source, OutputOf(md5, i), i.link);
        assert OutputOf(md5, i) == OutputOf(md5, [i][0]);
        assert Yields(md5, [i], OutputOf(md5, i));
      }
    }
  }

  lemma {:induction false} MoveObjectsDelivers(md5: Bytes -> Hash, c: Cache, source: Hash, imports: seq<Import>,
                                               added: bool)
    requires CacheInv(c.disk)
    ensures var r := MoveObjects(md5, c, source, imports, added);
      && Grows(c.disk, r.cache.disk) && NamesFrom(md5, c.disk, r.cache.disk, imports)
      && ((r.result.UpdNotChanged? || r.result.UpdSourceOnly?) && source in c.disk.srcDirs ==>
            forall j :: 0 <= j < |imports| && Deliverable(imports[j]) ==>
              PlainName(imports[j].path).Some? && SrcFile(source, OutputOf(md5, imports[j])) in r.cache.disk.files)
    decreases |imports|
  {
    if imports != [] {
      MoveOneInv(md5, c, source, imports[0]);
      MoveOneDelivers(md5, c, source, imports[0]);
      var one := MoveOne(md5, c, source, imports[0]);
      if one.result.UpdNotChanged? {
        MoveObjectsDelivers(md5, one.cache, source, imports[1..], added || one.added);
        var r := MoveObjects(md5, c, source, imports, added);
        NamesCompose(md5, c.disk, one.cache.disk, r.cache.disk, imports);
        forall j | 0 <= j < |imports| && Deliverable(imports[j]) && source in c.disk.srcDirs &&
                   (r.result.UpdNotChanged? || r.result.UpdSourceOnly?)
          ensures PlainName(imports[j].path).Some? && SrcFile(source, OutputOf(md5, imports[j])) in r.cache.disk.files
        {
          if j > 0 {
            assert imports[1..][j - 1] == imports[j];
          }
        }
      } else {
        NamesCompose(md5, c.disk, one.cache.disk, one.cache.disk, imports);
      }
    }
  }

  lemma NamesCompose(md5: Bytes -> Hash, d: Disk, e: Disk, f: Disk, imports: seq<Import>)
    requires imports != [] && NamesFrom(md5, d, e, [imports[0]]) && NamesFrom(md5, e, f, imports[1..])
    ensures NamesFrom(md5, d, f, imports)
  {
  }

  /** Linking keys does not touch what sources hold. */
  lemma LinkToSourceKeepsSources(d: Disk, slot: Slot, source: Hash, ifAdded: AddKeyResult, link: Fault)
    requires CacheInv(d)
    ensures var e := LinkToSource(d, slot, source, ifAdded, link).0;
      e.srcDirs == d.srcDirs && forall s, n :: SrcFile(s, n) in e.files <==> SrcFile(s, n) in d.files
  {
  }

  lemma {:induction false} LinkKeysKeepsSources(k: KeysOutcome, source: Hash, i: nat, objectsAdded: bool,
                                                faults: seq<Fault>)
    requires CacheInv(k.disk) && i <= |k.keys|
    ensures var r := LinkKeys(k, source, i, objectsAdded, faults);
      && r.disk.srcDirs == k.disk.srcDirs
      && forall s, n :: SrcFile(s, n) in r.disk.files <==> SrcFile(s, n) in k.disk.files
    decreases |k.keys| - i
  {
    if i < |k.keys| && k.GoesOn() {
      LinkOneInv(k, source, i, objectsAdded, FaultAt(faults, i));
      LinkToSourceKeepsSources(k.disk, k.keys[i].slot, source, Inserted, FaultAt(faults, i));
      LinkKeysKeepsSources(LinkOne(k, source, i, objectsAdded, FaultAt(faults, i)), source, i + 1, objectsAdded,
                           faults);
    }
  }

  /**
   * What a source holds after an update: what it held, and if the update
   * succeeds and the source is still there all converted files.
   */
  lemma UpdateDelivers(md5: Bytes -> Hash, c: Cache, source: Hash, keys: seq<PendingKey>, fill: UpdateEnv)
    requires CacheInv(c.disk)
    ensures var u := UpdateSource(md5, c, source, keys, fill);
      && u.cache.disk.srcDirs == c.disk.srcDirs
      && NamesFrom(md5, c.disk, u.cache.disk, fill.imports)
      && (forall s, n :: SrcFile(s, n) in c.disk.files ==> SrcFile(s, n) in u.cache.disk.files)
      && (u.result.Succeeded() && source in c.disk.srcDirs ==>
            forall j :: 0 <= j < |fill.imports| && Deliverable(fill.imports[j]) ==>
              PlainName(fill.imports[j].path).Some? &&
              SrcFile(source, OutputOf(md5, fill.imports[j])) in u.cache.disk.files)
  {
    MoveObjectsInv(md5, c, source, fill.imports, false);
    MoveObjectsDelivers(md5, c, source, fill.imports, false);
    MoveObjectsSlots(md5, c, source, fill.imports, false);
    var m := MoveObjects(md5, c, source, fill.imports, false);
    if m.result == UpdNotChanged || m.result == UpdSourceOnly {
      LinkKeysKeepsSources(KeysOutcome(m.cache.disk, keys, UpdNotChanged), source, 0, m.result != UpdNotChanged,
                           fill.linkFaults);
    }
  }

  /** Every file converted has a plain name. */
  ghost predicate PlainImports(imports: seq<Import>) {
    forall i :: 0 <= i < |imports| && PlainName(imports[i].path).Some? ==> PlainFormat(PlainName(imports[i].path).value)
  }

  /** File names stay plain as long as converted files have plain names. */
  lemma UpdateNamesPlain(md5: Bytes -> Hash, c: Cache, source: Hash, keys: seq<PendingKey>, fill: UpdateEnv)
    requires CacheInv(c.disk) && PlainNames(c.disk) && IsDigest(md5) && PlainImports(fill.imports)
    ensures PlainNames(UpdateSource(md5, c, source, keys, fill).cache.disk)
  {
    UpdateDelivers(md5, c, source, keys, fill);
    var e := UpdateSource(md5, c, source, keys, fill).cache.disk;
    forall s, f, h | SrcFile(s, Out(f, h)) in e.files
      ensures PlainFormat(f) && ValidHash(h)
    {
      if SrcFile(s, Out(f, h)) !in c.disk.files {
        assert Yields(md5, fill.imports, Out(f, h));
      }
    }
  }

  /**
   * The bare name of a stored output is never the full path that an import
   * compares it with, so a link that is up to date is not recognised.
   */
  lemma NeverUpToDate(d: Disk, source: Hash, n: SrcName, path: string)
    requires PlainNames(d) && SrcFile(source, n) in d.files && '/' in path
    ensures Render(n) != path
  {
  }

  lemma Served(d: Disk, slot: Slot, source: Hash, n: SrcName, busy: set<Hash>, listing: seq<SrcName>, beyond: char)
    requires CacheInv(d) && PlainNames(d) && n.Out?
    requires KeyLink(slot, source) in d.files && SrcFile(source, n) in d.files
    requires Lists(listing, NamesIn(d, source))
    ensures Unambiguous(n.format) ==> DoLookup(d, slot, "", n.format, busy, listing, beyond, true).Found?
  {
    if Unambiguous(n.format) {
      assert SrcFile(source, Out(n.format, n.hash)) in d.files;
      FoundIffStored(d, slot, source, n.format, busy, listing, beyond);
    }
  }

  lemma FileDelivered(md5: Bytes -> Hash, c: Cache, source: Hash, keys: seq<PendingKey>, fill: UpdateEnv, j: nat)
    requires CacheInv(c.disk) && source in c.disk.srcDirs
    requires UpdateSource(md5, c, source, keys, fill).result.Succeeded()
    requires j < |fill.imports| && Deliverable(fill.imports[j])
    ensures PlainName(fill.imports[j].path).Some?
    ensures SrcFile(source, OutputOf(md5, fill.imports[j])) in UpdateSource(md5, c, source, keys, fill).cache.disk.files
  {
    UpdateDelivers(md5, c, source, keys, fill);
  }

  lemma PendingKeyLinked(md5: Bytes -> Hash, c: Cache, source: Hash, keys: seq<PendingKey>, fill: UpdateEnv, k: nat)
    requires CacheInv(c.disk) && UpdateSource(md5, c, source, keys, fill).result.Succeeded()
    requires k < |keys| && keys[k].slot in c.disk.slots
    ensures KeyLink(keys[k].slot, source) in UpdateSource(md5, c, source, keys, fill).cache.disk.files
  {
    UpdateSettles(md5, c, source, keys, fill);
    var u := UpdateSource(md5, c, source, keys, fill);
    assert Settled(u.cache.disk, u.keys, source, k);
  }

  /**
   * After a successful update, a lookup of any key that waited for it finds a
   * picture in the format of any file that was converted and linked, whatever
   * the order of directory listings.
   */
  lemma PendingKeysAreServed(md5: Bytes -> Hash, c: Cache, source: Hash, keys: seq<PendingKey>, fill: UpdateEnv,
                             u: UpdateOutcome, k: nat, j: nat, busy: set<Hash>, listing: seq<SrcName>, beyond: char)
    requires CacheInv(c.disk) && PlainNames(c.disk) && IsDigest(md5) && PlainImports(fill.imports)
    requires u == UpdateSource(md5, c, source, keys, fill) && u.result.Succeeded()
    requires k < |keys| && keys[k].slot in c.disk.slots
    requires j < |fill.imports| && Deliverable(fill.imports[j])
    requires Lists(listing, NamesIn(u.cache.disk, source))
    ensures CacheInv(u.cache.disk) && PlainName(fill.imports[j].path).Some?
    ensures CurrentLink(u.cache.disk, keys[k].slot) == Some(source)
    ensures var format := PlainName(fill.imports[j].path).value;
      Unambiguous(format) ==> DoLookup(u.cache.disk, keys[k].slot, "", format, busy, listing, beyond, true).Found?
  {
    UpdateSourceInv(md5, c, source, keys, fill);
    UpdateNamesPlain(md5, c, source, keys, fill);
    PendingKeyLinked(md5, c, source, keys, fill, k);
    CurrentLinkIs(u.cache.disk, keys[k].slot, source);
    LinkedSourceExists(u.cache.disk, keys[k].slot, source);
    UpdateDelivers(md5, c, source, keys, fill);
    FileDelivered(md5, c, source, keys, fill, j);
    Served(u.cache.disk, keys[k].slot, source, OutputOf(md5, fill.imports[j]), busy, listing, beyond);
  }

  // ---------- filling a source with one picture ----------

  predicate Importable(i: Import) {
    Deliverable(i) && i.mkdir == Fine && i.rename == Fine && PlainName(i.path).Some?
  }

  lemma MoveOnlyOne(md5: Bytes -> Hash, c: Cache, source: Hash, i: Import)
    requires CacheInv(c.disk) && Importable(i)
    ensures var r := MoveObjects(md5, c, source, [i], false);
      && r.cache == MoveOne(md5, c, source, i).cache
      && (r.result.UpdNotChanged? || r.result.UpdSourceOnly?)
  {
  }

  lemma LinkOnlyOne(d: Disk, slot: Slot, source: Hash, objectsAdded: bool)
    requires CacheInv(d) && KeyLink(slot, source) in d.files
    ensures LinkKeys(KeysOutcome(d, [PendingKey(slot, SourceUnknown)], UpdNotChanged), source, 0, objectsAdded, []) ==
      KeysOutcome(d, [PendingKey(slot, if objectsAdded then Inserted else NotChanged)], UpdNotChanged)
  {
  }

  lemma MoveOneKeepsLinks(md5: Bytes -> Hash, c: Cache, source: Hash, i: Import)
    requires CacheInv(c.disk)
    ensures forall slot, s :: KeyLink(slot, s) in MoveOne(md5, c, source, i).cache.disk.files <==>
      KeyLink(slot, s) in c.disk.files
  {
  }

  /** The key that waits for a source already leads to it; a single good file fills it and disturbs no link. */
  lemma FillWithOne(md5: Bytes -> Hash, c: Cache, slot: Slot, source: Hash, i: Import)
    requires CacheInv(c.disk) && KeyLink(slot, source) in c.disk.files && Importable(i)
    ensures var u := UpdateSource(md5, c, source, [PendingKey(slot, SourceUnknown)], UpdateEnv([i], []));
      && CacheInv(u.cache.disk)
      && u.result.Succeeded()
      && (u.keys == [PendingKey(slot, Inserted)] || u.keys == [PendingKey(slot, NotChanged)])
      && u.cache.disk.slots == c.disk.slots && u.cache.disk.srcDirs == c.disk.srcDirs
      && (forall t, s :: KeyLink(t, s) in u.cache.disk.files <==> KeyLink(t, s) in c.disk.files)
      && SrcFile(source, OutputOf(md5, i)) in u.cache.disk.files
  {
    LinkedSourceExists(c.disk, slot, source);
    UpdateSourceInv(md5, c, source, [PendingKey(slot, SourceUnknown)], UpdateEnv([i], []));
    MoveOnlyOne(md5, c, source, i);
    MoveOneInv(md5, c, source, i);
    MoveOneKeepsLinks(md5, c, source, i);
    MoveOneDelivers(md5, c, source, i);
    var m := MoveObjects(md5, c, source, [i], false);
    LinkOnlyOne(m.cache.disk, slot, source, m.result != UpdNotChanged);
  }
}
