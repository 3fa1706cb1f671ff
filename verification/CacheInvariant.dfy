/**
 * What the hard links of the cache mean: which entries share an inode, and
 * what can be reached from a key/prio directory.
 */
module CacheInvariant {
  import opened CacheTypes
  import opened FileSystem

  /** The entry that owns the inode: a source's `.ref` for links to it, a pool object for outputs. */
  function Anchor(p: FilePath): FilePath {
    match p
    case KeyLink(_, source) => SrcFile(source, Ref)
    case SrcFile(_, Out(_, hash)) => ObjFile(hash)
    case SrcFile(_, Ref) => p
    case ObjFile(_) => p
  }

  /** Two entries share an inode exactly when they have the same owner, and the owner is there. */
  ghost predicate Anchored(d: Disk) {
    && (forall p :: p in d.files ==> Anchor(p) in d.files)
    && (forall p, q :: p in d.files && q in d.files ==>
          (d.files[p] == d.files[q] <==> Anchor(p) == Anchor(q)))
  }

  ghost predicate OneLinkPerSlot(d: Disk) {
    forall slot, s, t :: KeyLink(slot, s) in d.files && KeyLink(slot, t) in d.files ==> s == t
  }

  ghost predicate CacheInv(d: Disk) {
    FsInv(d) && Anchored(d) && OneLinkPerSlot(d)
  }

  // ---------- the primitives keep it ----------

  lemma RemoveInv(d: Disk, victims: set<FilePath>)
    requires CacheInv(d)
    requires forall p :: p in d.files && p !in victims ==> Anchor(p) !in victims
    ensures CacheInv(Remove(d, victims))
  {
    RemoveKeeps(d, victims);
  }

  lemma AddLinkInv(d: Disk, name: FilePath)
    requires CacheInv(d) && name !in d.files && Anchor(name) in d.files && ParentExists(d, name)
    requires name.KeyLink? ==> forall s :: KeyLink(name.slot, s) !in d.files
    ensures CacheInv(AddLink(d, Anchor(name), name))
  {
    AddLinkKeeps(d, Anchor(name), name);
    AddEntryAnchored(d.files, Anchor(name), name);
    assert Anchored(AddLink(d, Anchor(name), name));
  }

  lemma AddEntryAnchored(files: map<FilePath, nat>, owner: FilePath, name: FilePath)
    requires owner in files && Anchor(owner) == owner && Anchor(name) == owner && name !in files
    requires forall p :: p in files ==> Anchor(p) in files
    requires forall p, q :: p in files && q in files ==> (files[p] == files[q] <==> Anchor(p) == Anchor(q))
    ensures var g := files[name := files[owner]];
      && (forall p :: p in g ==> Anchor(p) in g)
      && (forall p, q :: p in g && q in g ==> (g[p] == g[q] <==> Anchor(p) == Anchor(q)))
  {
  }

  lemma CreateInv(d: Disk, name: FilePath, content: Bytes, atime: Timespec)
    requires CacheInv(d) && name !in d.files && Anchor(name) == name && ParentExists(d, name)
    ensures CacheInv(Create(d, name, content, atime))
  {
    CreateKeeps(d, name, content, atime);
  }

  // ---------- reference counts ----------

  ghost function Holders(d: Disk, source: Hash): set<Slot> {
    set slot | slot in d.slots && KeyLink(slot, source) in d.files
  }

  ghost function OutputsNaming(d: Disk, hash: Hash): set<FilePath> {
    set p | p in d.files && p.SrcFile? && p.name.Out? && p.name.hash == hash
  }

  lemma {:induction false} KeyLinksCounted(slots: set<Slot>, source: Hash)
    ensures |set slot | slot in slots :: KeyLink(slot, source)| == |slots|
  {
    var links := set slot | slot in slots :: KeyLink(slot, source);
    if slots == {} {
      assert links == {};
    } else {
      var slot :| slot in slots;
      KeyLinksCounted(slots - {slot}, source);
      assert links == (set s | s in slots - {slot} :: KeyLink(s, source)) + {KeyLink(slot, source)};
    }
  }

  /** `.ref` counts one for itself and one for every key/prio directory holding `src:source`. */
  lemma RefCountsHolders(d: Disk, source: Hash)
    requires FsInv(d) && Anchored(d) && d.Has(SrcFile(source, Ref))
    ensures d.At(SrcFile(source, Ref)).nlink == 1 + |Holders(d, source)|
  {
    var ref := SrcFile(source, Ref);
    var links := set slot | slot in Holders(d, source) :: KeyLink(slot, source);
    forall p | p in Links(d, d.files[ref])
      ensures p in links + {ref}
    {
      assert Anchor(p) == Anchor(ref);
    }
    forall p | p in links + {ref}
      ensures p in Links(d, d.files[ref])
    {
      assert Anchor(p) == Anchor(ref);
    }
    assert Links(d, d.files[ref]) == links + {ref};
    KeyLinksCounted(Holders(d, source), source);
  }

  /** A pool object counts one for itself and one for every `format:hash` entry of any source. */
  lemma ObjectCountsOutputs(d: Disk, hash: Hash)
    requires FsInv(d) && Anchored(d) && d.Has(ObjFile(hash))
    ensures d.At(ObjFile(hash)).nlink == 1 + |OutputsNaming(d, hash)|
  {
    var obj := ObjFile(hash);
    forall p | p in d.files
      ensures p in Links(d, d.files[obj]) <==> p in OutputsNaming(d, hash) + {obj}
    {
      assert Anchor(obj) == obj;
    }
    assert Links(d, d.files[obj]) == OutputsNaming(d, hash) + {obj};
  }

  /** An owner with a link count of one is not shared, so it can go. */
  lemma Unshared(d: Disk, a: FilePath)
    requires CacheInv(d) && a in d.files && Anchor(a) == a && d.At(a).nlink <= 1
    ensures forall p :: p in d.files && Anchor(p) == a ==> p == a
  {
    forall p | p in d.files && Anchor(p) == a
      ensures p == a
    {
      if p != a {
        assert {p, a} <= Links(d, d.files[a]);
        SubsetSize({p, a}, Links(d, d.files[a]));
      }
    }
  }

  lemma {:induction false} SubsetSize<T>(a: set<T>, b: set<T>)
    requires a <= b
    ensures |a| <= |b|
  {
    assert b == a + (b - a);
  }

  // ---------- what a key/prio directory leads to ----------

  datatype SourceView = SourceView(source: Hash, files: map<FilePath, Bytes>)

  /** The files stored for a source, converted pictures and `.ref`, with their bytes. */
  ghost function FilesOf(d: Disk, source: Hash): map<FilePath, Bytes>
    requires FsInv(d)
  {
    map p | p in d.files && p.SrcFile? && p.source == source :: d.At(p).content
  }

  ghost function CurrentLink(d: Disk, slot: Slot): Option<Hash> {
    if exists s :: KeyLink(slot, s) in d.files then
      var s :| KeyLink(slot, s) in d.files; Some(s)
    else
      None
  }

  /** Everything a lookup of `slot` can see. */
  ghost function View(d: Disk, slot: Slot): Option<SourceView>
    requires FsInv(d)
  {
    match CurrentLink(d, slot)
    case None => None
    case Some(s) => Some(SourceView(s, FilesOf(d, s)))
  }

  lemma CurrentLinkIs(d: Disk, slot: Slot, source: Hash)
    requires OneLinkPerSlot(d)
    ensures CurrentLink(d, slot) == Some(source) <==> KeyLink(slot, source) in d.files
  {
  }

  ghost predicate SameFile(d: Disk, e: Disk, p: FilePath)
    requires FsInv(d) && FsInv(e)
  {
    && (p in d.files <==> p in e.files)
    && (p in d.files ==> d.At(p).content == e.At(p).content)
  }

  /** A slot's view is unchanged when its link and the files of its source are. */
  lemma ViewFrame(d: Disk, e: Disk, slot: Slot)
    requires CacheInv(d) && CacheInv(e)
    requires forall s :: KeyLink(slot, s) in d.files <==> KeyLink(slot, s) in e.files
    requires forall s, n :: KeyLink(slot, s) in d.files ==> SameFile(d, e, SrcFile(s, n))
    ensures View(d, slot) == View(e, slot)
  {
    match CurrentLink(d, slot)
    case None =>
    case Some(s) =>
      CurrentLinkIs(d, slot, s);
      CurrentLinkIs(e, slot, s);
      FilesFrame(d, e, s);
  }

  lemma FilesFrame(d: Disk, e: Disk, source: Hash)
    requires FsInv(d) && FsInv(e)
    requires forall n :: SameFile(d, e, SrcFile(source, n))
    ensures FilesOf(d, source) == FilesOf(e, source)
  {
  }

  /** A linked source has its directory and its `.ref`. */
  lemma LinkedSourceExists(d: Disk, slot: Slot, source: Hash)
    requires CacheInv(d) && KeyLink(slot, source) in d.files
    ensures SrcFile(source, Ref) in d.files && source in d.srcDirs && slot in d.slots
    ensures d.files[KeyLink(slot, source)] == d.files[SrcFile(source, Ref)]
    ensures d.At(SrcFile(source, Ref)).nlink >= 2
  {
    assert Anchor(KeyLink(slot, source)) == SrcFile(source, Ref);
    assert ParentExists(d, SrcFile(source, Ref));
    if d.At(SrcFile(source, Ref)).nlink <= 1 {
      Unshared(d, SrcFile(source, Ref));
    }
  }
}
