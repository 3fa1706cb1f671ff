/** The directory entries, inodes and hard links the cache is stored in. */
module FileSystem {
  import opened CacheTypes

  /** A name inside a source directory: `.ref`, or `format:hash`. */
  datatype SrcName = Ref | Out(format: string, hash: Hash)

  /**
   * A regular file of the cache: `key/prio/src:source`, `.src/source/name`
   * or `.obj/hash`.
   */
  datatype FilePath =
    | KeyLink(slot: Slot, source: Hash)
    | SrcFile(source: Hash, name: SrcName)
    | ObjFile(hash: Hash)

  datatype Inode = Inode(content: Bytes, atime: Timespec, nlink: nat)

  datatype Disk = Disk(
    keyDirs: map<string, Timespec>,   // key directory -> its access time
    slots: set<Slot>,                 // key/prio directories
    srcDirs: set<Hash>,
    files: map<FilePath, nat>,        // file -> inode number
    inodes: map<nat, Inode>,
    nextIno: nat)
  {
    predicate Has(p: FilePath) {
      p in files
    }

    function At(p: FilePath): Inode
      requires p in files && files[p] in inodes
    {
      inodes[files[p]]
    }
  }

  const EMPTY_DISK := Disk(map[], {}, {}, map[], map[], 0)

  // ---------- invariant of the file system ----------

  ghost function Links(d: Disk, i: nat): set<FilePath> {
    set p | p in d.files && d.files[p] == i
  }

  ghost predicate InodesPresent(d: Disk) {
    forall p :: p in d.files ==> d.files[p] in d.inodes
  }

  ghost predicate ParentExists(d: Disk, p: FilePath) {
    match p
    case KeyLink(slot, _) => slot in d.slots
    case SrcFile(source, _) => source in d.srcDirs
    case ObjFile(_) => true
  }

  /** Every stored link count is the number of entries for its inode, and no inode outlives its entries. */
  ghost predicate FsInv(d: Disk) {
    && (forall p :: p in d.files ==> d.files[p] in d.inodes && ParentExists(d, p))
    && (forall i :: i in d.inodes ==> i < d.nextIno && d.inodes[i].nlink == |Links(d, i)| && Links(d, i) != {})
    && (forall slot :: slot in d.slots ==> slot.key in d.keyDirs)
  }

  // ---------- primitives ----------

  function Gone(d: Disk, victims: set<FilePath>, i: nat): nat {
    |set p | p in victims && p in d.files && d.files[p] == i|
  }

  /**
   * Unlinks a set of files.  Each removed entry takes one off its inode's
   * link count; an inode whose count reaches zero is freed.
   */
  function Remove(d: Disk, victims: set<FilePath>): Disk {
    d.(files := d.files - victims,
       inodes := map i | i in d.inodes && Gone(d, victims, i) < d.inodes[i].nlink ::
         d.inodes[i].(nlink := d.inodes[i].nlink - Gone(d, victims, i)))
  }

  /** link(2): a further entry for the inode of an existing file. */
  function AddLink(d: Disk, target: FilePath, name: FilePath): Disk
    requires target in d.files && d.files[target] in d.inodes
  {
    var i := d.files[target];
    d.(files := d.files[name := i],
       inodes := d.inodes[i := d.inodes[i].(nlink := d.inodes[i].nlink + 1)])
  }

  /** A file with a new inode: created in place, or moved in from outside the cache. */
  function Create(d: Disk, name: FilePath, content: Bytes, atime: Timespec): Disk {
    d.(files := d.files[name := d.nextIno],
       inodes := d.inodes[d.nextIno := Inode(content, atime, 1)],
       nextIno := d.nextIno + 1)
  }

  function MakeKeyDir(d: Disk, key: string, now: Timespec): Disk {
    d.(keyDirs := if key in d.keyDirs then d.keyDirs else d.keyDirs[key := now])
  }

  function MakeSlot(d: Disk, slot: Slot, now: Timespec): Disk {
    MakeKeyDir(d, slot.key, now).(slots := d.slots + {slot})
  }

  function LinksOfKeys(d: Disk, keys: set<string>): set<FilePath> {
    set p | p in d.files && p.KeyLink? && p.slot.key in keys
  }

  /** rm -r on key directories. */
  function RmKeys(d: Disk, keys: set<string>): Disk {
    Remove(d, LinksOfKeys(d, keys))
      .(keyDirs := d.keyDirs - keys, slots := set slot | slot in d.slots && slot.key !in keys)
  }

  function FilesOfSources(d: Disk, sources: set<Hash>): set<FilePath> {
    set p | p in d.files && p.SrcFile? && p.source in sources
  }

  /** rm -r on source directories. */
  function RmSources(d: Disk, sources: set<Hash>): Disk {
    Remove(d, FilesOfSources(d, sources))
      .(srcDirs := d.srcDirs - sources)
  }

  // ---------- the primitives keep the counts ----------

  lemma GoneLinks(d: Disk, victims: set<FilePath>, i: nat)
    ensures Gone(d, victims, i) == |Links(d, i)| - |Links(d, i) - victims|
    ensures Links(Remove(d, victims), i) == Links(d, i) - victims
  {
    var gone := set p | p in victims && p in d.files && d.files[p] == i;
    assert Links(d, i) == (Links(d, i) - victims) + gone;
  }

  /** What is left of one inode. */
  lemma RemoveInode(d: Disk, victims: set<FilePath>, i: nat)
    requires FsInv(d) && i in d.inodes
    ensures i in Remove(d, victims).inodes <==> Links(d, i) - victims != {}
    ensures i in Remove(d, victims).inodes ==>
      Remove(d, victims).inodes[i] == d.inodes[i].(nlink := |Links(d, i) - victims|)
  {
    GoneLinks(d, victims, i);
  }

  lemma RemoveKeeps(d: Disk, victims: set<FilePath>)
    requires FsInv(d)
    ensures FsInv(Remove(d, victims))
  {
    var e := Remove(d, victims);
    forall p | p in e.files
      ensures e.files[p] in e.inodes
    {
      assert p in Links(d, d.files[p]) - victims;
      RemoveInode(d, victims, d.files[p]);
    }
    forall i | i in e.inodes
      ensures e.inodes[i].nlink == |Links(e, i)| && Links(e, i) != {}
    {
      RemoveInode(d, victims, i);
      GoneLinks(d, victims, i);
    }
  }

  /** A surviving entry still names the same inode, with the same bytes and access time. */
  lemma RemoveSurvivor(d: Disk, victims: set<FilePath>, p: FilePath)
    requires FsInv(d) && p in d.files && p !in victims
    ensures var e := Remove(d, victims);
      p in e.files && e.files[p] == d.files[p] && e.files[p] in e.inodes &&
      e.At(p) == d.At(p).(nlink := |Links(d, d.files[p]) - victims|)
  {
    assert p in Links(d, d.files[p]) - victims;
    RemoveInode(d, victims, d.files[p]);
  }

  lemma AddLinkKeeps(d: Disk, target: FilePath, name: FilePath)
    requires FsInv(d) && target in d.files && name !in d.files && ParentExists(d, name)
    ensures FsInv(AddLink(d, target, name))
  {
    var e := AddLink(d, target, name);
    forall i | i in e.inodes
      ensures e.inodes[i].nlink == |Links(e, i)| && Links(e, i) != {}
    {
      if i == d.files[target] {
        assert Links(e, i) == Links(d, i) + {name};
      } else {
        assert Links(e, i) == Links(d, i);
      }
    }
  }

  lemma CreateKeeps(d: Disk, name: FilePath, content: Bytes, atime: Timespec)
    requires FsInv(d) && name !in d.files && ParentExists(d, name)
    ensures FsInv(Create(d, name, content, atime))
  {
    var e := Create(d, name, content, atime);
    forall i | i in e.inodes
      ensures e.inodes[i].nlink == |Links(e, i)| && Links(e, i) != {}
    {
      if i == d.nextIno {
        assert Links(e, i) == {name};
      } else {
        assert Links(e, i) == Links(d, i);
      }
    }
  }

  /** Removing in two goes is removing at once. */
  lemma RemoveTwice(d: Disk, a: set<FilePath>, b: set<FilePath>)
    requires FsInv(d)
    ensures Remove(Remove(d, a), b) == Remove(d, a + b)
  {
    RemoveKeeps(d, a);
    var left, right := Remove(Remove(d, a), b).inodes, Remove(d, a + b).inodes;
    assert left == right by {
      forall i | i in d.inodes
        ensures i in left <==> i in right
        ensures i in left ==> left[i] == right[i]
      {
        RemoveTwiceInode(d, a, b, i);
      }
      SameMap(left, right);
    }
    assert d.files - a - b == d.files - (a + b);
  }

  lemma SameMap<K, V>(m: map<K, V>, n: map<K, V>)
    requires forall k :: k in m <==> k in n
    requires forall k :: k in m ==> m[k] == n[k]
    ensures m == n
  {
  }

  lemma RemoveTwiceInode(d: Disk, a: set<FilePath>, b: set<FilePath>, i: nat)
    requires FsInv(d) && FsInv(Remove(d, a)) && i in d.inodes
    ensures i in Remove(Remove(d, a), b).inodes <==> i in Remove(d, a + b).inodes
    ensures i in Remove(Remove(d, a), b).inodes ==>
      Remove(Remove(d, a), b).inodes[i] == Remove(d, a + b).inodes[i]
  {
    var e := Remove(d, a);
    RemoveInode(d, a, i);
    RemoveInode(d, a + b, i);
    GoneLinks(d, a, i);
    assert Links(d, i) - (a + b) == Links(e, i) - b;
    if i in e.inodes {
      RemoveInode(e, b, i);
    }
  }
}
