/**
 * What adding a key does and answers, told from the entries on disk: for a
 * source that is known, for one that is new, and for every system call that
 * fails.
 */
module Requests {
  import opened CacheTypes
  import opened FileSystem
  import opened CacheInvariant
  import opened Operations
  import opened Lookup

  // ---------- entering the source ----------

  /** Whether the source is counted anew, and what is left of it. */
  lemma SourceEntered(d: Disk, source: Hash, now: Timespec, mkdir: Fault, touch: Fault)
    requires CacheInv(d)
    ensures var (e, r) := MkSourceEntry(d, source, now, mkdir, touch);
      && CacheInv(e)
      && (mkdir != Fine ==> e == d && r == SourceIoError)
      && (mkdir == Fine && SrcFile(source, Ref) in d.files ==>
            e == d && r == if HasOutputs(d, source) then SourceNotChanged else SourceEmpty)
      && (mkdir == Fine && SrcFile(source, Ref) !in d.files ==>
            && e.srcDirs == d.srcDirs + {source} && !HasOutputs(e, source)
            && (SrcFile(source, Ref) in e.files <==> touch == Fine)
            && (touch == Fine ==> r == SourceInserted && e.At(SrcFile(source, Ref)) == Inode([], now, 1))
            && (touch == NoSpace ==> r == SourceDiskFull)
            && (touch == IoFail ==> r == SourceIoError))
      && (forall p: FilePath :: !(p.SrcFile? && p.source == source) ==> (p in e.files <==> p in d.files))
      && e.slots == d.slots && e.keyDirs == d.keyDirs
  {
    MkSourceEntryInv(d, source, now, mkdir, touch);
    if mkdir == Fine && SrcFile(source, Ref) in d.files {
      assert ParentExists(d, SrcFile(source, Ref));
    } else if mkdir == Fine && source in d.srcDirs {
      ClearedInv(d, source);
    } else if mkdir == Fine {
      forall n
        ensures SrcFile(source, n) !in d.files
      {
        assert ParentExists(d, SrcFile(source, n)) <==> source in d.srcDirs;
      }
    }
  }

  // ---------- linking ----------

  /** Linking succeeds: the key's one link leads to the source, and all other entries are as before. */
  lemma Linked(d: Disk, slot: Slot, source: Hash, ifAdded: AddKeyResult)
    requires CacheInv(d) && slot in d.slots && SrcFile(source, Ref) in d.files
    ensures var (e, r) := LinkToSource(d, slot, source, ifAdded, Fine);
      && CacheInv(e)
      && KeyLink(slot, source) in e.files
      && (forall p: FilePath :: !(p.KeyLink? && p.slot == slot) ==> (p in e.files <==> p in d.files))
      && e.slots == d.slots && e.keyDirs == d.keyDirs && e.srcDirs == d.srcDirs
      && (KeyLink(slot, source) in d.files ==> e == d && r == NotChanged)
      && (KeyLink(slot, source) !in d.files && (exists t :: KeyLink(slot, t) in d.files) ==> r == Replaced)
      && ((forall t :: KeyLink(slot, t) !in d.files) ==> r == ifAdded)
  {
    LinkToSourceInv(d, slot, source, ifAdded, Fine);
    if CurrentLink(d, slot).Some? && CurrentLink(d, slot).value != source {
      UnlinkSlotInv(d, slot, CurrentLink(d, slot).value);
    }
  }

  /** Linking fails: the old link is gone if there was another one, and the answer tells the cause. */
  lemma NotLinked(d: Disk, slot: Slot, source: Hash, ifAdded: AddKeyResult, link: Fault)
    requires CacheInv(d) && slot in d.slots && KeyLink(slot, source) !in d.files
    requires link != Fine || SrcFile(source, Ref) !in d.files
    ensures var (e, r) := LinkToSource(d, slot, source, ifAdded, link);
      && CacheInv(e)
      && (forall t :: KeyLink(slot, t) !in e.files)
      && (forall p: FilePath :: !(p.KeyLink? && p.slot == slot) ==> (p in e.files <==> p in d.files))
      && e.slots == d.slots && e.keyDirs == d.keyDirs && e.srcDirs == d.srcDirs
      && r == if link == NoSpace then DiskFull else IoError
  {
    LinkToSourceInv(d, slot, source, ifAdded, link);
    if CurrentLink(d, slot).Some? {
      UnlinkSlotInv(d, slot, CurrentLink(d, slot).value);
    }
  }

  /** Without a key/prio directory there is nothing to link. */
  lemma NothingToLink(d: Disk, slot: Slot, source: Hash, ifAdded: AddKeyResult, link: Fault)
    requires CacheInv(d) && slot !in d.slots
    ensures LinkToSource(d, slot, source, ifAdded, link) == (d, InternalError)
  {
  }

  // ---------- a known source ----------

  /** The source is filled, or its job waits in the queue. */
  ghost predicate KnownSource(d: Disk, source: Hash, pending: Pending) {
    SrcFile(source, Ref) in d.files && (HasOutputs(d, source) || source in pending.queued)
  }

  /** The key leads to a source that has a job, running or waiting. */
  ghost predicate Waits(d: Disk, slot: Slot, pending: Pending) {
    exists t :: KeyLink(slot, t) in d.files && (t in pending.queued || pending.running == Some(t))
  }

  /** Only links of the key differ. */
  ghost predicate OnlyLinksOf(slot: Slot, d: Disk, e: Disk) {
    && (forall p: FilePath :: !(p.KeyLink? && p.slot == slot) ==> (p in e.files <==> p in d.files))
    && e.srcDirs == d.srcDirs && e.slots == d.slots + {slot}
    && e.keyDirs.Keys == d.keyDirs.Keys + {slot.key} && forall k :: k in d.keyDirs ==> e.keyDirs[k] == d.keyDirs[k]
  }

  /** What the answer tells about the link that the key had. */
  ghost predicate TellsOldLink(r: AddKeyResult, d: Disk, slot: Slot, source: Hash) {
    r == (if KeyLink(slot, source) in d.files then NotChanged
          else if exists t :: KeyLink(slot, t) in d.files then Replaced
          else Inserted)
  }

  lemma ExistingKeyIsLinked(c: Cache, slot: Slot, source: Hash, pending: Pending, now: Timespec)
    requires CacheInv(c.disk) && SrcFile(source, Ref) in c.disk.files && !Waits(c.disk, slot, pending)
    requires slot in c.disk.slots
    ensures var o := AddSlot(c, slot, source, false, pending, AllFine(now));
      && CacheInv(o.cache.disk) && o.joined == None && o.cache.counts == c.counts
      && KeyLink(slot, source) in o.cache.disk.files && OnlyLinksOf(slot, c.disk, o.cache.disk)
      && TellsOldLink(o.result, c.disk, slot, source)
  {
    NotJoined(c.disk, slot, pending);
    Linked(c.disk, slot, source, Inserted);
    assert c.disk.slots + {slot} == c.disk.slots && slot.key in c.disk.keyDirs;
    assert c.disk.keyDirs.Keys + {slot.key} == c.disk.keyDirs.Keys;
  }

  lemma NewKeyIsLinked(c: Cache, slot: Slot, source: Hash, ifAdded: AddKeyResult, now: Timespec)
    requires CacheInv(c.disk) && SrcFile(source, Ref) in c.disk.files && slot !in c.disk.slots
    ensures CacheInv(MakeSlot(c.disk, slot, now))
    ensures var (e, r) := LinkToSource(MakeSlot(c.disk, slot, now), slot, source, ifAdded, Fine);
      && CacheInv(e) && r == ifAdded
      && KeyLink(slot, source) in e.files && OnlyLinksOf(slot, c.disk, e)
      && (forall t :: KeyLink(slot, t) !in c.disk.files)
  {
    NewKeyHasNoLink(c.disk, slot);
    MakeSlotInv(c.disk, slot, now);
    Linked(MakeSlot(c.disk, slot, now), slot, source, ifAdded);
  }

  lemma KnownIsNotNew(c: Cache, slot: Slot, source: Hash, pending: Pending, now: Timespec)
    requires CacheInv(c.disk) && KnownSource(c.disk, source, pending)
    ensures AddStreamKey(c, slot, source, pending, AllFine(now)) ==
            AddSlot(c, slot, source, false, pending, AllFine(now))
  {
    SourceEntered(c.disk, source, now, Fine, Fine);
  }

  /**
   * A key that does not wait is linked to a known source, whether it is new,
   * has no link, or leads elsewhere; the answer tells which.
   */
  lemma KnownSourceIsLinked(c: Cache, slot: Slot, source: Hash, pending: Pending, now: Timespec)
    requires CacheInv(c.disk) && KnownSource(c.disk, source, pending) && !Waits(c.disk, slot, pending)
    ensures var o := AddStreamKey(c, slot, source, pending, AllFine(now));
      && CacheInv(o.cache.disk) && o.joined == None
      && KeyLink(slot, source) in o.cache.disk.files && CurrentLink(o.cache.disk, slot) == Some(source)
      && OnlyLinksOf(slot, c.disk, o.cache.disk)
      && o.cache.counts ==
           (if slot in c.disk.slots then c.counts else c.counts.(streams := c.counts.streams + 1, changed := true))
      && TellsOldLink(o.result, c.disk, slot, source)
  {
    KnownIsNotNew(c, slot, source, pending, now);
    if slot in c.disk.slots {
      ExistingKeyIsLinked(c, slot, source, pending, now);
    } else {
      NewKeyIsLinked(c, slot, source, Inserted, now);
    }
    CurrentLinkIs(AddSlot(c, slot, source, false, pending, AllFine(now)).cache.disk, slot, source);
  }

  lemma NotJoined(d: Disk, slot: Slot, pending: Pending)
    requires CacheInv(d)
    ensures JoinsJob(d, slot, pending) <==> Waits(d, slot, pending)
  {
    if t :| KeyLink(slot, t) in d.files {
      CurrentLinkIs(d, slot, t);
    }
  }

  lemma NewKeyHasNoLink(d: Disk, slot: Slot)
    requires CacheInv(d) && slot !in d.slots
    ensures forall t :: KeyLink(slot, t) !in d.files
  {
    assert forall t :: ParentExists(d, KeyLink(slot, t)) <==> slot in d.slots;
  }

  /** The reference counts follow: this key is one more holder of the source, and of no other. */
  lemma HoldersFollow(c: Cache, slot: Slot, source: Hash, pending: Pending, now: Timespec)
    requires CacheInv(c.disk) && KnownSource(c.disk, source, pending) && !Waits(c.disk, slot, pending)
    ensures var e := AddStreamKey(c, slot, source, pending, AllFine(now)).cache.disk;
      && CacheInv(e)
      && Holders(e, source) == Holders(c.disk, source) + {slot}
      && (forall t :: t != source ==> Holders(e, t) == Holders(c.disk, t) - {slot})
      && SrcFile(source, Ref) in e.files
      && e.At(SrcFile(source, Ref)).nlink == 1 + |Holders(c.disk, source) + {slot}|
  {
    KnownSourceIsLinked(c, slot, source, pending, now);
    var e := AddStreamKey(c, slot, source, pending, AllFine(now)).cache.disk;
    HoldersMove(c.disk, e, slot, source);
    LinkedSourceExists(e, slot, source);
    RefCountsHolders(e, source);
  }

  lemma HoldersMove(d: Disk, e: Disk, slot: Slot, source: Hash)
    requires CacheInv(d) && CacheInv(e) && OnlyLinksOf(slot, d, e) && KeyLink(slot, source) in e.files
    ensures Holders(e, source) == Holders(d, source) + {slot}
    ensures forall t :: t != source ==> Holders(e, t) == Holders(d, t) - {slot}
  {
    forall t, k: Slot
      ensures k in Holders(e, t) <==> if k == slot then t == source else k in Holders(d, t)
    {
      assert KeyLink(k, t).KeyLink?;
    }
  }

  lemma NewKeyHasNoLinkUnless(d: Disk, slot: Slot)
    requires CacheInv(d)
    ensures forall t :: KeyLink(slot, t) in d.files ==> slot in d.slots
  {
    assert forall t :: ParentExists(d, KeyLink(slot, t)) <==> slot in d.slots;
  }

  /** Right after that, each format that the source has is found under the key. */
  lemma KnownSourceIsServed(c: Cache, slot: Slot, source: Hash, pending: Pending, now: Timespec,
                            format: string, hash: Hash, busy: set<Hash>, listing: seq<SrcName>, beyond: char)
    requires CacheInv(c.disk) && KnownSource(c.disk, source, pending) && !Waits(c.disk, slot, pending)
    requires PlainNames(c.disk) && Unambiguous(format) && SrcFile(source, Out(format, hash)) in c.disk.files
    requires Lists(listing, NamesIn(AddStreamKey(c, slot, source, pending, AllFine(now)).cache.disk, source))
    ensures var e := AddStreamKey(c, slot, source, pending, AllFine(now)).cache.disk;
      && CacheInv(e) && CurrentLink(e, slot) == Some(source)
      && DoLookup(e, slot, "", format, busy, listing, beyond, true).Found?
  {
    KnownSourceIsLinked(c, slot, source, pending, now);
    var e := AddStreamKey(c, slot, source, pending, AllFine(now)).cache.disk;
    assert PlainNames(e) by {
      forall s, f, h | SrcFile(s, Out(f, h)) in e.files
        ensures SrcFile(s, Out(f, h)) in c.disk.files
      {
      }
    }
    assert SrcFile(source, Out(format, hash)) in e.files;
    FoundIffStored(e, slot, source, format, busy, listing, beyond);
  }

  // ---------- a key that waits ----------

  /** A key whose present source has a job is handed to that job, and nothing changes. */
  lemma WaitingKeyJoins(c: Cache, slot: Slot, source: Hash, pending: Pending, env: AddEnv)
    requires CacheInv(c.disk) && KnownSource(c.disk, source, pending) && Waits(c.disk, slot, pending)
    requires env.mkdirSource == Fine && env.mkdirSlot == Fine
    ensures var o := AddStreamKey(c, slot, source, pending, env);
      && o.cache == c && o.result == SourcePending
      && o.joined.Some? && KeyLink(slot, o.joined.value) in c.disk.files
      && (o.joined.value in pending.queued || pending.running == o.joined)
  {
    SourceEntered(c.disk, source, env.now, env.mkdirSource, env.touch);
    NotJoined(c.disk, slot, pending);
    NewKeyHasNoLinkUnless(c.disk, slot);
  }

  /** No other key is handed to a job. */
  lemma OnlyWaitingKeysJoin(c: Cache, slot: Slot, source: Hash, pending: Pending, env: AddEnv)
    requires CacheInv(c.disk)
    requires AddStreamKey(c, slot, source, pending, env).joined.Some?
    ensures KnownSource(c.disk, source, pending) && Waits(c.disk, slot, pending)
    ensures env.mkdirSource == Fine && env.mkdirSlot == Fine
  {
    SourceEntered(c.disk, source, env.now, env.mkdirSource, env.touch);
    NotJoined(c.disk, slot, pending);
  }

  // ---------- a source that is not known ----------

  /** The source has to be filled: an old key stays as it is, a new one is linked at once. */
  lemma UnknownSourceIsAnnounced(c: Cache, slot: Slot, source: Hash, pending: Pending, now: Timespec)
    requires CacheInv(c.disk) && !KnownSource(c.disk, source, pending)
    ensures var o := AddStreamKey(c, slot, source, pending, AllFine(now));
      && CacheInv(o.cache.disk) && o.result == SourceUnknown && o.joined == None
      && SrcFile(source, Ref) in o.cache.disk.files && !HasOutputs(o.cache.disk, source)
      && o.cache.disk.slots == c.disk.slots + {slot}
      && (slot in c.disk.slots ==>
            forall t :: KeyLink(slot, t) in o.cache.disk.files <==> KeyLink(slot, t) in c.disk.files)
      && (slot !in c.disk.slots ==>
            forall t :: KeyLink(slot, t) in o.cache.disk.files <==> t == source)
      && o.cache.counts.streams == (if slot in c.disk.slots then c.counts.streams else c.counts.streams + 1)
      && o.cache.counts.sources ==
           (if SrcFile(source, Ref) in c.disk.files then c.counts.sources else c.counts.sources + 1)
      && o.cache.counts.objects == c.counts.objects
  {
    SourceEntered(c.disk, source, now, Fine, Fine);
    var d := MkSourceEntry(c.disk, source, now, Fine, Fine).0;
    if slot !in c.disk.slots {
      MakeSlotInv(d, slot, now);
      NewKeyHasNoLink(d, slot);
      Linked(MakeSlot(d, slot, now), slot, source, SourceUnknown);
    }
  }

  // ---------- failing system calls ----------

  /** What the client is told when making a directory or the `.ref` file fails; no link changes. */
  lemma FailuresAreTold(c: Cache, slot: Slot, source: Hash, pending: Pending, env: AddEnv)
    requires CacheInv(c.disk)
    ensures var o := AddStreamKey(c, slot, source, pending, env);
      var noRef := SrcFile(source, Ref) !in c.disk.files;
      && (env.mkdirSource != Fine ==> o.result == IoError && o.cache == c)
      && (env.mkdirSource == Fine && noRef && env.touch == NoSpace ==> o.result == DiskFull)
      && (env.mkdirSource == Fine && noRef && env.touch == IoFail ==> o.result == IoError)
      && (env.mkdirSource == Fine && (noRef ==> env.touch == Fine) && env.mkdirSlot != Fine ==> o.result == IoError)
      && (env.mkdirSource != Fine || (noRef && env.touch != Fine) || env.mkdirSlot != Fine ==>
            && o.joined == None && o.cache.disk.slots == c.disk.slots && o.cache.counts.streams == c.counts.streams
            && forall t, s :: KeyLink(t, s) in o.cache.disk.files <==> KeyLink(t, s) in c.disk.files)
  {
    SourceEntered(c.disk, source, env.now, env.mkdirSource, env.touch);
  }

  /** What the client is told when making the link fails. */
  lemma LinkFailureIsTold(c: Cache, slot: Slot, source: Hash, pending: Pending, now: Timespec, link: Fault)
    requires CacheInv(c.disk) && link != Fine && KeyLink(slot, source) !in c.disk.files
    requires slot !in c.disk.slots || (KnownSource(c.disk, source, pending) && !Waits(c.disk, slot, pending))
    ensures var o := AddStreamKey(c, slot, source, pending, AllFine(now).(link := link));
      && CacheInv(o.cache.disk) && o.joined == None
      && o.result == (if link == NoSpace then DiskFull else IoError)
      && slot in o.cache.disk.slots && forall t :: KeyLink(slot, t) !in o.cache.disk.files
  {
    SourceEntered(c.disk, source, now, Fine, Fine);
    var d := MkSourceEntry(c.disk, source, now, Fine, Fine).0;
    if slot in c.disk.slots {
      NotJoined(c.disk, slot, pending);
      NotLinked(c.disk, slot, source, Inserted, link);
    } else {
      MakeSlotInv(d, slot, now);
      NewKeyHasNoLink(d, slot);
      NotLinked(MakeSlot(d, slot, now), slot, source, SourceUnknown, link);
      NotLinked(MakeSlot(d, slot, now), slot, source, Inserted, link);
    }
  }
}
