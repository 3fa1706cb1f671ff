/**
 * What becomes of keys and jobs in the end, told from results, exit codes and
 * entries on disk: who is deleted, who is served, and which job gets whom.
 */
module Notices {
  import opened CacheTypes
  import opened FileSystem
  import opened CacheInvariant
  import opened Operations
  import opened Isolation
  import opened Filling
  import opened Results
  import opened Runs
  import opened Jobs
  import opened Protocol

  // ---------- one key ----------

  /** Without effect on the key when it is reported. */
  predicate Good(r: AddKeyResult) {
    r in {NotChanged, Inserted, Replaced, SourcePending}
  }

  /** Reporting a key: one with a good result is left alone, any other one is deleted. */
  lemma KeyIsNotified(md5: Bytes -> Hash, s: System)
    requires CacheInv(s.cache.disk) && s.phase.Finalizing? && s.queue.running.Some?
    requires s.phase.next < |s.queue.running.value.keys|
    ensures var key, t := s.queue.running.value.keys[s.phase.next], Next(md5, s, NotifyNext);
      && CacheInv(t.cache.disk)
      && t.phase == Finalizing(s.phase.next + 1) && t.queue == s.queue
      && (key.result in {NotChanged, Inserted, Replaced, SourcePending} ==> t.cache == s.cache)
      && (key.result in {SourceUnknown, IoError, DiskFull, InternalError} ==>
            && t.cache.disk.slots == s.cache.disk.slots - {key.slot}
            && forall h :: KeyLink(key.slot, h) !in t.cache.disk.files)
      && (key.slot !in s.cache.disk.slots ==> t.cache == s.cache)
      && forall other :: other != key.slot ==> View(t.cache.disk, other) == View(s.cache.disk, other)
  {
    var key := s.queue.running.value.keys[s.phase.next];
    DeleteIsExact(s.cache, key.slot);
    forall other | other != key.slot
      ensures View(DeleteKey(s.cache, key.slot).disk, other) == View(s.cache.disk, other)
    {
      DeleteKeyIsolated(s.cache, key.slot, other);
    }
  }

  lemma DeleteIsExact(c: Cache, slot: Slot)
    requires CacheInv(c.disk)
    ensures var e := DeleteKey(c, slot);
      && CacheInv(e.disk) && e.disk.slots == c.disk.slots - {slot}
      && (slot !in c.disk.slots ==> e == c)
      && forall h :: KeyLink(slot, h) !in e.disk.files
  {
    DeleteKeyInv(c, slot);
    var e := DeleteKey(c, slot).disk;
    assert slot !in e.slots;
    assert forall h :: ParentExists(e, KeyLink(slot, h)) <==> slot in e.slots;
  }

  // ---------- all keys of a job ----------

  /** The keys of a list that are deleted when it is reported, from position `i` on. */
  function Failed(keys: seq<PendingKey>, i: nat): set<Slot> {
    set j | i <= j < |keys| && !Good(keys[j].result) :: keys[j].slot
  }

  /** What reporting the keys from position `i` on does to the cache. */
  ghost predicate Reports(c: Cache, e: Cache, keys: seq<PendingKey>, i: nat)
    requires FsInv(c.disk)
  {
    && CacheInv(e.disk)
    && e.disk.slots == c.disk.slots - Failed(keys, i)
    && (Failed(keys, i) !! c.disk.slots ==> e == c)
    && forall slot :: slot !in Failed(keys, i) ==> View(e.disk, slot) == View(c.disk, slot)
  }

  /** The notifications that are left, and the end. */
  function Remaining(n: nat): seq<Command> {
    seq(n, i => NotifyNext) + [EndFinalize]
  }

  /** The first of the remaining notifications. */
  lemma OneReported(md5: Bytes -> Hash, s: System, left: nat)
    requires SysInv(s) && left > 0
    ensures SysInv(Next(md5, s, NotifyNext))
    ensures Execution(md5, s, Remaining(left)) == Execution(md5, Next(md5, s, NotifyNext), Remaining(left - 1))
  {
    RemainingNext(left);
    FirstCommand(md5, s, NotifyNext, Remaining(left - 1));
  }

  lemma RemainingNext(left: nat)
    requires left > 0
    ensures Remaining(left) == [NotifyNext] + Remaining(left - 1)
  {
  }

  /** After the last one the job is dropped. */
  lemma NoneReported(md5: Bytes -> Hash, s: System)
    requires SysInv(s) && s.phase.Finalizing? && s.queue.running.Some?
    requires s.phase.next == |s.queue.running.value.keys|
    ensures var t := Execution(md5, s, Remaining(0));
      t.phase == Waiting && t.queue == s.queue.(running := None) && t.cache == s.cache
  {
    OneCommand(md5, s, EndFinalize);
    assert Remaining(0) == [EndFinalize];
  }

  lemma NothingToReport(c: Cache, keys: seq<PendingKey>)
    requires CacheInv(c.disk)
    ensures Reports(c, c, keys, |keys|)
  {
    assert Failed(keys, |keys|) == {};
  }

  lemma {:induction false} RemainingReported(md5: Bytes -> Hash, s: System)
    requires SysInv(s) && s.phase.Finalizing? && s.queue.running.Some?
    requires s.phase.next <= |s.queue.running.value.keys|
    ensures var keys, i := s.queue.running.value.keys, s.phase.next;
      var t := Execution(md5, s, Remaining(|keys| - i));
      t.phase == Waiting && t.queue == s.queue.(running := None) && Reports(s.cache, t.cache, keys, i)
    decreases KeysLeft(s)
  {
    var keys, i := s.queue.running.value.keys, s.phase.next;
    if i == |keys| {
      NoneReported(md5, s);
      NothingToReport(s.cache, keys);
    } else {
      KeyIsNotified(md5, s);
      OneReported(md5, s, |keys| - i);
      var n := Next(md5, s, NotifyNext);
      RemainingReported(md5, n);
      ReportsNext(s.cache, n.cache, Execution(md5, n, Remaining(|keys| - i - 1)).cache, keys, i);
    }
  }

  lemma ReportsNext(c: Cache, d: Cache, e: Cache, keys: seq<PendingKey>, i: nat)
    requires CacheInv(c.disk) && CacheInv(d.disk) && i < |keys| && Reports(d, e, keys, i + 1)
    requires Good(keys[i].result) ==> d == c
    requires !Good(keys[i].result) ==> d.disk.slots == c.disk.slots - {keys[i].slot}
    requires keys[i].slot !in c.disk.slots ==> d == c
    requires forall other :: other != keys[i].slot ==> View(d.disk, other) == View(c.disk, other)
    ensures Reports(c, e, keys, i)
  {
    assert Failed(keys, i) == Failed(keys, i + 1) + if Good(keys[i].result) then {} else {keys[i].slot};
  }

  /**
   * Finalizing a job with nothing else in between: the keys without a good
   * result are deleted, and what all others lead to is as before.
   */
  lemma JobIsFinalized(md5: Bytes -> Hash, s: System)
    requires SysInv(s) && s.phase == Executed && s.queue.running.Some?
    ensures var keys := s.queue.running.value.keys;
      var t := Execution(md5, s, FinalizeCommands(|keys|));
      && t.phase == Waiting && t.queue == s.queue.(running := None)
      && Reports(s.cache, t.cache, keys, 0)
  {
    Begins(md5, s, |s.queue.running.value.keys|);
    StartIsQuiet(md5, s);
    RemainingReported(md5, Next(md5, s, StartFinalize));
  }

  lemma StartIsQuiet(md5: Bytes -> Hash, s: System)
    requires CacheInv(s.cache.disk) && s.phase == Executed && s.queue.running.Some?
    ensures Next(md5, s, StartFinalize) == s.(phase := Finalizing(0))
  {
  }

  lemma Begins(md5: Bytes -> Hash, s: System, left: nat)
    requires SysInv(s)
    ensures SysInv(Next(md5, s, StartFinalize))
    ensures Execution(md5, s, FinalizeCommands(left)) == Execution(md5, Next(md5, s, StartFinalize), Remaining(left))
  {
    StartsThenReports(left);
    FirstCommand(md5, s, StartFinalize, Remaining(left));
  }

  lemma StartsThenReports(left: nat)
    ensures FinalizeCommands(left) == [StartFinalize] + Remaining(left)
  {
  }

  // ---------- jobs that fail, jobs that succeed ----------

  /** The job's working directory cannot be made, or its script ends with a code other than zero. */
  predicate Fails(c: Command) {
    c == Prepare(false) || (c.Complete? && c.exitCode != 0)
  }

  /** A job whose preparation or script failed changes nothing and keeps its keys without a result. */
  lemma JobFails(md5: Bytes -> Hash, s: System, c: Command)
    requires CacheInv(s.cache.disk) && WorkerInv(s) && Enabled(s, c) && Fails(c)
    ensures var t := Next(md5, s, c);
      && t.phase == Executed && t.cache == s.cache && t.queue.running.Some?
      && t.queue.running.value.state == DoneError && t.queue.running.value.keys == s.queue.running.value.keys
      && forall j :: 0 <= j < |t.queue.running.value.keys| ==> t.queue.running.value.keys[j].result == SourceUnknown
  {
  }

  /** When such a job has been finalized, none of its keys has a directory, and all other keys lead where they did. */
  lemma FailedKeysAreGone(md5: Bytes -> Hash, s: System, c: Command)
    requires SysInv(s) && Enabled(s, c) && Fails(c)
    ensures var keys := s.queue.running.value.keys;
      && SysInv(Next(md5, s, c))
      && var t := Execution(md5, Next(md5, s, c), FinalizeCommands(|keys|)).cache.disk;
      && CacheInv(t)
      && (forall j :: 0 <= j < |keys| ==> keys[j].slot !in t.slots)
      && forall slot :: (forall j :: 0 <= j < |keys| ==> keys[j].slot != slot) ==>
           (slot in t.slots <==> slot in s.cache.disk.slots) && View(t, slot) == View(s.cache.disk, slot)
  {
    JobFails(md5, s, c);
    NextInv(md5, s, c);
    var n := Next(md5, s, c);
    JobIsFinalized(md5, n);
    AllFailed(s.cache.disk, Execution(md5, n, FinalizeCommands(|n.queue.running.value.keys|)).cache.disk,
              n.queue.running.value.keys);
  }

  lemma AllFailed(d: Disk, e: Disk, keys: seq<PendingKey>)
    requires FsInv(d) && FsInv(e) && forall j :: 0 <= j < |keys| ==> keys[j].result == SourceUnknown
    requires e.slots == d.slots - Failed(keys, 0)
    requires forall slot :: slot !in Failed(keys, 0) ==> View(e, slot) == View(d, slot)
    ensures forall j :: 0 <= j < |keys| ==> keys[j].slot !in e.slots
    ensures forall slot :: (forall j :: 0 <= j < |keys| ==> keys[j].slot != slot) ==>
      (slot in e.slots <==> slot in d.slots) && View(e, slot) == View(d, slot)
  {
    forall j | 0 <= j < |keys|
      ensures keys[j].slot in Failed(keys, 0)
    {
    }
  }

  /** A job is done well if and only if its script ends with zero and its update succeeds. */
  lemma JobSucceedsIff(md5: Bytes -> Hash, s: System, exitCode: int, fill: UpdateEnv)
    requires SysInv(s) && Enabled(s, Complete(exitCode, fill))
    ensures var j, t := s.queue.running.value, Next(md5, s, Complete(exitCode, fill));
      && t.phase == Executed && t.queue.running.Some? && t.queue.running.value.source == j.source
      && t.queue.running.value.state == (if exitCode == 0 && MaySucceed(md5, s.cache.disk, j.source, j.keys, fill)
                                         then DoneOk else DoneError)
      && (exitCode != 0 ==> t.cache == s.cache)
  {
    UpdateExact(md5, s.cache, s.queue.running.value.source, s.queue.running.value.keys, fill);
  }

  /** The results of the keys of a job that is done well, by the links they had before. */
  lemma KeysAreTold(md5: Bytes -> Hash, s: System, fill: UpdateEnv)
    requires SysInv(s) && Enabled(s, Complete(0, fill))
    requires MaySucceed(md5, s.cache.disk, s.queue.running.value.source, s.queue.running.value.keys, fill)
    ensures var j, t := s.queue.running.value, Next(md5, s, Complete(0, fill));
      && t.queue.running.Some? && |t.queue.running.value.keys| == |j.keys|
      && t.cache.disk.slots == s.cache.disk.slots
      && forall i :: 0 <= i < |j.keys| ==>
           && t.queue.running.value.keys[i].slot == j.keys[i].slot
           && t.queue.running.value.keys[i].result ==
                (if j.keys[i].slot !in s.cache.disk.slots then SourceUnknown
                 else if !LinkedBy(s.cache.disk, j.keys, j.source, 0, i) then Replaced
                 else if PoolGrew(s.cache.disk, t.cache.disk) then Inserted
                 else NotChanged)
  {
    var j := s.queue.running.value;
    UpdateExact(md5, s.cache, j.source, j.keys, fill);
    UpdateSettles(md5, s.cache, j.source, j.keys, fill);
  }

  /** When such a job has been finalized, its keys that have a directory still lead to its source. */
  lemma ServedKeysStay(md5: Bytes -> Hash, s: System, fill: UpdateEnv)
    requires SysInv(s) && Enabled(s, Complete(0, fill))
    requires MaySucceed(md5, s.cache.disk, s.queue.running.value.source, s.queue.running.value.keys, fill)
    ensures var j, n := s.queue.running.value, Next(md5, s, Complete(0, fill));
      && SysInv(n)
      && var t := Execution(md5, n, FinalizeCommands(|j.keys|));
      && t.cache == n.cache
      && forall i :: 0 <= i < |j.keys| && j.keys[i].slot in s.cache.disk.slots ==>
           CurrentLink(t.cache.disk, j.keys[i].slot) == Some(j.source)
  {
    var j, n := s.queue.running.value, Next(md5, s, Complete(0, fill));
    NextInv(md5, s, Complete(0, fill));
    KeysAreTold(md5, s, fill);
    JobSucceedsIff(md5, s, 0, fill);
    NoKeySlipsPast(md5, s, 0, fill);
    JobIsFinalized(md5, n);
    var keys := n.queue.running.value.keys;
    assert Failed(keys, 0) !! n.cache.disk.slots;
    forall i | 0 <= i < |j.keys| && j.keys[i].slot in s.cache.disk.slots
      ensures CurrentLink(n.cache.disk, j.keys[i].slot) == Some(j.source)
    {
      assert Settled(n.cache.disk, keys, j.source, i);
      CurrentLinkIs(n.cache.disk, j.keys[i].slot, j.source);
    }
  }

  // ---------- adding ----------

  /** After a request: which key is cleaned up, and which job there is, by what the cache answered. */
  lemma RequestIsAnswered(md5: Bytes -> Hash, s: System, c: Command)
    requires CacheInv(s.cache.disk) && c.Add? && !s.phase.Finalizing?
    ensures var o := AddStreamKey(s.cache, c.slot, c.source, s.queue.Pending(), c.env);
      var t := Next(md5, s, c);
      && CacheInv(o.cache.disk) && t.phase == s.phase
      && (o.result in {NotChanged, Inserted, Replaced, SourcePending} ==> t.cache == o.cache)
      && (o.result in {IoError, DiskFull, InternalError} ==>
            && t.cache.disk.slots == o.cache.disk.slots - {c.slot}
            && forall h :: KeyLink(c.slot, h) !in t.cache.disk.files)
      && (o.result != SourceUnknown && o.joined.None? ==> t.queue == s.queue)
  {
    AddStreamKeyInv(s.cache, c.slot, c.source, s.queue.Pending(), c.env);
    DeleteIsExact(AddStreamKey(s.cache, c.slot, c.source, s.queue.Pending(), c.env).cache, c.slot);
  }

  /** A source that is not known gets a job, unless its data cannot be put aside. */
  lemma UnknownSourceIsQueued(md5: Bytes -> Hash, s: System, c: Command)
    requires CacheInv(s.cache.disk) && c.Add? && !s.phase.Finalizing?
    requires var o := AddStreamKey(s.cache, c.slot, c.source, s.queue.Pending(), c.env);
      o.result == SourceUnknown && o.joined.None?
    ensures var o := AddStreamKey(s.cache, c.slot, c.source, s.queue.Pending(), c.env);
      var t := Next(md5, s, c);
      && CacheInv(o.cache.disk)
      && (c.download || c.workdir == WorkdirReady ==>
            && t.cache == o.cache && t.queue.running == s.queue.running
            && var state := if c.download then DownloadIdle else ConvertIdle;
               t.queue.jobs ==
                 s.queue.jobs + [JobVal(s.nextId, c.source, state, [PendingKey(c.slot, SourceUnknown)])])
      && (!c.download && c.workdir == WorkdirBusy ==> t.cache == o.cache && t.queue == s.queue)
      && (!c.download && c.workdir == WorkdirFailed ==>
            && t.queue == s.queue && t.cache.disk.slots == o.cache.disk.slots - {c.slot}
            && forall h :: KeyLink(c.slot, h) !in t.cache.disk.files)
  {
    AddStreamKeyInv(s.cache, c.slot, c.source, s.queue.Pending(), c.env);
    DeleteIsExact(AddStreamKey(s.cache, c.slot, c.source, s.queue.Pending(), c.env).cache, c.slot);
  }

  /** Requests come at any time but while a job is being finalized, visits of the collector at any time. */
  lemma AnyTime(s: System, slot: Slot, source: Hash, download: bool, env: AddEnv, workdir: Workdir,
                key: string, hash: Hash, threshold: Timespec)
    ensures Enabled(s, Add(slot, source, download, env, workdir)) <==> !s.phase.Finalizing?
    ensures Enabled(s, Background(CollectKey(key, threshold)))
    ensures Enabled(s, Background(CollectSource(hash, threshold)))
    ensures Enabled(s, Background(CollectObject(hash, threshold)))
  {
  }
}
