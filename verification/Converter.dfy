/**
 * The converter's queue and worker over the cache manager, in place.  Every
 * method is one critical section and does what the matching command of the
 * protocol does; the log is kept for the proof only.
 */
module Converter {
  import opened CacheTypes
  import opened FileSystem
  import opened CacheInvariant
  import opened Operations
  import opened Accounting
  import opened Runs
  import opened Counting
  import opened Jobs
  import opened Protocol
  import opened Manager

  /** Enough on the counters to delete any key. */
  ghost predicate Deletable(c: Cache) {
    ValidPool(c.disk) && SlotsCovered(c) && SourcesCovered(c)
  }

  /** Deleting a key takes as much off the disk as off the counters. */
  lemma DeleteKeyDeletable(c: Cache, slot: Slot)
    requires CacheInv(c.disk) && Deletable(c)
    ensures CacheInv(DeleteKey(c, slot).disk) && Deletable(DeleteKey(c, slot))
  {
    DeleteKeyInv(c, slot);
    if slot in c.disk.slots && CurrentLink(c.disk, slot).Some? {
      var source := CurrentLink(c.disk, slot).value;
      UnlinkSlotInv(c.disk, slot, source);
      DeleteSourceDeletable(c.(disk := Remove(c.disk, {KeyLink(slot, source)})), source);
    }
  }

  lemma DeleteSourceDeletable(c: Cache, source: Hash)
    requires CacheInv(c.disk) && Deletable(c)
    ensures Deletable(DeleteSource(c, source))
    ensures DeleteSource(c, source).disk.slots == c.disk.slots
    ensures DeleteSource(c, source).counts.streams == c.counts.streams
  {
  }

  /**
   * Collecting a key leaves the counters sufficient for deletions if and only
   * if it had a priority left or the counter had a surplus: a key directory
   * without priorities is counted down as well.
   */
  lemma CollectKeyDeletable(c: Cache, key: string, threshold: Timespec)
    requires CacheInv(c.disk) && Deletable(c) && OldKey(c.disk, key, threshold) && c.counts.streams > 0
    ensures Deletable(GcKey(c, key, threshold)) <==>
      (exists prio :: Slot(key, prio) in c.disk.slots) || c.counts.streams > |c.disk.slots|
  {
    CollectKeepsSlots(c, key, threshold);
    var e := GcKey(c, key, threshold);
    RmKeysPool(c.disk, {key});
    assert forall h :: SameFile(c.disk, e.disk, ObjFile(h));
  }

  /** Reporting this result takes one off a counter that is zero already. */
  ghost predicate NotifyFires(c: Cache, slot: Slot, r: AddKeyResult)
    requires FsInv(c.disk)
  {
    IsError(r) && DeleteFires(c, slot)
  }

  /** So does one of the results of a job, reported in order. */
  ghost predicate FinalizeFires(c: Cache, keys: seq<PendingKey>)
    requires CacheInv(c.disk)
    decreases |keys|
  {
    if keys == [] then
      false
    else
      NotifyInv(c, keys[0].slot, keys[0].result);
      NotifyFires(c, keys[0].slot, keys[0].result) ||
      FinalizeFires(Notify(c, keys[0].slot, keys[0].result), keys[1..])
  }

  /** So does cleaning up after a failure to add the key. */
  ghost predicate AddFires(c: Cache, slot: Slot, source: Hash, pending: Pending, env: AddEnv, download: bool,
                           workdir: Workdir)
    requires CacheInv(c.disk)
  {
    AddStreamKeyInv(c, slot, source, pending, env);
    var o := AddStreamKey(c, slot, source, pending, env);
    NotifyFires(o.cache, slot, Reported(o.result, download, workdir))
  }

  lemma NotifyDeletable(c: Cache, slot: Slot, r: AddKeyResult)
    requires CacheInv(c.disk) && Deletable(c)
    ensures !NotifyFires(c, slot, r)
    ensures CacheInv(Notify(c, slot, r).disk) && Deletable(Notify(c, slot, r))
  {
    DeleteKeyDeletable(c, slot);
    if CurrentLink(c.disk, slot).Some? {
      LinkedSourceExists(c.disk, slot, CurrentLink(c.disk, slot).value);
    }
  }

  /** With counters that cover the directories, any job can be finalized. */
  lemma {:induction false} DeletableFinalizes(c: Cache, keys: seq<PendingKey>)
    requires CacheInv(c.disk) && Deletable(c)
    ensures !FinalizeFires(c, keys)
    decreases |keys|
  {
    if keys != [] {
      NotifyDeletable(c, keys[0].slot, keys[0].result);
      DeletableFinalizes(Notify(c, keys[0].slot, keys[0].result), keys[1..]);
    }
  }

  /** With counters that cover the directories, adding may fail in any way. */
  lemma DeletableAdds(c: Cache, slot: Slot, source: Hash, pending: Pending, env: AddEnv, download: bool,
                      workdir: Workdir)
    requires CacheInv(c.disk) && Deletable(c)
    ensures !AddFires(c, slot, source, pending, env, download, workdir)
  {
    AddStreamKeyInv(c, slot, source, pending, env);
    var e := AddStreamKey(c, slot, source, pending, env).cache;
    AddKeepsSlots(c, slot, source, pending, env);
    if CurrentLink(e.disk, slot).Some? {
      LinkedSourceExists(e.disk, slot, CurrentLink(e.disk, slot).value);
      AddedSources(c, slot, source, pending, env, CurrentLink(e.disk, slot).value);
    }
  }

  lemma AddedPool(c: Cache, slot: Slot, source: Hash, pending: Pending, env: AddEnv)
    requires CacheInv(c.disk) && ValidPool(c.disk)
    ensures ValidPool(AddStreamKey(c, slot, source, pending, env).cache.disk)
  {
    AddStreamKeyPool(c, slot, source, pending, env);
    var e := AddStreamKey(c, slot, source, pending, env).cache;
    assert forall h :: SameFile(c.disk, e.disk, ObjFile(h));
  }

  lemma NotifiedPool(c: Cache, slot: Slot, r: AddKeyResult)
    requires CacheInv(c.disk) && ValidPool(c.disk)
    ensures ValidPool(Notify(c, slot, r).disk)
  {
  }

  lemma AddedSources(c: Cache, slot: Slot, source: Hash, pending: Pending, env: AddEnv, linked: Hash)
    requires CacheInv(c.disk) && c.counts.sources >= |c.disk.srcDirs|
    requires SrcFile(linked, Ref) in AddStreamKey(c, slot, source, pending, env).cache.disk.files
    ensures AddStreamKey(c, slot, source, pending, env).cache.counts.sources > 0
  {
  }

  class Converter {
    const manager: Manager
    const queue: JobQueue

    var phase: Phase
    var nextId: nat
    ghost var log: Log

    ghost predicate Valid()
      reads this, manager, manager.stats, queue, queue.Members()
    {
      queue.Valid() && SysInv(View())
    }

    ghost function View(): System
      reads this, manager, manager.stats, queue, queue.Members()
    {
      System(manager.View(), queue.View(), phase, log, nextId)
    }

    constructor (manager: Manager)
      requires manager.View() == EMPTY_CACHE
      ensures this.manager == manager && fresh(queue) && queue.Valid()
      ensures View() == INITIAL_SYSTEM
    {
      this.manager := manager;
      queue := new JobQueue();
      phase, nextId := Waiting, 0;
      log := Log(multiset{}, multiset{}, [], []);
    }

    /** Reports what became of a key; one that failed is deleted. */
    method NotifyProcessed(slot: Slot, r: AddKeyResult)
      requires CacheInv(manager.disk) && ValidPool(manager.disk) && !NotifyFires(manager.View(), slot, r)
      modifies manager`disk, manager.stats
      ensures CacheInv(manager.disk) && manager.View() == Notify(old(manager.View()), slot, r)
    {
      match r
      case NotChanged | Inserted | Replaced | SourcePending =>
      case SourceUnknown | IoError | DiskFull | InternalError =>
        manager.DeleteKey(slot);
    }

    /** Moves the first job to the worker. */
    method TakeJob()
      requires Valid() && Enabled(View(), Command.TakeJob)
      modifies this, queue
      ensures queue.Valid() && View() == Next(manager.md5, old(View()), Command.TakeJob)
    {
      queue.Take();
      phase := Taken;
    }

    /** The part of the job before its script, under the job's lock. */
    method Prepare(workdirReady: bool)
      requires Valid() && Enabled(View(), Command.Prepare(workdirReady))
      modifies this, queue.running
      ensures queue.Valid() && View() == Next(manager.md5, old(View()), Command.Prepare(workdirReady))
    {
      var job := queue.running;
      if !workdirReady {
        job.state := DoneError;
        phase := Executed;
        return;
      }
      job.state := if job.state.DownloadIdle? then DownloadingAndConverting else Converting;
      phase := InScript;
    }

    /** The part of the job after its script, under the job's lock. */
    method Complete(exitCode: int, fill: UpdateEnv)
      requires Valid() && Enabled(View(), Command.Complete(exitCode, fill))
      modifies this, manager`disk, manager.stats, queue.running
      ensures queue.Valid() && View() == Next(manager.md5, old(View()), Command.Complete(exitCode, fill))
    {
      var job := queue.running;
      phase := Executed;
      if ResultOfExitCode(exitCode) != JobOk {
        job.state := DoneError;
        return;
      }
      var keys, result := manager.UpdateSource(job.source, job.keys, fill);
      job.keys := keys;
      job.state := if result.Succeeded() then DoneOk else DoneError;
    }

    // ---------- adding a key ----------

    /** Adds a key to the cache, with a job if its source has to be filled. */
    method AddToCache(slot: Slot, source: Hash, download: bool, env: AddEnv, workdir: Workdir)
      requires queue.Valid() && CacheInv(manager.disk) && ValidPool(manager.disk) && !phase.Finalizing?
      requires !AddFires(manager.View(), slot, source, queue.View().Pending(), env, download, workdir)
      modifies this, queue, queue.Members(), manager`disk, manager.stats, manager.background
      ensures queue.Valid() && queue.adding == None
      ensures View() == Next(manager.md5, old(View()), Add(slot, source, download, env, workdir))
    {
      Earmark(Some(source));
      AddAndQueue(slot, source, download, env, workdir);
      Earmark(None);
    }

    /** Notes the source that is being added. */
    method Earmark(source: Option<Hash>)
      requires queue.Valid()
      modifies queue`adding
      ensures queue.Valid() && queue.adding == source && View() == old(View())
    {
      queue.adding := source;
    }

    method AddAndQueue(slot: Slot, source: Hash, download: bool, env: AddEnv, workdir: Workdir)
      requires queue.Valid() && CacheInv(manager.disk) && ValidPool(manager.disk) && !phase.Finalizing?
      requires !AddFires(manager.View(), slot, source, queue.View().Pending(), env, download, workdir)
      modifies this, queue, queue.Members(), manager`disk, manager.stats, manager.background
      ensures queue.Valid()
      ensures View() == Next(manager.md5, old(View()), Add(slot, source, download, env, workdir))
    {
      NextAdd(manager.md5, View(), Add(slot, source, download, env, workdir));
      var result := TryAdd(slot, source, env);
      if result != SourceUnknown {
        NotifyProcessed(slot, result);
      } else {
        QueueOrReject(slot, source, download, workdir);
      }
    }

    method TryAdd(slot: Slot, source: Hash, env: AddEnv) returns (result: AddKeyResult)
      requires queue.Valid() && CacheInv(manager.disk) && ValidPool(manager.disk)
      modifies this`log, queue.Members(), manager`disk, manager.stats, manager.background
      ensures queue.Valid() && CacheInv(manager.disk) && ValidPool(manager.disk)
      ensures (View(), result) == Tried(old(View()), slot, source, env)
    {
      ghost var s := View();
      AddStreamKeyInv(s.cache, slot, source, s.queue.Pending(), env);
      AddedPool(s.cache, slot, source, s.queue.Pending(), env);
      result := manager.AddStreamKeyForSource(slot, source, queue, env);
      log := LogAfter(s, AddStreamKey(s.cache, slot, source, s.queue.Pending(), env).joined, slot);
    }

    /** Queues a job for a source that is not there yet, unless its data cannot be put aside. */
    method QueueOrReject(slot: Slot, source: Hash, download: bool, workdir: Workdir)
      requires queue.Valid() && CacheInv(manager.disk) && ValidPool(manager.disk)
      requires !NotifyFires(manager.View(), slot, Reported(SourceUnknown, download, workdir))
      modifies this, queue, manager`disk, manager.stats
      ensures queue.Valid()
      ensures View() == Queued(old(View()), slot, source, download, workdir)
    {
      if download || workdir.WorkdirReady? {
        QueueJob(slot, source, download);
      } else {
        NotifyProcessed(slot, if workdir.WorkdirBusy? then SourcePending else IoError);
      }
    }

    method QueueJob(slot: Slot, source: Hash, download: bool)
      requires queue.Valid()
      modifies this, queue
      ensures queue.Valid()
      ensures View() == WithJob(old(View()), slot, source, download)
    {
      var job := new Job(nextId, source, slot, download);
      queue.Enqueue(job);
      log := log.(stored := log.stored + multiset{Ticket(nextId, slot)}, queued := log.queued + [nextId]);
      nextId := nextId + 1;
    }

    // ---------- the end of a job ----------

    /** Reports the results of all keys of the finished job, in order, and drops the job. */
    method Finalize()
      requires Valid() && Enabled(View(), StartFinalize) && ValidPool(manager.disk)
      requires !FinalizeFires(manager.View(), queue.running.keys)
      modifies this, queue, manager`disk, manager.stats
      ensures Valid() && queue.running == null && phase == Waiting && ValidPool(manager.disk)
      ensures View() == Execution(manager.md5, old(View()), FinalizeCommands(|old(queue.running.keys)|))
    {
      ghost var s, md5, n := View(), manager.md5, |queue.running.keys|;
      OneCommand(md5, s, StartFinalize);
      NoNotifications();
      Begin();
      NotifyAll(s);
      OneMoreCommand(md5, s, Notifications(n), EndFinalize);
      ExecutionInv(md5, s, FinalizeCommands(n));
      Drop();
    }

    method Begin()
      requires queue.Valid() && CacheInv(manager.disk) && Enabled(View(), StartFinalize)
      modifies this`phase
      ensures phase == Finalizing(0) && View() == Next(manager.md5, old(View()), StartFinalize)
    {
      phase := Finalizing(0);
    }

    method NotifyAll(ghost s: System)
      requires queue.Valid() && CacheInv(manager.disk) && ValidPool(manager.disk) && SysInv(s)
      requires phase == Finalizing(0) && queue.running != null && View() == Execution(manager.md5, s, Notifications(0))
      requires !FinalizeFires(manager.View(), queue.running.keys)
      modifies this`phase, this`log, manager`disk, manager.stats
      ensures CacheInv(manager.disk) && ValidPool(manager.disk) && phase == Finalizing(|queue.running.keys|)
      ensures View() == Execution(manager.md5, s, Notifications(|queue.running.keys|))
    {
      var i := 0;
      while i < |queue.running.keys|
        invariant i <= |queue.running.keys| && CacheInv(manager.disk) && ValidPool(manager.disk)
        invariant !FinalizeFires(manager.View(), queue.running.keys[i..])
        invariant phase == Finalizing(i) && View() == Execution(manager.md5, s, Notifications(i))
      {
        OneMoreCommand(manager.md5, s, Notifications(i), NotifyNext);
        NotificationsGrow(i);
        NotifyKey(i);
        i := i + 1;
      }
    }

    method Drop()
      requires queue.Valid() && CacheInv(manager.disk) && Enabled(View(), EndFinalize)
      modifies this`phase, this`log, queue
      ensures queue.Valid() && queue.running == null && phase == Waiting
      ensures View() == Next(manager.md5, old(View()), EndFinalize)
    {
      log := log.(finished := log.finished + [queue.running.id]);
      queue.running := null;
      phase := Waiting;
    }

    method NotifyKey(i: nat)
      requires queue.Valid() && CacheInv(manager.disk) && ValidPool(manager.disk)
      requires phase == Finalizing(i) && queue.running != null && i < |queue.running.keys|
      requires !FinalizeFires(manager.View(), queue.running.keys[i..])
      modifies this`phase, this`log, manager`disk, manager.stats
      ensures CacheInv(manager.disk) && ValidPool(manager.disk) && phase == Finalizing(i + 1)
      ensures !FinalizeFires(manager.View(), queue.running.keys[i + 1..])
      ensures View() == Next(manager.md5, old(View()), NotifyNext)
    {
      var key := queue.running.keys[i];
      assert queue.running.keys[i..][0] == key && queue.running.keys[i..][1..] == queue.running.keys[i + 1..];
      NotifiedPool(manager.View(), key.slot, key.result);
      log := log.(notified := log.notified + multiset{Ticket(queue.running.id, key.slot)});
      phase := Finalizing(i + 1);
      NotifyProcessed(key.slot, key.result);
    }
  }

  // ---------- what the methods add up to ----------

  ghost function LogAfter(s: System, joined: Option<Hash>, slot: Slot): Log {
    match joined
    case None => s.log
    case Some(source) => s.log.(stored := s.log.stored + JoinTicket(s.queue, slot, source))
  }

  ghost function Tried(s: System, slot: Slot, source: Hash, env: AddEnv): (System, AddKeyResult)
    requires CacheInv(s.cache.disk)
  {
    var o := AddStreamKey(s.cache, slot, source, s.queue.Pending(), env);
    (s.(cache := o.cache, log := LogAfter(s, o.joined, slot),
        queue := match o.joined { case Some(j) => s.queue.JoinFor(slot, j) case None => s.queue }),
     o.result)
  }

  /** The protocol's command in two parts: the attempt, and what follows from its result. */
  lemma NextAdd(md5: Bytes -> Hash, s: System, c: Command)
    requires CacheInv(s.cache.disk) && c.Add? && Enabled(s, c)
    ensures var (t, result) := Tried(s, c.slot, c.source, c.env);
      && CacheInv(t.cache.disk)
      && Next(md5, s, c) == if result != SourceUnknown then t.(cache := Notify(t.cache, c.slot, result))
                            else Queued(t, c.slot, c.source, c.download, c.workdir)
  {
    AddStreamKeyInv(s.cache, c.slot, c.source, s.queue.Pending(), c.env);
  }

  ghost function WithJob(s: System, slot: Slot, source: Hash, download: bool): System {
    s.(queue := s.queue.(jobs := s.queue.jobs + [NewJob(s.nextId, source, slot, download)]),
       log := s.log.(stored := s.log.stored + multiset{Ticket(s.nextId, slot)}, queued := s.log.queued + [s.nextId]),
       nextId := s.nextId + 1)
  }

  ghost function Queued(s: System, slot: Slot, source: Hash, download: bool, workdir: Workdir): System
    requires CacheInv(s.cache.disk)
  {
    if download || workdir.WorkdirReady? then
      WithJob(s, slot, source, download)
    else
      s.(cache := Notify(s.cache, slot, if workdir.WorkdirBusy? then SourcePending else IoError))
  }
}
