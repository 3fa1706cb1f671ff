/**
 * The D-Bus thread, the converter's worker and the garbage collector as one
 * transition system.  Each command is one critical section; while a script
 * runs no lock is held and any other command may come in between.
 */
module Protocol {
  import opened CacheTypes
  import opened FileSystem
  import opened CacheInvariant
  import opened Operations
  import opened Filling
  import opened Runs
  import opened Jobs

  /** Where the worker thread is. */
  datatype Phase = Waiting | Taken | InScript | Executed | Finalizing(next: nat)

  /** One key stored in one job's list. */
  datatype Ticket = Ticket(job: nat, slot: Slot)

  /** What happened so far. */
  datatype Log = Log(stored: multiset<Ticket>, notified: multiset<Ticket>, queued: seq<nat>, finished: seq<nat>)

  datatype System = System(cache: Cache, queue: QueueVal, phase: Phase, log: Log, nextId: nat)

  datatype Workdir = WorkdirReady | WorkdirBusy | WorkdirFailed

  datatype Command =
    | Add(slot: Slot, source: Hash, download: bool, env: AddEnv, workdir: Workdir)
    | TakeJob
    | Prepare(ok: bool)
    | Complete(exitCode: int, fill: UpdateEnv)
    | StartFinalize
    | NotifyNext
    | EndFinalize
    | Background(step: Step)

  // ---------- the commands ----------

  predicate IsError(r: AddKeyResult) {
    r.SourceUnknown? || r.IoError? || r.DiskFull? || r.InternalError?
  }

  /** Reporting a result; a key that failed is deleted. */
  ghost function Notify(c: Cache, slot: Slot, r: AddKeyResult): Cache
    requires FsInv(c.disk)
  {
    if IsError(r) then DeleteKey(c, slot) else c
  }

  /** What the client is told about a key that is not queued; one that is queued has no result yet. */
  function Reported(result: AddKeyResult, download: bool, workdir: Workdir): AddKeyResult {
    if result != SourceUnknown then result
    else if download || !workdir.WorkdirFailed? then SourcePending
    else IoError
  }

  /** The ticket made out when a key is handed to the job for `source`, if that job still takes keys. */
  function JoinTicket(q: QueueVal, slot: Slot, source: Hash): multiset<Ticket> {
    if q.running.Some? && q.running.value.source == source then
      if q.running.value.state.Done() then multiset{} else multiset{Ticket(q.running.value.id, slot)}
    else if q.FirstFor(source) < |q.jobs| then
      var j := q.jobs[q.FirstFor(source)];
      if j.state.Done() then multiset{} else multiset{Ticket(j.id, slot)}
    else
      multiset{}
  }

  ghost function DoAdd(s: System, c: Command): System
    requires CacheInv(s.cache.disk) && c.Add?
  {
    var o := AddStreamKey(s.cache, c.slot, c.source, s.queue.Pending(), c.env);
    AddStreamKeyInv(s.cache, c.slot, c.source, s.queue.Pending(), c.env);
    if o.joined.Some? then
      s.(cache := Notify(o.cache, c.slot, o.result),
         queue := s.queue.JoinFor(c.slot, o.joined.value),
         log := s.log.(stored := s.log.stored + JoinTicket(s.queue, c.slot, o.joined.value)))
    else if o.result != SourceUnknown then
      s.(cache := Notify(o.cache, c.slot, o.result))
    else if c.download || c.workdir.WorkdirReady? then
      s.(cache := o.cache,
         queue := s.queue.(jobs := s.queue.jobs + [NewJob(s.nextId, c.source, c.slot, c.download)]),
         log := s.log.(stored := s.log.stored + multiset{Ticket(s.nextId, c.slot)},
                       queued := s.log.queued + [s.nextId]),
         nextId := s.nextId + 1)
    else
      s.(cache := Notify(o.cache, c.slot, if c.workdir.WorkdirBusy? then SourcePending else IoError))
  }

  /** The part of the job after the script, under the job's lock. */
  ghost function DoComplete(md5: Bytes -> Hash, s: System, c: Command): System
    requires CacheInv(s.cache.disk) && c.Complete? && s.queue.running.Some?
  {
    var j := s.queue.running.value;
    if ResultOfExitCode(c.exitCode) != JobOk then
      s.(queue := s.queue.(running := Some(j.(state := DoneError))), phase := Executed)
    else
      var u := UpdateSource(md5, s.cache, j.source, j.keys, c.fill);
      s.(cache := u.cache,
         queue := s.queue.(running :=
           Some(j.(keys := u.keys, state := if u.result.Succeeded() then DoneOk else DoneError))),
         phase := Executed)
  }

  /** A command that is not enabled does nothing. */
  ghost predicate Enabled(s: System, c: Command) {
    match c
    case Add(_, _, _, _, _) => !s.phase.Finalizing?
    case TakeJob => s.phase.Waiting? && s.queue.jobs != []
    case Prepare(_) => s.phase.Taken? && s.queue.running.Some?
    case Complete(_, _) => s.phase.InScript? && s.queue.running.Some?
    case StartFinalize => s.phase.Executed? && s.queue.running.Some?
    case NotifyNext => s.phase.Finalizing? && s.queue.running.Some? && s.phase.next < |s.queue.running.value.keys|
    case EndFinalize => s.phase.Finalizing? && s.queue.running.Some? && s.phase.next == |s.queue.running.value.keys|
    case Background(step) => step.CollectKey? || step.CollectSource? || step.CollectObject? || step.Stamp?
  }

  ghost function Next(md5: Bytes -> Hash, s: System, c: Command): System
    requires CacheInv(s.cache.disk)
  {
    if !Enabled(s, c) then
      s
    else
      match c
      case Add(_, _, _, _, _) => DoAdd(s, c)
      case TakeJob =>
        s.(queue := QueueVal(s.queue.jobs[1..], Some(s.queue.jobs[0])), phase := Taken)
      case Prepare(ok) =>
        s.(queue := s.queue.(running := Some(s.queue.running.value.Prepared(ok))),
           phase := if ok then InScript else Executed)
      case Complete(_, _) => DoComplete(md5, s, c)
      case StartFinalize => s.(phase := Finalizing(0))
      case NotifyNext =>
        var j, n := s.queue.running.value, s.phase.next;
        s.(cache := Notify(s.cache, j.keys[n].slot, j.keys[n].result),
           phase := Finalizing(n + 1),
           log := s.log.(notified := s.log.notified + multiset{Ticket(j.id, j.keys[n].slot)}))
      case EndFinalize =>
        s.(queue := s.queue.(running := None), phase := Waiting,
           log := s.log.(finished := s.log.finished + [s.queue.running.value.id]))
      case Background(step) => s.(cache := Apply(md5, s.cache, step))
  }

  // ---------- keys held by jobs ----------

  /** Tickets of a job's keys from position `n` on. */
  function TicketsFrom(j: JobVal, n: nat): multiset<Ticket>
    decreases |j.keys| - n
  {
    if n >= |j.keys| then multiset{} else multiset{Ticket(j.id, j.keys[n].slot)} + TicketsFrom(j, n + 1)
  }

  function AllTickets(jobs: seq<JobVal>): multiset<Ticket> {
    if jobs == [] then multiset{} else TicketsFrom(jobs[0], 0) + AllTickets(jobs[1..])
  }

  function RunningTickets(s: System): multiset<Ticket> {
    match s.queue.running
    case None => multiset{}
    case Some(j) => TicketsFrom(j, if s.phase.Finalizing? then s.phase.next else 0)
  }

  function Held(s: System): multiset<Ticket> {
    RunningTickets(s) + AllTickets(s.queue.jobs)
  }

  lemma {:induction false} TicketsAppend(j: JobVal, n: nat, key: PendingKey)
    requires n <= |j.keys|
    ensures TicketsFrom(j.(keys := j.keys + [key]), n) == TicketsFrom(j, n) + multiset{Ticket(j.id, key.slot)}
    decreases |j.keys| - n
  {
    var e := j.(keys := j.keys + [key]);
    if n == |j.keys| {
      assert TicketsFrom(e, n + 1) == multiset{};
    } else {
      TicketsAppend(j, n + 1, key);
    }
  }

  lemma {:induction false} TicketsOfSlots(j: JobVal, e: JobVal, n: nat)
    requires j.id == e.id && SameSlots(j.keys, e.keys)
    ensures TicketsFrom(j, n) == TicketsFrom(e, n)
    decreases |j.keys| - n
  {
    if n < |j.keys| {
      TicketsOfSlots(j, e, n + 1);
    }
  }

  lemma {:induction false} AllTicketsAppend(jobs: seq<JobVal>, j: JobVal)
    ensures AllTickets(jobs + [j]) == AllTickets(jobs) + TicketsFrom(j, 0)
  {
    if jobs == [] {
      assert [j][1..] == [];
    } else {
      assert (jobs + [j])[1..] == jobs[1..] + [j];
      AllTicketsAppend(jobs[1..], j);
    }
  }

  lemma {:induction false} AllTicketsUpdate(jobs: seq<JobVal>, i: nat, j: JobVal, more: multiset<Ticket>)
    requires i < |jobs| && TicketsFrom(j, 0) == TicketsFrom(jobs[i], 0) + more
    ensures AllTickets(jobs[i := j]) == AllTickets(jobs) + more
  {
    if i == 0 {
      assert jobs[i := j][1..] == jobs[1..];
    } else {
      assert jobs[i := j][1..] == jobs[1..][i - 1 := j];
      AllTicketsUpdate(jobs[1..], i - 1, j, more);
    }
  }

  // ---------- the invariant ----------

  ghost predicate Fresh(keys: seq<PendingKey>) {
    forall i :: 0 <= i < |keys| ==> keys[i].result == SourceUnknown
  }

  ghost predicate QueuedJobs(jobs: seq<JobVal>) {
    forall i :: 0 <= i < |jobs| ==> jobs[i].state.Idle() && Fresh(jobs[i].keys)
  }

  /** The worker's position fits the state of the job it runs. */
  ghost predicate WorkerInv(s: System) {
    match s.phase
    case Waiting => s.queue.running == None
    case Taken => s.queue.running.Some? && s.queue.running.value.state.Idle() && Fresh(s.queue.running.value.keys)
    case InScript => s.queue.running.Some? && s.queue.running.value.state.Active() && Fresh(s.queue.running.value.keys)
    case Executed => s.queue.running.Some? && s.queue.running.value.state.Done()
    case Finalizing(n) =>
      s.queue.running.Some? && s.queue.running.value.state.Done() && n <= |s.queue.running.value.keys|
  }

  /** Every key ever stored has been notified or is still held, each exactly once. */
  ghost predicate Conserved(s: System) {
    s.log.stored == s.log.notified + Held(s)
  }

  function Ids(jobs: seq<JobVal>): seq<nat> {
    seq(|jobs|, i requires 0 <= i < |jobs| => jobs[i].id)
  }

  function RunningId(q: QueueVal): seq<nat> {
    match q.running
    case None => []
    case Some(j) => [j.id]
  }

  /** Jobs finish in the order in which they were queued. */
  ghost predicate InOrder(s: System) {
    s.log.queued == s.log.finished + RunningId(s.queue) + Ids(s.queue.jobs)
  }

  ghost predicate QueueInv(s: System) {
    QueuedJobs(s.queue.jobs) && WorkerInv(s) && Conserved(s) && InOrder(s)
  }

  ghost predicate SysInv(s: System) {
    CacheInv(s.cache.disk) && QueueInv(s)
  }

  const INITIAL_SYSTEM :=
    System(EMPTY_CACHE, QueueVal([], None), Waiting, Log(multiset{}, multiset{}, [], []), 0)

  // ---------- every command keeps it ----------

  lemma NotifyInv(c: Cache, slot: Slot, r: AddKeyResult)
    requires CacheInv(c.disk)
    ensures CacheInv(Notify(c, slot, r).disk)
  {
    DeleteKeyInv(c, slot);
  }

  lemma NextCacheInv(md5: Bytes -> Hash, s: System, c: Command)
    requires CacheInv(s.cache.disk)
    ensures CacheInv(Next(md5, s, c).cache.disk)
  {
    if Enabled(s, c) {
      match c
      case Add(slot, source, _, env, workdir) =>
        AddStreamKeyInv(s.cache, slot, source, s.queue.Pending(), env);
        var o := AddStreamKey(s.cache, slot, source, s.queue.Pending(), env);
        NotifyInv(o.cache, slot, o.result);
        NotifyInv(o.cache, slot, IoError);
      case Complete(_, fill) =>
        UpdateSourceInv(md5, s.cache, s.queue.running.value.source, s.queue.running.value.keys, fill);
      case NotifyNext =>
        NotifyInv(s.cache, s.queue.running.value.keys[s.phase.next].slot,
                  s.queue.running.value.keys[s.phase.next].result);
      case Background(step) => ApplyInv(md5, s.cache, step);
      case _ =>
    }
  }

  /** Joining a job stores exactly the ticket that is logged. */
  lemma JoinHeld(s: System, slot: Slot, source: Hash)
    requires !s.phase.Finalizing?
    ensures var t := s.(queue := s.queue.JoinFor(slot, source));
      Held(t) == Held(s) + JoinTicket(s.queue, slot, source)
  {
    var q := s.queue;
    if q.running.Some? && q.running.value.source == source {
      TicketsAppend(q.running.value, 0, PendingKey(slot, SourceUnknown));
    } else if q.FirstFor(source) < |q.jobs| {
      JoinWaiting(q.jobs, q.FirstFor(source), slot);
    }
  }

  lemma JoinWaiting(jobs: seq<JobVal>, i: nat, slot: Slot)
    requires i < |jobs|
    ensures AllTickets(jobs[i := jobs[i].Join(slot)]) ==
      AllTickets(jobs) + if jobs[i].state.Done() then multiset{} else multiset{Ticket(jobs[i].id, slot)}
  {
    TicketsAppend(jobs[i], 0, PendingKey(slot, SourceUnknown));
    AllTicketsUpdate(jobs, i, jobs[i].Join(slot),
      if jobs[i].state.Done() then multiset{} else multiset{Ticket(jobs[i].id, slot)});
  }

  /** Joining a job changes neither its identity nor its state, and only adds unprocessed keys. */
  lemma JoinShape(q: QueueVal, slot: Slot, source: Hash)
    requires QueuedJobs(q.jobs)
    ensures var r := q.JoinFor(slot, source);
      && Ids(r.jobs) == Ids(q.jobs)
      && RunningId(r) == RunningId(q)
      && QueuedJobs(r.jobs)
  {
  }

  /** So does it for the running job. */
  lemma JoinRunning(q: QueueVal, slot: Slot, source: Hash)
    requires q.running.Some?
    ensures var r := q.JoinFor(slot, source);
      && r.running.Some?
      && r.running.value.state == q.running.value.state
      && (Fresh(q.running.value.keys) ==> Fresh(r.running.value.keys))
  {
  }

  lemma JoinInv(s: System, t: System, slot: Slot, source: Hash)
    requires QueueInv(s) && !s.phase.Finalizing?
    requires t.queue == s.queue.JoinFor(slot, source) && t.phase == s.phase
    requires t.log == s.log.(stored := s.log.stored + JoinTicket(s.queue, slot, source))
    ensures QueueInv(t)
  {
    JoinHeld(s, slot, source);
    JoinShape(s.queue, slot, source);
    if s.queue.running.Some? {
      JoinRunning(s.queue, slot, source);
    }
    assert Held(t) == Held(s.(queue := s.queue.JoinFor(slot, source)));
  }

  lemma EnqueueInv(s: System, t: System, j: JobVal)
    requires QueueInv(s) && j.state.Idle() && Fresh(j.keys)
    requires t.queue == s.queue.(jobs := s.queue.jobs + [j]) && t.phase == s.phase
    requires t.log == s.log.(stored := s.log.stored + TicketsFrom(j, 0), queued := s.log.queued + [j.id])
    ensures QueueInv(t)
  {
    EnqueueHeld(s, t, j);
    EnqueueOrder(s, t, j);
    EnqueueFresh(s.queue.jobs, j);
  }

  lemma EnqueueFresh(jobs: seq<JobVal>, j: JobVal)
    requires QueuedJobs(jobs) && j.state.Idle() && Fresh(j.keys)
    ensures QueuedJobs(jobs + [j])
  {
  }

  lemma EnqueueHeld(s: System, t: System, j: JobVal)
    requires t.queue == s.queue.(jobs := s.queue.jobs + [j]) && t.phase == s.phase
    ensures Held(t) == Held(s) + TicketsFrom(j, 0)
  {
    AllTicketsAppend(s.queue.jobs, j);
    assert RunningTickets(t) == RunningTickets(s);
  }

  lemma EnqueueOrder(s: System, t: System, j: JobVal)
    requires InOrder(s) && t.queue == s.queue.(jobs := s.queue.jobs + [j])
    requires t.log.queued == s.log.queued + [j.id] && t.log.finished == s.log.finished
    ensures InOrder(t)
  {
  }

  lemma IdleInv(s: System, t: System)
    requires QueueInv(s) && t.queue == s.queue && t.phase == s.phase && t.log == s.log
    ensures QueueInv(t)
  {
  }

  lemma AddInv(md5: Bytes -> Hash, s: System, c: Command)
    requires SysInv(s) && c.Add? && Enabled(s, c)
    ensures QueueInv(Next(md5, s, c))
  {
    var o := AddStreamKey(s.cache, c.slot, c.source, s.queue.Pending(), c.env);
    AddStreamKeyInv(s.cache, c.slot, c.source, s.queue.Pending(), c.env);
    if o.joined.Some? {
      JoinInv(s, DoAdd(s, c), c.slot, o.joined.value);
    } else if o.result == SourceUnknown && (c.download || c.workdir.WorkdirReady?) {
      var j := NewJob(s.nextId, c.source, c.slot, c.download);
      assert TicketsFrom(j, 1) == multiset{};
      EnqueueInv(s, DoAdd(s, c), j);
    } else {
      IdleInv(s, DoAdd(s, c));
    }
  }

  lemma TakeJobInv(md5: Bytes -> Hash, s: System)
    requires SysInv(s) && Enabled(s, TakeJob)
    ensures QueueInv(Next(md5, s, TakeJob))
  {
    var t := Next(md5, s, TakeJob);
    assert Ids(s.queue.jobs) == [s.queue.jobs[0].id] + Ids(t.queue.jobs);
  }

  lemma PrepareInv(md5: Bytes -> Hash, s: System, ok: bool)
    requires SysInv(s) && Enabled(s, Prepare(ok))
    ensures QueueInv(Next(md5, s, Prepare(ok)))
  {
    var j := s.queue.running.value;
    TicketsOfSlots(j, j.Prepared(ok), 0);
  }

  /** Completing a job decides its results, not which keys it holds. */
  lemma CompleteShape(md5: Bytes -> Hash, s: System, exitCode: int, fill: UpdateEnv)
    requires CacheInv(s.cache.disk) && Enabled(s, Complete(exitCode, fill))
    ensures var t := Next(md5, s, Complete(exitCode, fill));
      && t.phase == Executed && t.log == s.log && t.queue.jobs == s.queue.jobs && t.queue.running.Some?
      && t.queue.running.value.state.Done() && t.queue.running.value.id == s.queue.running.value.id
      && SameSlots(s.queue.running.value.keys, t.queue.running.value.keys)
  {
    var j := s.queue.running.value;
    UpdateSettles(md5, s.cache, j.source, j.keys, fill);
  }

  lemma CompleteInv(md5: Bytes -> Hash, s: System, exitCode: int, fill: UpdateEnv)
    requires SysInv(s) && Enabled(s, Complete(exitCode, fill))
    ensures QueueInv(Next(md5, s, Complete(exitCode, fill)))
  {
    CompleteShape(md5, s, exitCode, fill);
    var t := Next(md5, s, Complete(exitCode, fill));
    TicketsOfSlots(s.queue.running.value, t.queue.running.value, 0);
    assert Held(t) == Held(s);
  }

  lemma NotifyNextInv(md5: Bytes -> Hash, s: System)
    requires SysInv(s) && Enabled(s, NotifyNext)
    ensures QueueInv(Next(md5, s, NotifyNext))
  {
  }

  lemma EndFinalizeInv(md5: Bytes -> Hash, s: System)
    requires SysInv(s) && Enabled(s, EndFinalize)
    ensures QueueInv(Next(md5, s, EndFinalize))
  {
  }

  lemma NextInv(md5: Bytes -> Hash, s: System, c: Command)
    requires SysInv(s)
    ensures SysInv(Next(md5, s, c))
  {
    NextCacheInv(md5, s, c);
    if Enabled(s, c) {
      match c
      case Add(_, _, _, _, _) => AddInv(md5, s, c);
      case TakeJob => TakeJobInv(md5, s);
      case Prepare(ok) => PrepareInv(md5, s, ok);
      case Complete(exitCode, fill) => CompleteInv(md5, s, exitCode, fill);
      case StartFinalize => assert Held(Next(md5, s, c)) == Held(s);
      case NotifyNext => NotifyNextInv(md5, s);
      case EndFinalize => EndFinalizeInv(md5, s);
      case Background(step) => IdleInv(s, Next(md5, s, c));
    }
  }

  ghost function Execution(md5: Bytes -> Hash, s: System, commands: seq<Command>): System
    requires SysInv(s)
    decreases |commands|
  {
    if commands == [] then
      s
    else
      NextInv(md5, s, commands[0]);
      Execution(md5, Next(md5, s, commands[0]), commands[1..])
  }

  lemma {:induction false} ExecutionInv(md5: Bytes -> Hash, s: System, commands: seq<Command>)
    requires SysInv(s)
    ensures SysInv(Execution(md5, s, commands))
    decreases |commands|
  {
    if commands != [] {
      NextInv(md5, s, commands[0]);
      ExecutionInv(md5, Next(md5, s, commands[0]), commands[1..]);
    }
  }

  /** The first command of a sequence, and the rest. */
  lemma FirstCommand(md5: Bytes -> Hash, s: System, c: Command, rest: seq<Command>)
    requires SysInv(s)
    ensures SysInv(Next(md5, s, c))
    ensures Execution(md5, s, [c] + rest) == Execution(md5, Next(md5, s, c), rest)
  {
    NextInv(md5, s, c);
    assert ([c] + rest)[0] == c && ([c] + rest)[1..] == rest;
  }

  lemma OneCommand(md5: Bytes -> Hash, s: System, c: Command)
    requires SysInv(s)
    ensures SysInv(Next(md5, s, c))
    ensures Execution(md5, s, [c]) == Next(md5, s, c)
  {
    FirstCommand(md5, s, c, []);
    assert [c] + [] == [c];
  }

  lemma {:induction false} OneMoreCommand(md5: Bytes -> Hash, s: System, commands: seq<Command>, c: Command)
    requires SysInv(s)
    ensures SysInv(Execution(md5, s, commands))
    ensures Execution(md5, s, commands + [c]) == Next(md5, Execution(md5, s, commands), c)
    decreases |commands|
  {
    ExecutionInv(md5, s, commands);
    if commands == [] {
      OneCommand(md5, s, c);
      assert [] + [c] == [c];
    } else {
      var first, rest := commands[0], commands[1..];
      assert commands == [first] + rest && commands + [c] == [first] + (rest + [c]);
      FirstCommand(md5, s, first, rest);
      FirstCommand(md5, s, first, rest + [c]);
      OneMoreCommand(md5, Next(md5, s, first), rest, c);
    }
  }

  // ---------- finalizing a job ----------

  function Notifications(n: nat): seq<Command> {
    [StartFinalize] + seq(n, i => NotifyNext)
  }

  function FinalizeCommands(n: nat): seq<Command> {
    Notifications(n) + [EndFinalize]
  }

  lemma NoNotifications()
    ensures Notifications(0) == [StartFinalize]
  {
  }

  lemma NotificationsGrow(n: nat)
    ensures Notifications(n) + [NotifyNext] == Notifications(n + 1)
  {
  }

  // ---------- results over whole executions ----------

  /**
   * For every interleaving: each key stored in a job's list is notified or
   * still held by a waiting or running job, with the same multiplicity, and
   * jobs finish in the order in which they were queued.
   */
  lemma PendingKeysConserved(md5: Bytes -> Hash, commands: seq<Command>)
    ensures SysInv(INITIAL_SYSTEM)
    ensures var s := Execution(md5, INITIAL_SYSTEM, commands);
      && s.log.stored == s.log.notified + Held(s)
      && s.log.finished <= s.log.queued
      && (s.queue.jobs == [] && s.queue.running == None ==>
            s.log.stored == s.log.notified && s.log.finished == s.log.queued)
  {
    ExecutionInv(md5, INITIAL_SYSTEM, commands);
  }

  /**
   * When a job becomes DONE_OK, every key in its list whose directory exists
   * is linked to the job's source and has a result, whether it was there from
   * the start or joined while the script ran.
   */
  lemma NoKeySlipsPast(md5: Bytes -> Hash, s: System, exitCode: int, fill: UpdateEnv)
    requires SysInv(s) && Enabled(s, Complete(exitCode, fill))
    ensures var t := Next(md5, s, Complete(exitCode, fill));
      && t.queue.running.Some?
      && SameSlots(t.queue.running.value.keys, s.queue.running.value.keys)
      && (t.queue.running.value.state.DoneOk? ==>
            SettledBelow(t.cache.disk, t.queue.running.value.keys, t.queue.running.value.source,
                         |t.queue.running.value.keys|))
  {
    var j := s.queue.running.value;
    UpdateSettles(md5, s.cache, j.source, j.keys, fill);
  }

  /** From then on the list does not change until the job is gone. */
  lemma {:induction false} DoneJobIsFrozen(md5: Bytes -> Hash, s: System, commands: seq<Command>)
    requires SysInv(s) && s.queue.running.Some? && s.queue.running.value.state.Done()
    ensures var t := Execution(md5, s, commands);
      t.queue.running == s.queue.running || |t.log.finished| > |s.log.finished|
    decreases |commands|
  {
    if commands != [] {
      NextInv(md5, s, commands[0]);
      var n := Next(md5, s, commands[0]);
      DoneStep(md5, s, commands[0]);
      NothingUnfinished(md5, s, commands[0]);
      if n.queue.running == s.queue.running {
        DoneJobIsFrozen(md5, n, commands[1..]);
      } else {
        FinishedGrows(md5, n, commands[1..]);
      }
    }
  }

  lemma DoneStep(md5: Bytes -> Hash, s: System, c: Command)
    requires SysInv(s) && s.queue.running.Some? && s.queue.running.value.state.Done()
    ensures var n := Next(md5, s, c);
      n.queue.running == s.queue.running || |n.log.finished| > |s.log.finished|
  {
    if c.Add? {
      assert DoAdd(s, c).queue.running == s.queue.running;
    }
  }

  lemma NothingUnfinished(md5: Bytes -> Hash, s: System, c: Command)
    requires SysInv(s)
    ensures |Next(md5, s, c).log.finished| >= |s.log.finished|
  {
  }

  lemma {:induction false} FinishedGrows(md5: Bytes -> Hash, s: System, commands: seq<Command>)
    requires SysInv(s)
    ensures |Execution(md5, s, commands).log.finished| >= |s.log.finished|
    decreases |commands|
  {
    if commands != [] {
      NextInv(md5, s, commands[0]);
      NothingUnfinished(md5, s, commands[0]);
      FinishedGrows(md5, Next(md5, s, commands[0]), commands[1..]);
    }
  }

  // ---------- the worker left alone ----------

  /** How a script and its import turn out. */
  datatype Outcome = Outcome(workdirReady: bool, exitCode: int, fill: UpdateEnv)

  predicate Idle(s: System) {
    s.queue.jobs == [] && s.queue.running == None
  }

  function WorkerCommand(s: System, o: Outcome): Command {
    match s.phase
    case Waiting => TakeJob
    case Taken => Prepare(o.workdirReady)
    case InScript => Complete(o.exitCode, o.fill)
    case Executed => StartFinalize
    case Finalizing(n) =>
      if s.queue.running.Some? && n < |s.queue.running.value.keys| then NotifyNext else EndFinalize
  }

  function PhasesLeft(p: Phase): nat {
    match p
    case Taken => 4
    case InScript => 3
    case Executed => 2
    case Finalizing(_) => 1
    case Waiting => 0
  }

  function KeysLeft(s: System): nat {
    if s.phase.Finalizing? && s.queue.running.Some? && s.phase.next <= |s.queue.running.value.keys|
    then |s.queue.running.value.keys| - s.phase.next else 0
  }

  /** Fewer jobs wait, or as many and the present one is nearer to its end. */
  predicate Closer(t: System, s: System) {
    || |t.queue.jobs| < |s.queue.jobs|
    || (t.queue.jobs == s.queue.jobs &&
          (PhasesLeft(t.phase) < PhasesLeft(s.phase) ||
           (PhasesLeft(t.phase) == PhasesLeft(s.phase) && KeysLeft(t) < KeysLeft(s))))
  }

  /** Whatever the outcome, the worker has a next command until the queue is empty, and each brings it closer. */
  lemma WorkerProceeds(md5: Bytes -> Hash, s: System, o: Outcome)
    requires CacheInv(s.cache.disk) && WorkerInv(s) && !Idle(s)
    ensures var c := WorkerCommand(s, o);
      var t := Next(md5, s, c);
      && Enabled(s, c)
      && t.log.stored == s.log.stored && t.log.queued == s.log.queued
      && Closer(t, s)
  {
    if s.phase.InScript? {
      CompleteShape(md5, s, o.exitCode, o.fill);
    }
  }

  /** The commands the worker still executes if nobody else does anything. */
  ghost function Drain(md5: Bytes -> Hash, s: System, outcome: System -> Outcome): seq<Command>
    requires SysInv(s)
    decreases |s.queue.jobs|, PhasesLeft(s.phase), KeysLeft(s)
  {
    if Idle(s) then
      []
    else
      var c := WorkerCommand(s, outcome(s));
      NextInv(md5, s, c);
      WorkerProceeds(md5, s, outcome(s));
      [c] + Drain(md5, Next(md5, s, c), outcome)
  }

  /**
   * However scripts and imports turn out, the worker left alone empties the
   * queue, and then every key ever stored has been notified exactly once.
   */
  lemma {:induction false} WorkerDrains(md5: Bytes -> Hash, s: System, outcome: System -> Outcome)
    requires SysInv(s)
    ensures var t := Execution(md5, s, Drain(md5, s, outcome));
      && SysInv(t) && Idle(t)
      && t.log.stored == s.log.stored && t.log.queued == s.log.queued
      && t.log.notified == t.log.stored && t.log.finished == t.log.queued
    decreases |s.queue.jobs|, PhasesLeft(s.phase), KeysLeft(s)
  {
    if !Idle(s) {
      var c := WorkerCommand(s, outcome(s));
      NextInv(md5, s, c);
      WorkerProceeds(md5, s, outcome(s));
      WorkerDrains(md5, Next(md5, s, c), outcome);
      var rest := Drain(md5, Next(md5, s, c), outcome);
      assert ([c] + rest)[0] == c && ([c] + rest)[1..] == rest;
    }
  }
}
