/**
 * Every execution of the threads is, as far as the cache is concerned, a run
 * of the manager's steps, so what holds in all runs holds in all executions.
 */
module Histories {
  import opened CacheTypes
  import opened FileSystem
  import opened CacheInvariant
  import opened Operations
  import opened Runs
  import opened Lookup
  import opened Delivery
  import opened Answers
  import opened Jobs
  import opened Protocol

  function Deletion(slot: Slot, r: AddKeyResult): seq<Step> {
    if IsError(r) then [Delete(slot)] else []
  }

  /** What a command does to the cache, as steps of the manager. */
  ghost function StepsOf(s: System, c: Command): seq<Step>
    requires CacheInv(s.cache.disk)
  {
    if !Enabled(s, c) then
      []
    else
      match c
      case Add(slot, source, download, env, workdir) =>
        var o := AddStreamKey(s.cache, slot, source, s.queue.Pending(), env);
        [AddKey(slot, source, s.queue.Pending(), env)] + Deletion(slot, Reported(o.result, download, workdir))
      case Complete(exitCode, fill) =>
        var j := s.queue.running.value;
        if ResultOfExitCode(exitCode) == JobOk then [Update(j.source, j.keys, fill)] else []
      case NotifyNext =>
        var key := s.queue.running.value.keys[s.phase.next];
        Deletion(key.slot, key.result)
      case Background(step) => [step]
      case _ => []
  }

  lemma OneStep(md5: Bytes -> Hash, c: Cache, step: Step)
    requires CacheInv(c.disk)
    ensures Run(md5, c, [step]) == Apply(md5, c, step)
  {
  }

  lemma {:induction false} RunAppend(md5: Bytes -> Hash, c: Cache, a: seq<Step>, b: seq<Step>)
    requires CacheInv(c.disk)
    ensures Run(md5, c, a + b) == Run(md5, Run(md5, c, a), b)
    decreases |a|
  {
    if a == [] {
      assert a + b == b;
    } else {
      ApplyInv(md5, c, a[0]);
      assert (a + b)[0] == a[0] && (a + b)[1..] == a[1..] + b;
      RunAppend(md5, Apply(md5, c, a[0]), a[1..], b);
    }
  }

  lemma NotifyIsRun(md5: Bytes -> Hash, c: Cache, slot: Slot, r: AddKeyResult)
    requires CacheInv(c.disk)
    ensures Run(md5, c, Deletion(slot, r)) == Notify(c, slot, r)
  {
  }

  lemma AddIsRun(md5: Bytes -> Hash, s: System, c: Command)
    requires CacheInv(s.cache.disk) && c.Add? && Enabled(s, c)
    ensures Next(md5, s, c).cache == Run(md5, s.cache, StepsOf(s, c))
  {
    var add := AddKey(c.slot, c.source, s.queue.Pending(), c.env);
    var o := AddStreamKey(s.cache, c.slot, c.source, s.queue.Pending(), c.env);
    var r := Reported(o.result, c.download, c.workdir);
    OneStep(md5, s.cache, add);
    RunAppend(md5, s.cache, [add], Deletion(c.slot, r));
    NotifyIsRun(md5, o.cache, c.slot, r);
  }

  /** Each command is a run of at most two steps. */
  lemma NextIsRun(md5: Bytes -> Hash, s: System, c: Command)
    requires CacheInv(s.cache.disk)
    ensures |StepsOf(s, c)| <= 2
    ensures Next(md5, s, c).cache == Run(md5, s.cache, StepsOf(s, c))
  {
    if Enabled(s, c) {
      match c
      case Add(_, _, _, _, _) => AddIsRun(md5, s, c);
      case Complete(exitCode, fill) =>
        OneStep(md5, s.cache, Update(s.queue.running.value.source, s.queue.running.value.keys, fill));
      case NotifyNext =>
        var key := s.queue.running.value.keys[s.phase.next];
        NotifyIsRun(md5, s.cache, key.slot, key.result);
      case Background(step) => OneStep(md5, s.cache, step);
      case _ =>
    }
  }

  ghost function History(md5: Bytes -> Hash, s: System, commands: seq<Command>): seq<Step>
    requires SysInv(s)
    decreases |commands|
  {
    if commands == [] then
      []
    else
      NextInv(md5, s, commands[0]);
      StepsOf(s, commands[0]) + History(md5, Next(md5, s, commands[0]), commands[1..])
  }

  /** The cache after any execution is the cache after the run of its history. */
  lemma {:induction false} ExecutionIsRun(md5: Bytes -> Hash, s: System, commands: seq<Command>)
    requires SysInv(s)
    ensures Execution(md5, s, commands).cache == Run(md5, s.cache, History(md5, s, commands))
    decreases |commands|
  {
    if commands != [] {
      NextInv(md5, s, commands[0]);
      NextIsRun(md5, s, commands[0]);
      var n := Next(md5, s, commands[0]);
      ExecutionIsRun(md5, n, commands[1..]);
      RunAppend(md5, s.cache, StepsOf(s, commands[0]), History(md5, n, commands[1..]));
    }
  }

  // ---------- answers in every execution ----------

  /** The state after an execution from the start. */
  ghost function After(md5: Bytes -> Hash, commands: seq<Command>): (s: System)
    ensures CacheInv(s.cache.disk)
  {
    ExecutionInv(md5, INITIAL_SYSTEM, commands);
    Execution(md5, INITIAL_SYSTEM, commands)
  }

  lemma AfterNext(md5: Bytes -> Hash, commands: seq<Command>, c: Command)
    ensures After(md5, commands + [c]) == Next(md5, After(md5, commands), c)
  {
    OneMoreCommand(md5, INITIAL_SYSTEM, commands, c);
  }

  ghost predicate PlainCommands(commands: seq<Command>) {
    forall i :: 0 <= i < |commands| && commands[i].Complete? ==> PlainImports(commands[i].fill.imports)
  }

  lemma StepsArePlain(s: System, c: Command)
    requires CacheInv(s.cache.disk) && (c.Complete? ==> PlainImports(c.fill.imports))
    ensures PlainSteps(StepsOf(s, c))
  {
  }

  lemma {:induction false} HistoryIsPlain(md5: Bytes -> Hash, s: System, commands: seq<Command>)
    requires SysInv(s) && PlainCommands(commands)
    ensures PlainSteps(History(md5, s, commands))
    decreases |commands|
  {
    if commands != [] {
      NextInv(md5, s, commands[0]);
      StepsArePlain(s, commands[0]);
      var rest := commands[1..];
      assert forall i :: 0 <= i < |rest| ==> rest[i] == commands[i + 1];
      HistoryIsPlain(md5, Next(md5, s, commands[0]), rest);
    }
  }

  /** The cache after an execution is one that a run of plain steps leads to. */
  lemma AfterIsRun(md5: Bytes -> Hash, commands: seq<Command>) returns (steps: seq<Step>)
    requires PlainCommands(commands)
    ensures PlainSteps(steps) && After(md5, commands).cache == Run(md5, EMPTY_CACHE, steps)
  {
    ExecutionIsRun(md5, INITIAL_SYSTEM, commands);
    HistoryIsPlain(md5, INITIAL_SYSTEM, commands);
    steps := History(md5, INITIAL_SYSTEM, commands);
  }

  /** Whatever the threads do, a lookup only returns pictures that are stored for the key under their own hash. */
  lemma ExecutionAnswersAreTrue(md5: Bytes -> Hash, commands: seq<Command>, slot: Slot, hint: string, format: string,
                                busy: set<Hash>, beyond: char, readable: bool, a: Answer)
    requires IsDigest(md5) && PlainCommands(commands) && Unambiguous(format)
    requires CanAnswer(After(md5, commands).cache.disk, slot, hint, format, busy, beyond, readable, a)
    ensures var d := After(md5, commands).cache.disk;
      match a
      case Found(hash, None) => hash == hint && StoredFor(md5, d, slot, format, hash)
      case Found(hash, Some(bytes)) => md5(bytes) == Hash(hash) && StoredFor(md5, d, slot, format, hash)
      case Uncaught => false
      case _ => true
  {
    var steps := AfterIsRun(md5, commands);
    AnswersAreTrue(md5, steps, slot, hint, format, busy, beyond, readable, a);
  }

  /** Whatever the threads do, a readable picture is found exactly when the key's source has one in the format. */
  lemma ExecutionFormatsAreFound(md5: Bytes -> Hash, commands: seq<Command>, slot: Slot, source: Hash, format: string,
                                 busy: set<Hash>, beyond: char, a: Answer)
    requires IsDigest(md5) && PlainCommands(commands) && Unambiguous(format)
    requires KeyLink(slot, source) in After(md5, commands).cache.disk.files
    requires CanAnswer(After(md5, commands).cache.disk, slot, "", format, busy, beyond, true, a)
    ensures a.Found? <==> exists h :: SrcFile(source, Out(format, h)) in After(md5, commands).cache.disk.files
  {
    var steps := AfterIsRun(md5, commands);
    FormatsAreFound(md5, steps, slot, source, format, busy, beyond, a);
  }
}
