/** The background task: a queue of actions in which each action waits at most once. */
module Background {
  import opened CacheTypes

  datatype Action = Shutdown | ResetTimestamps | CollectGarbage

  /** What callers and the worker thread do to the queue, one lock at a time. */
  datatype Command = Append(action: Action) | Start

  datatype Task = Task(pending: seq<Action>, stopped: bool) {
    function Do(c: Command): Task {
      match c
      case Append(a) => if a in pending then this else this.(pending := pending + [a])
      case Start =>
        if stopped || pending == [] then this
        else Task(pending[1..], pending[0] == Shutdown)
    }

    /** The action accepted by a command, if any. */
    function Accepts(c: Command): seq<Action> {
      if c.Append? && c.action !in pending then [c.action] else []
    }

    /** The action started by a command, if any. */
    function Starts(c: Command): seq<Action> {
      if c.Start? && !stopped && pending != [] then [pending[0]] else []
    }
  }

  function Run(t: Task, commands: seq<Command>): Task
    decreases |commands|
  {
    if commands == [] then t else Run(t.Do(commands[0]), commands[1..])
  }

  function Accepted(t: Task, commands: seq<Command>): seq<Action>
    decreases |commands|
  {
    if commands == [] then [] else t.Accepts(commands[0]) + Accepted(t.Do(commands[0]), commands[1..])
  }

  function Started(t: Task, commands: seq<Command>): seq<Action>
    decreases |commands|
  {
    if commands == [] then [] else t.Starts(commands[0]) + Started(t.Do(commands[0]), commands[1..])
  }

  predicate Distinct(s: seq<Action>) {
    forall i, j :: 0 <= i < j < |s| ==> s[i] != s[j]
  }

  lemma {:induction false} DistinctSize(s: seq<Action>)
    requires Distinct(s)
    ensures |s| <= 3
  {
    var all := {Shutdown, ResetTimestamps, CollectGarbage};
    var seen := set i | 0 <= i < |s| :: s[i];
    SetOfDistinct(s);
    assert seen <= all;
    assert all == seen + (all - seen);
  }

  lemma {:induction false} SetOfDistinct(s: seq<Action>)
    requires Distinct(s)
    ensures |set i | 0 <= i < |s| :: s[i]| == |s|
  {
    if s != [] {
      var front := s[..|s| - 1];
      SetOfDistinct(front);
      assert (set i | 0 <= i < |s| :: s[i]) == (set i | 0 <= i < |front| :: front[i]) + {s[|s| - 1]};
    }
  }

  /** Whatever callers and worker do, no action waits twice, so at most three wait. */
  lemma {:induction false} NeverDuplicates(t: Task, commands: seq<Command>)
    requires Distinct(t.pending)
    ensures Distinct(Run(t, commands).pending) && |Run(t, commands).pending| <= 3
    decreases |commands|
  {
    if commands == [] {
      DistinctSize(t.pending);
    } else {
      NeverDuplicates(t.Do(commands[0]), commands[1..]);
    }
  }

  lemma OneCommand(t: Task, c: Command)
    ensures t.pending + t.Accepts(c) == t.Starts(c) + t.Do(c).pending
  {
  }

  /** Accepted actions are started in the order of acceptance. */
  lemma {:induction false} StartedInOrder(t: Task, commands: seq<Command>)
    ensures t.pending + Accepted(t, commands) == Started(t, commands) + Run(t, commands).pending
    decreases |commands|
  {
    if commands != [] {
      var c, u := commands[0], t.Do(commands[0]);
      OneCommand(t, c);
      StartedInOrder(u, commands[1..]);
      Regroup(t.pending, t.Accepts(c), Accepted(u, commands[1..]));
      Regroup(t.Starts(c), u.pending, Accepted(u, commands[1..]));
      Regroup(t.Starts(c), Started(u, commands[1..]), Run(u, commands[1..]).pending);
    }
  }

  lemma Regroup(a: seq<Action>, b: seq<Action>, c: seq<Action>)
    ensures a + (b + c) == (a + b) + c
  {
  }

  /** An action that waits keeps waiting until it is started. */
  lemma {:induction false} WaitsUntilStarted(t: Task, commands: seq<Command>, a: Action)
    requires a in t.pending
    ensures a in Run(t, commands).pending || a in Started(t, commands)
    decreases |commands|
  {
    if commands != [] {
      var u := t.Do(commands[0]);
      if a in u.pending {
        WaitsUntilStarted(u, commands[1..], a);
      } else {
        assert t.pending == [t.pending[0]] + t.pending[1..];
      }
    }
  }

  /** A request is never lost, whether it was queued or coalesced with a waiting one. */
  lemma RequestNeverLost(t: Task, a: Action, later: seq<Command>)
    ensures var u := t.Do(Append(a));
      a in Run(u, later).pending || a in Started(u, later)
  {
    WaitsUntilStarted(t.Do(Append(a)), later, a);
  }

  /** Taking up a shutdown stops the worker for good: whatever comes, nothing is started any more. */
  lemma {:induction false} StoppedForGood(t: Task, commands: seq<Command>)
    requires t.stopped
    ensures Run(t, commands).stopped && Started(t, commands) == []
    decreases |commands|
  {
    if commands != [] {
      StoppedForGood(t.Do(commands[0]), commands[1..]);
    }
  }

  /** The worker stops exactly when it takes up a shutdown. */
  lemma StopsOnShutdown(t: Task, c: Command)
    requires !t.stopped
    ensures t.Do(c).stopped <==> c == Start && t.pending != [] && t.pending[0] == Shutdown
  {
  }

  class BackgroundTask {
    var pendingActions: seq<Action>
    var stopped: bool

    ghost function View(): Task
      reads this
    {
      Task(pendingActions, stopped)
    }

    constructor ()
      ensures View() == Task([], false)
    {
      pendingActions := [];
      stopped := false;
    }

    /** Returns whether the action was queued; one that waits already is dropped. */
    method AppendAction(action: Action) returns (queued: bool)
      modifies this
      ensures View() == old(View()).Do(Append(action))
      ensures queued <==> action !in old(pendingActions)
      ensures pendingActions == if queued then old(pendingActions) + [action] else old(pendingActions)
    {
      if action in pendingActions {
        return false;
      }
      pendingActions := pendingActions + [action];
      return true;
    }

    /** One turn of the worker loop up to the point where the lock is released. */
    method TakeAction() returns (action: Option<Action>)
      modifies this
      ensures View() == old(View()).Do(Start)
      ensures old(View()).Starts(Start) == match action { case Some(a) => [a] case None => [] }
      ensures action == if old(stopped) || old(pendingActions) == [] then None else Some(old(pendingActions)[0])
    {
      if stopped || pendingActions == [] {
        return None;
      }
      var current := pendingActions[0];
      pendingActions := pendingActions[1..];
      if current == Shutdown {
        stopped := true;
      }
      return Some(current);
    }
  }
}
