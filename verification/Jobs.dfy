/** Conversion jobs, the keys waiting for them, and the queue that holds them. */
module Jobs {
  import opened CacheTypes
  import opened Operations

  datatype JobState = DownloadIdle | DownloadingAndConverting | ConvertIdle | Converting | DoneOk | DoneError {
    predicate Idle() { DownloadIdle? || ConvertIdle? }
    predicate Active() { DownloadingAndConverting? || Converting? }
    predicate Done() { DoneOk? || DoneError? }
  }

  datatype JobResult =
    | JobOk | JobIoError | JobDiskFull | DownloadError | InputError | ConversionError | JobInternalError

  function ResultOfExitCode(code: int): JobResult {
    if code == 0 then JobOk
    else if code == 1 then JobIoError
    else if code == 2 then DownloadError
    else if code == 3 then InputError
    else if code == 4 then ConversionError
    else JobInternalError
  }

  /** A job as a value. */
  datatype JobVal = JobVal(id: nat, source: Hash, state: JobState, keys: seq<PendingKey>) {
    /** A finished job takes no further keys. */
    function Join(slot: Slot): JobVal {
      if state.Done() then this else this.(keys := keys + [PendingKey(slot, SourceUnknown)])
    }

    function Prepared(ok: bool): JobVal {
      if !ok then this.(state := DoneError)
      else this.(state := if state.DownloadIdle? then DownloadingAndConverting else Converting)
    }
  }

  function NewJob(id: nat, source: Hash, slot: Slot, download: bool): JobVal {
    JobVal(id, source, if download then DownloadIdle else ConvertIdle, [PendingKey(slot, SourceUnknown)])
  }

  datatype QueueVal = QueueVal(jobs: seq<JobVal>, running: Option<JobVal>) {

    /** The answers the cache manager gets about pending sources. */
    ghost function Pending(): Pending {
      Operations.Pending.Pending(set i | 0 <= i < |jobs| :: jobs[i].source,
              match running { case Some(j) => Some(j.source) case None => None })
    }

    /** Position of the first waiting job for a source. */
    function FirstFor(source: Hash): nat
      ensures FirstFor(source) <= |jobs|
      ensures FirstFor(source) < |jobs| ==> jobs[FirstFor(source)].source == source
      ensures forall i :: 0 <= i < FirstFor(source) ==> jobs[i].source != source
    {
      First(jobs, source)
    }

    /** Hands a key to the running job for a source, or else to the first waiting one. */
    function JoinFor(slot: Slot, source: Hash): QueueVal {
      if running.Some? && running.value.source == source then
        this.(running := Some(running.value.Join(slot)))
      else if FirstFor(source) < |jobs| then
        this.(jobs := jobs[FirstFor(source) := jobs[FirstFor(source)].Join(slot)])
      else
        this
    }
  }

  function First(jobs: seq<JobVal>, source: Hash): (n: nat)
    ensures n <= |jobs|
    ensures n < |jobs| ==> jobs[n].source == source
    ensures forall i :: 0 <= i < n ==> jobs[i].source != source
  {
    if jobs == [] || jobs[0].source == source then 0 else 1 + First(jobs[1..], source)
  }

  /** The position is determined by being the first. */
  lemma FirstIs(jobs: seq<JobVal>, source: Hash, n: nat)
    requires n <= |jobs| && (n < |jobs| ==> jobs[n].source == source)
    requires forall i :: 0 <= i < n ==> jobs[i].source != source
    ensures n == First(jobs, source)
  {
  }

  /** What the exit codes of scripts mean. */
  lemma ExitCodes(code: int)
    ensures (ResultOfExitCode(code) == JobOk <==> code == 0) && (ResultOfExitCode(code) == JobIoError <==> code == 1)
    ensures ResultOfExitCode(code) == DownloadError <==> code == 2
    ensures ResultOfExitCode(code) == InputError <==> code == 3
    ensures ResultOfExitCode(code) == ConversionError <==> code == 4
    ensures ResultOfExitCode(code) == JobInternalError <==> !(0 <= code <= 4)
  {
  }

  /** A key joins a job unless the job is done. */
  lemma JoinsUnlessDone(j: JobVal, slot: Slot)
    ensures j.state in {DoneOk, DoneError} ==> j.Join(slot) == j
    ensures j.state !in {DoneOk, DoneError} ==> j.Join(slot) == j.(keys := j.keys + [PendingKey(slot, SourceUnknown)])
  {
  }

  /** The running job for the source takes the key, or else the first waiting one, or else none. */
  lemma JoinIsExact(q: QueueVal, slot: Slot, source: Hash)
    ensures var r := q.JoinFor(slot, source);
      && (q.running.Some? && q.running.value.source == source ==>
            r == q.(running := Some(q.running.value.Join(slot))))
      && (!(q.running.Some? && q.running.value.source == source) ==>
            && (forall i :: 0 <= i < |q.jobs| && q.jobs[i].source == source &&
                            (forall l :: 0 <= l < i ==> q.jobs[l].source != source) ==>
                  r == q.(jobs := q.jobs[i := q.jobs[i].Join(slot)]))
            && ((forall i :: 0 <= i < |q.jobs| ==> q.jobs[i].source != source) ==> r == q))
  {
  }

  /** The sources that the cache is told to be pending. */
  lemma PendingIs(q: QueueVal, source: Hash)
    ensures source in q.Pending().queued <==> exists j :: j in q.jobs && j.source == source
    ensures q.Pending().running == Some(source) <==> q.running.Some? && q.running.value.source == source
  {
    if j :| j in q.jobs && j.source == source {
      var i :| 0 <= i < |q.jobs| && q.jobs[i] == j;
      assert q.jobs[i].source in q.Pending().queued;
    }
  }

  /** How a job starts out, and where preparing it leads. */
  lemma JobStates(id: nat, source: Hash, slot: Slot, download: bool)
    ensures var j := NewJob(id, source, slot, download);
      && j.id == id && j.source == source && j.keys == [PendingKey(slot, SourceUnknown)]
      && j.state == (if download then DownloadIdle else ConvertIdle)
      && j.Prepared(true).state == (if download then DownloadingAndConverting else Converting)
      && j.Prepared(false).state == DoneError
  {
  }

  class Job {
    const id: nat
    const source: Hash

    var state: JobState
    var keys: seq<PendingKey>

    ghost function View(): JobVal
      reads this
    {
      JobVal(id, source, state, keys)
    }

    constructor (id: nat, source: Hash, firstKey: Slot, download: bool)
      ensures View() == NewJob(id, source, firstKey, download)
    {
      this.id := id;
      this.source := source;
      state := if download then DownloadIdle else ConvertIdle;
      keys := [PendingKey(firstKey, SourceUnknown)];
    }

    method AddPendingKey(slot: Slot)
      modifies this
      ensures View() == old(View()).Join(slot)
    {
      match state
      case DownloadIdle | DownloadingAndConverting | ConvertIdle | Converting =>
        keys := keys + [PendingKey(slot, SourceUnknown)];
      case DoneOk | DoneError =>
    }
  }

  class JobQueue {
    var jobs: seq<Job>
    var running: Job?
    var adding: Option<Hash>

    ghost predicate Valid()
      reads this
    {
      && (forall i, j :: 0 <= i < j < |jobs| ==> jobs[i] != jobs[j])
      && (running != null ==> running !in jobs)
    }

    ghost function Members(): set<object>
      reads this
    {
      (set j | j in jobs) + (if running == null then {} else {running})
    }

    ghost function View(): QueueVal
      reads this, Members()
    {
      QueueVal(seq(|jobs|, i requires 0 <= i < |jobs| reads this, Members() =>
                 assert jobs[i] in Members(); jobs[i].View()),
               if running == null then None else Some(running.View()))
    }

    /** The sources being added, converted or waiting. */
    ghost function Busy(): set<Hash>
      reads this, Members()
    {
      View().Pending().queued
      + (if running == null then {} else {running.source})
      + (if adding.Some? then {adding.value} else {})
    }

    constructor ()
      ensures Valid() && View() == QueueVal([], None) && adding == None
    {
      jobs := [];
      running := null;
      adding := None;
    }

    /** Is there a job for this source?  The current one may be left out. */
    method IsSourcePending(source: Hash, excludeCurrent: bool) returns (pending: bool)
      ensures pending <==> source in if excludeCurrent then View().Pending().queued else Busy()
      ensures pending <==> (exists j :: j in jobs && j.source == source) ||
                           (!excludeCurrent && adding == Some(source)) ||
                           (!excludeCurrent && running != null && running.source == source)
    {
      if !excludeCurrent {
        if adding == Some(source) {
          return true;
        }
        if running != null && running.source == source {
          return true;
        }
      }
      var i := 0;
      while i < |jobs|
        invariant i <= |jobs| && forall j :: 0 <= j < i ==> jobs[j].source != source
      {
        if jobs[i].source == source {
          assert View().jobs[i].source == source;
          return true;
        }
        i := i + 1;
      }
      return false;
    }

    /** Hands a key to the job for a source, the running one first. */
    method AddKeyToPendingSource(slot: Slot, source: Hash) returns (joined: bool)
      requires Valid()
      modifies Members()
      ensures Valid() && jobs == old(jobs) && running == old(running)
      ensures joined <==> old(View()).Pending().Holds(source)
      ensures View() == old(View()).JoinFor(slot, source)
    {
      if running != null && running.source == source {
        running.AddPendingKey(slot);
        return true;
      }
      var i := 0;
      while i < |jobs| && jobs[i].source != source
        invariant i <= |jobs| && forall j :: 0 <= j < i ==> jobs[j].source != source
      {
        i := i + 1;
      }
      FirstIs(View().jobs, source, i);
      if i == |jobs| {
        return false;
      }
      assert View().jobs[i].source == source;
      jobs[i].AddPendingKey(slot);
      return true;
    }

    method Enqueue(job: Job)
      requires Valid() && job !in jobs && job != running && job.state.Idle()
      modifies this
      ensures Valid() && running == old(running) && jobs == old(jobs) + [job] && adding == old(adding)
      ensures View() == old(View()).(jobs := old(View()).jobs + [job.View()])
    {
      jobs := jobs + [job];
    }

    /** Moves the first waiting job to the worker. */
    method Take()
      requires Valid() && jobs != [] && running == null
      modifies this
      ensures Valid() && running == old(jobs)[0] && jobs == old(jobs)[1..]
      ensures View() == QueueVal(old(View()).jobs[1..], Some(old(View()).jobs[0]))
    {
      running := jobs[0];
      jobs := jobs[1..];
    }
  }
}
