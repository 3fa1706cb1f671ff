/**
 * An execution of the threads in which a key loses its picture: its source
 * has been filled, and it is moved to another one that still waits in the
 * queue.
 */
module EarlyMove {
  import opened CacheTypes
  import opened FileSystem
  import opened CacheInvariant
  import opened Operations
  import opened Runs
  import opened Keeping
  import opened Lookup
  import opened Delivery
  import opened Jobs
  import opened Protocol
  import opened Histories

  function Ask(slot: Slot, source: Hash, now: Timespec): Command {
    Add(slot, source, true, AllFine(now), WorkdirReady)
  }

  /** The key leads to the source, and nothing else is there. */
  ghost predicate Alone(d: Disk, slot: Slot, source: Hash) {
    CacheInv(d) && KeyLink(slot, source) in d.files && d.slots == {slot} && d.srcDirs == {source}
  }

  function TheJob(slot: Slot, source: Hash, state: JobState, result: AddKeyResult): JobVal {
    JobVal(0, source, state, [PendingKey(slot, result)])
  }

  // ---------- the key is asked for, fetched and served ----------

  function Asked(b: Slot, t: Hash, now: Timespec): seq<Command> {
    [] + [Ask(b, t, now)]
  }

  lemma AddIsNew(slot: Slot, source: Hash, now: Timespec)
    ensures var o := AddStreamKey(EMPTY_CACHE, slot, source, Pending({}, None), AllFine(now));
      o.result == SourceUnknown && o.joined == None && Alone(o.cache.disk, slot, source)
  {
    AddStreamKeyInv(EMPTY_CACHE, slot, source, Pending({}, None), AllFine(now));
    AddToEmpty(slot, source, AllFine(now));
  }

  lemma AfterAsked(md5: Bytes -> Hash, b: Slot, t: Hash, now: Timespec)
    ensures var x := After(md5, Asked(b, t, now));
      && x.phase == Waiting && x.queue == QueueVal([TheJob(b, t, DownloadIdle, SourceUnknown)], None)
      && Alone(x.cache.disk, b, t)
  {
    AfterNext(md5, [], Ask(b, t, now));
    AddIsNew(b, t, now);
    assert INITIAL_SYSTEM.queue.Pending() == Pending({}, None);
  }

  function Started(b: Slot, t: Hash, now: Timespec): seq<Command> {
    Asked(b, t, now) + [TakeJob] + [Prepare(true)]
  }

  lemma AfterStarted(md5: Bytes -> Hash, b: Slot, t: Hash, now: Timespec)
    ensures var x := After(md5, Started(b, t, now));
      && x.phase == InScript
      && x.queue == QueueVal([], Some(TheJob(b, t, DownloadingAndConverting, SourceUnknown)))
      && Alone(x.cache.disk, b, t)
  {
    AfterAsked(md5, b, t, now);
    AfterNext(md5, Asked(b, t, now), TakeJob);
    AfterNext(md5, Asked(b, t, now) + [TakeJob], Prepare(true));
  }

  function Completed(b: Slot, t: Hash, i: Import, now: Timespec): seq<Command> {
    Started(b, t, now) + [Complete(0, UpdateEnv([i], []))]
  }

  /** The output made from the picture is there. */
  ghost predicate Pictured(md5: Bytes -> Hash, d: Disk, t: Hash, i: Import) {
    PlainName(i.path).Some? && i.content.Some? && SrcFile(t, OutputOf(md5, i)) in d.files
  }

  lemma AfterCompleted(md5: Bytes -> Hash, b: Slot, t: Hash, i: Import, now: Timespec)
    requires Importable(i)
    ensures var x := After(md5, Completed(b, t, i, now));
      && x.phase == Executed && x.queue.jobs == []
      && (|| x.queue.running == Some(TheJob(b, t, DoneOk, Inserted))
          || x.queue.running == Some(TheJob(b, t, DoneOk, NotChanged)))
      && Alone(x.cache.disk, b, t) && Pictured(md5, x.cache.disk, t, i)
  {
    AfterStarted(md5, b, t, now);
    AfterNext(md5, Started(b, t, now), Complete(0, UpdateEnv([i], [])));
    FillWithOne(md5, After(md5, Started(b, t, now)).cache, b, t, i);
  }

  function Served(b: Slot, t: Hash, i: Import, now: Timespec): seq<Command> {
    Completed(b, t, i, now) + [StartFinalize] + [NotifyNext] + [EndFinalize]
  }

  /** Finalizing a job with one good key leaves the cache as it is. */
  lemma GoodJobEnds(md5: Bytes -> Hash, x: System, j: JobVal)
    requires CacheInv(x.cache.disk) && x.phase == Executed && x.queue == QueueVal([], Some(j))
    requires |j.keys| == 1 && !IsError(j.keys[0].result)
    ensures var y := Next(md5, x, StartFinalize);
      && y.cache == x.cache
      && var z := Next(md5, y, NotifyNext);
      && z.cache == x.cache
      && var e := Next(md5, z, EndFinalize);
      && e.cache == x.cache && e.phase == Waiting && e.queue == QueueVal([], None)
  {
  }

  lemma AfterServed(md5: Bytes -> Hash, b: Slot, t: Hash, i: Import, now: Timespec)
    requires Importable(i)
    ensures var x := After(md5, Served(b, t, i, now));
      && x.phase == Waiting && x.queue == QueueVal([], None)
      && Alone(x.cache.disk, b, t) && Pictured(md5, x.cache.disk, t, i)
  {
    AfterCompleted(md5, b, t, i, now);
    var done := Completed(b, t, i, now);
    GoodJobEnds(md5, After(md5, done), After(md5, done).queue.running.value);
    AfterNext(md5, done, StartFinalize);
    AfterNext(md5, done + [StartFinalize], NotifyNext);
    AfterNext(md5, done + [StartFinalize] + [NotifyNext], EndFinalize);
  }

  // ---------- two more requests ----------

  function OtherAsked(a: Slot, b: Slot, s: Hash, t: Hash, i: Import, now: Timespec): seq<Command> {
    Served(b, t, i, now) + [Ask(a, s, now)]
  }

  function BothAsked(a: Slot, b: Slot, s: Hash, t: Hash, i: Import, now: Timespec): seq<Command> {
    OtherAsked(a, b, s, t, i, now) + [Ask(b, s, now)]
  }

  /** The same view of a key includes the same outputs. */
  lemma OutputStays(d: Disk, e: Disk, slot: Slot, source: Hash, n: SrcName)
    requires CacheInv(d) && CacheInv(e) && View(d, slot) == View(e, slot)
    requires KeyLink(slot, source) in d.files && SrcFile(source, n) in d.files
    ensures SrcFile(source, n) in e.files
  {
    CurrentLinkIs(d, slot, source);
    assert SrcFile(source, n) in FilesOf(d, source);
  }

  /** The queue after `a` has asked for `s`. */
  lemma OtherQueued(md5: Bytes -> Hash, x: System, a: Slot, s: Hash, now: Timespec)
    requires CacheInv(x.cache.disk) && x.phase == Waiting && x.queue == QueueVal([], None)
    requires s !in x.cache.disk.srcDirs && a !in x.cache.disk.slots
    ensures var y := Next(md5, x, Ask(a, s, now));
      && y.cache == AddStreamKey(x.cache, a, s, x.queue.Pending(), AllFine(now)).cache
      && y.phase == Waiting && y.queue.Pending() == Pending({s}, None)
  {
    NewSourceIsEmpty(x.cache, a, s, x.queue.Pending(), AllFine(now));
    var y := Next(md5, x, Ask(a, s, now));
    var j := NewJob(x.nextId, s, a, true);
    assert y.queue == QueueVal([j], None) && [j][0] == j;
    assert y.queue.Pending().queued == {s};
  }

  /** What the two requests do to a cache in which `b` has its picture. */
  lemma TwoAdds(md5: Bytes -> Hash, c: Cache, a: Slot, b: Slot, s: Hash, t: Hash, i: Import, first: Pending,
                now: Timespec)
    requires Alone(c.disk, b, t) && Pictured(md5, c.disk, t, i) && a != b && s != t
    ensures var o := AddStreamKey(c, a, s, first, AllFine(now));
      && CacheInv(o.cache.disk)
      && KeyLink(b, t) in o.cache.disk.files && Pictured(md5, o.cache.disk, t, i)
      && var u := AddStreamKey(o.cache, b, s, Pending({s}, None), AllFine(now));
      && u.result == Replaced && u.joined == None
      && KeyLink(b, s) in u.cache.disk.files && !HasOutputs(u.cache.disk, s)
  {
    LinkedSourceExists(c.disk, b, t);
    MovedTooEarly(c, a, b, s, t, first, Pending({s}, None), AllFine(now));
    OutputStays(c.disk, AddStreamKey(c, a, s, first, AllFine(now)).cache.disk, b, t, OutputOf(md5, i));
  }

  lemma AfterOthers(md5: Bytes -> Hash, a: Slot, b: Slot, s: Hash, t: Hash, i: Import, now: Timespec)
    requires a != b && s != t && Importable(i)
    ensures var y := After(md5, OtherAsked(a, b, s, t, i, now)).cache.disk;
      KeyLink(b, t) in y.files && Pictured(md5, y, t, i)
    ensures var z := After(md5, BothAsked(a, b, s, t, i, now)).cache.disk;
      KeyLink(b, s) in z.files && !HasOutputs(z, s)
  {
    AfterServed(md5, b, t, i, now);
    var x := After(md5, Served(b, t, i, now));
    AfterNext(md5, Served(b, t, i, now), Ask(a, s, now));
    AfterNext(md5, OtherAsked(a, b, s, t, i, now), Ask(b, s, now));
    OtherQueued(md5, x, a, s, now);
    TwoAdds(md5, x.cache, a, b, s, t, i, x.queue.Pending(), now);
    GoodAdd(md5, After(md5, OtherAsked(a, b, s, t, i, now)), Ask(b, s, now));
  }

  /** A request that is answered at once only changes the cache. */
  lemma GoodAdd(md5: Bytes -> Hash, x: System, c: Command)
    requires CacheInv(x.cache.disk) && c.Add? && Enabled(x, c)
    requires var o := AddStreamKey(x.cache, c.slot, c.source, x.queue.Pending(), c.env);
      o.joined == None && o.result == Replaced
    ensures Next(md5, x, c).cache == AddStreamKey(x.cache, c.slot, c.source, x.queue.Pending(), c.env).cache
  {
  }

  lemma AllPlain(a: Slot, b: Slot, s: Hash, t: Hash, i: Import, now: Timespec)
    requires PlainName(i.path).Some? ==> PlainFormat(PlainName(i.path).value)
    ensures PlainCommands(OtherAsked(a, b, s, t, i, now)) && PlainCommands(BothAsked(a, b, s, t, i, now))
  {
  }

  /**
   * Key `b` asks for source `t`, which is fetched, filled and reported.  Then
   * key `a` asks for a new source `s`, and so does `b`.  Before the last
   * request every lookup of `b` finds its picture, afterwards none does.
   */
  lemma PictureLost(md5: Bytes -> Hash, a: Slot, b: Slot, s: Hash, t: Hash, i: Import, now: Timespec,
                    busy: set<Hash>, beyond: char, answer: Answer)
    requires a != b && s != t && Importable(i) && IsDigest(md5)
    requires PlainFormat(PlainName(i.path).value) && Unambiguous(PlainName(i.path).value)
    ensures var d, format := After(md5, OtherAsked(a, b, s, t, i, now)).cache.disk, PlainName(i.path).value;
      CanAnswer(d, b, "", format, busy, beyond, true, answer) ==> answer.Found?
    ensures var e, format := After(md5, BothAsked(a, b, s, t, i, now)).cache.disk, PlainName(i.path).value;
      CanAnswer(e, b, "", format, busy, beyond, true, answer) ==> !answer.Found?
  {
    var format := PlainName(i.path).value;
    AfterOthers(md5, a, b, s, t, i, now);
    AllPlain(a, b, s, t, i, now);
    if CanAnswer(After(md5, OtherAsked(a, b, s, t, i, now)).cache.disk, b, "", format, busy, beyond, true, answer) {
      ExecutionFormatsAreFound(md5, OtherAsked(a, b, s, t, i, now), b, t, format, busy, beyond, answer);
    }
    if CanAnswer(After(md5, BothAsked(a, b, s, t, i, now)).cache.disk, b, "", format, busy, beyond, true, answer) {
      ExecutionFormatsAreFound(md5, BothAsked(a, b, s, t, i, now), b, s, format, busy, beyond, answer);
    }
  }
}
