/** What clients are told, in every reachable state. */
module Answers {
  import opened CacheTypes
  import opened FileSystem
  import opened CacheInvariant
  import opened Operations
  import opened Lookup
  import opened Delivery
  import opened Runs

  /** Updates bring in only files with plain names; nothing else is asked of a step. */
  ghost predicate PlainStep(step: Step) {
    step.Update? ==> PlainImports(step.fill.imports)
  }

  ghost predicate PlainSteps(steps: seq<Step>) {
    forall i :: 0 <= i < |steps| ==> PlainStep(steps[i])
  }

  /** No source has an output that it did not have before. */
  ghost predicate NoNewOutputs(d: Disk, e: Disk) {
    forall s, n: SrcName :: n.Out? && SrcFile(s, n) in e.files ==> SrcFile(s, n) in d.files
  }

  lemma EnteredOutputs(d: Disk, source: Hash, now: Timespec, mkdir: Fault, touch: Fault)
    requires CacheInv(d)
    ensures NoNewOutputs(d, MkSourceEntry(d, source, now, mkdir, touch).0)
  {
  }

  lemma AddedSlotOutputs(c: Cache, slot: Slot, source: Hash, isNew: bool, pending: Pending, env: AddEnv)
    requires CacheInv(c.disk)
    ensures NoNewOutputs(c.disk, AddSlot(c, slot, source, isNew, pending, env).cache.disk)
  {
  }

  lemma AddedOutputs(c: Cache, slot: Slot, source: Hash, pending: Pending, env: AddEnv)
    requires CacheInv(c.disk)
    ensures NoNewOutputs(c.disk, AddStreamKey(c, slot, source, pending, env).cache.disk)
  {
    MkSourceEntryInv(c.disk, source, env.now, env.mkdirSource, env.touch);
    EnteredOutputs(c.disk, source, env.now, env.mkdirSource, env.touch);
    var (d, r) := MkSourceEntry(c.disk, source, env.now, env.mkdirSource, env.touch);
    var counts := if r.SourceInserted? then c.counts.AddSource() else c.counts;
    if !r.SourceIoError? && !r.SourceDiskFull? {
      AddedSlotOutputs(Cache(d, counts), slot, source, IsNewSource(r, source, pending), pending, env);
    }
  }

  lemma DeletedOutputs(c: Cache, slot: Slot)
    requires CacheInv(c.disk)
    ensures NoNewOutputs(c.disk, DeleteKey(c, slot).disk)
  {
  }

  /** Every step keeps the names of outputs plain. */
  lemma ApplyPlain(md5: Bytes -> Hash, c: Cache, step: Step)
    requires CacheInv(c.disk) && PlainNames(c.disk) && IsDigest(md5) && PlainStep(step)
    ensures PlainNames(Apply(md5, c, step).disk)
  {
    match step
    case AddKey(slot, source, pending, env) => AddedOutputs(c, slot, source, pending, env);
    case Update(source, keys, fill) => UpdateNamesPlain(md5, c, source, keys, fill);
    case Delete(slot) => DeletedOutputs(c, slot);
    case _ => assert NoNewOutputs(c.disk, Apply(md5, c, step).disk);
  }

  lemma {:induction false} RunPlain(md5: Bytes -> Hash, c: Cache, steps: seq<Step>)
    requires CacheInv(c.disk) && PlainNames(c.disk) && IsDigest(md5) && PlainSteps(steps)
    ensures PlainNames(Run(md5, c, steps).disk)
    decreases |steps|
  {
    if steps != [] {
      ApplyInv(md5, c, steps[0]);
      ApplyPlain(md5, c, steps[0]);
      RunPlain(md5, Apply(md5, c, steps[0]), steps[1..]);
    }
  }

  /**
   * After any interleaving of steps, a lookup that finds something names a
   * picture that is stored for the key's source in the requested format and
   * whose bytes have the returned hash, and no exception leaves the lookup.
   */
  lemma AnswersAreTrue(md5: Bytes -> Hash, steps: seq<Step>, slot: Slot, hint: string, format: string, busy: set<Hash>,
                       beyond: char, readable: bool, a: Answer)
    requires IsDigest(md5) && PlainSteps(steps) && Unambiguous(format)
    requires CanAnswer(Run(md5, EMPTY_CACHE, steps).disk, slot, hint, format, busy, beyond, readable, a)
    ensures var d := Run(md5, EMPTY_CACHE, steps).disk;
      match a
      case Found(hash, None) => hash == hint && StoredFor(md5, d, slot, format, hash)
      case Found(hash, Some(bytes)) => md5(bytes) == Hash(hash) && StoredFor(md5, d, slot, format, hash)
      case Uncaught => false
      case _ => true
  {
    RunPlain(md5, EMPTY_CACHE, steps);
    RunAddressed(md5, EMPTY_CACHE, steps);
    var d := Run(md5, EMPTY_CACHE, steps).disk;
    var listing :|
      ListsSource(d, slot, listing) && DoLookup(d, slot, hint, format, busy, listing, beyond, readable) == a;
    FoundIsAddressed(md5, d, slot, hint, format, busy, listing, beyond, readable);
  }

  /** And a readable picture is found in every reachable state exactly when the key's source has one in the format. */
  lemma FormatsAreFound(md5: Bytes -> Hash, steps: seq<Step>, slot: Slot, source: Hash, format: string, busy: set<Hash>,
                        beyond: char, a: Answer)
    requires IsDigest(md5) && PlainSteps(steps) && Unambiguous(format)
    requires KeyLink(slot, source) in Run(md5, EMPTY_CACHE, steps).disk.files
    requires CanAnswer(Run(md5, EMPTY_CACHE, steps).disk, slot, "", format, busy, beyond, true, a)
    ensures a.Found? <==> exists h :: SrcFile(source, Out(format, h)) in Run(md5, EMPTY_CACHE, steps).disk.files
  {
    RunPlain(md5, EMPTY_CACHE, steps);
    var d := Run(md5, EMPTY_CACHE, steps).disk;
    CurrentLinkIs(d, slot, source);
    var listing :| ListsSource(d, slot, listing) && DoLookup(d, slot, "", format, busy, listing, beyond, true) == a;
    FoundIffStored(d, slot, source, format, busy, listing, beyond);
  }

  /**
   * In every reachable state, exactly when a client is told what: of a key by
   * its directory and link, of a linked key by what its source has in the
   * format and whether the source is being added, converted or waiting.
   */
  lemma AnswersAreExact(md5: Bytes -> Hash, steps: seq<Step>, slot: Slot, hint: string, format: string, busy: set<Hash>,
                        beyond: char, readable: bool, a: Answer)
    requires IsDigest(md5) && PlainSteps(steps) && Unambiguous(format)
    requires CanAnswer(Run(md5, EMPTY_CACHE, steps).disk, slot, hint, format, busy, beyond, readable, a)
    ensures var d := Run(md5, EMPTY_CACHE, steps).disk;
      && (a == KeyUnknown <==> slot !in d.slots)
      && (a == Orphaned <==> slot in d.slots && forall s :: KeyLink(slot, s) !in d.files)
      && forall s :: KeyLink(slot, s) in d.files ==>
           && (a == Found(hint, None) <==> Confirmed(d, s, format, hint))
           && (a.Found? && a.data.Some? <==> !Confirmed(d, s, format, hint) && Stored(d, s, format) && readable)
           && (a == LookupIoError <==> !Confirmed(d, s, format, hint) && Stored(d, s, format) && !readable)
           && (a == IsPending <==> !Confirmed(d, s, format, hint) && !Stored(d, s, format) && s in busy)
           && (a == FormatNotSupported <==>
                 !Confirmed(d, s, format, hint) && !Stored(d, s, format) && s !in busy)
  {
    RunPlain(md5, EMPTY_CACHE, steps);
    var d := Run(md5, EMPTY_CACHE, steps).disk;
    var listing :|
      ListsSource(d, slot, listing) && DoLookup(d, slot, hint, format, busy, listing, beyond, readable) == a;
    UnlinkedAnswers(d, slot, hint, format, busy, listing, beyond, readable);
    forall s | KeyLink(slot, s) in d.files
      ensures CurrentLink(d, slot) == Some(s)
    {
      CurrentLinkIs(d, slot, s);
    }
    if s :| KeyLink(slot, s) in d.files {
      LinkedAnswers(d, slot, s, hint, format, busy, listing, beyond, readable);
    }
  }
}
