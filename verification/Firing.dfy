/**
 * When a counter is decremented below zero, which the original asserts not
 * to happen.
 */
module Firing {
  import opened CacheTypes
  import opened FileSystem
  import opened CacheInvariant
  import opened Operations
  import opened Accounting
  import opened Collection
  import opened Runs
  import opened Counting

  /** Some step of the run takes one off this counter when it is zero already. */
  ghost predicate SomeFiresOn(md5: Bytes -> Hash, c: Cache, steps: seq<Step>, k: Counter)
    requires CacheInv(c.disk)
    decreases |steps|
  {
    steps != [] &&
    (FiresOn(c, steps[0], k) ||
     (ApplyInv(md5, c, steps[0]); SomeFiresOn(md5, Apply(md5, c, steps[0]), steps[1..], k)))
  }

  // ---------- runs in which no assertion fails ----------

  /** Source and object counters that cover what they count are positive when they are decremented. */
  lemma CountedNeverFires(md5: Bytes -> Hash, c: Cache, step: Step)
    requires Counted(md5, c) && Orderly(c, step)
    ensures !FiresOn(c, step, Sources) && !FiresOn(c, step, Objects)
  {
    match step
    case Delete(slot) =>
      if TakesSource(c.disk, slot) {
        LinkedSourceExists(c.disk, slot, CurrentLink(c.disk, slot).value);
      }
    case CollectSource(source, threshold) => assert source in c.disk.srcDirs;
    case CollectObject(hash, threshold) => assert ObjFile(hash) in PoolFiles(c.disk);
    case _ =>
  }

  /**
   * In a run without failed touches and without stale visits, the assertions
   * of the source and object counters never fail, whatever happens to keys.
   */
  lemma {:induction false} RunCountedNeverFires(md5: Bytes -> Hash, c: Cache, steps: seq<Step>)
    requires Counted(md5, c) && OrderlyRun(md5, c, steps)
    ensures !SomeFiresOn(md5, c, steps, Sources) && !SomeFiresOn(md5, c, steps, Objects)
    decreases |steps|
  {
    if steps != [] {
      CountedNeverFires(md5, c, steps[0]);
      ApplyCounted(md5, c, steps[0]);
      RunCountedNeverFires(md5, Apply(md5, c, steps[0]), steps[1..]);
    }
  }

  /** A stream counter that covers the key directories is positive when it is decremented. */
  lemma CoveredNeverFires(c: Cache, step: Step)
    requires CacheInv(c.disk) && StreamsCovered(c)
    ensures !FiresOn(c, step, StreamKeys)
  {
    match step
    case Delete(slot) =>
      if slot in c.disk.slots {
        assert slot.key in c.disk.keyDirs.Keys;
      }
    case CollectKey(key, threshold) => CollectKeepsStreams(c, key, threshold);
    case _ =>
  }

  /** In a run that keeps the key directories covered, its assertion never fails, whatever happens to sources. */
  lemma {:induction false} RunStreamsNeverFire(md5: Bytes -> Hash, c: Cache, steps: seq<Step>)
    requires CacheInv(c.disk) && StreamsCovered(c) && KeepsStreamsRun(md5, c, steps)
    ensures !SomeFiresOn(md5, c, steps, StreamKeys)
    decreases |steps|
  {
    if steps != [] {
      CoveredNeverFires(c, steps[0]);
      StepKeepsStreams(md5, c, steps[0]);
      ApplyInv(md5, c, steps[0]);
      RunStreamsNeverFire(md5, Apply(md5, c, steps[0]), steps[1..]);
    }
  }

  // ---------- one pass over the keys ----------

  /** Visits of all listed keys. */
  function Pass(listing: seq<string>, threshold: Timespec): seq<Step>
    decreases |listing|
  {
    if listing == [] then [] else [CollectKey(listing[0], threshold)] + Pass(listing[1..], threshold)
  }

  predicate NoDuplicates(listing: seq<string>) {
    forall i, j :: 0 <= i < j < |listing| ==> listing[i] != listing[j]
  }

  /** The listed keys that a pass removes. */
  function OldListed(d: Disk, listing: seq<string>, threshold: Timespec): set<string> {
    set k | k in listing && OldKey(d, k, threshold)
  }

  /** A pass decrements the counter below zero if and only if more listed keys are old than are counted. */
  lemma {:induction false} PassFires(md5: Bytes -> Hash, c: Cache, listing: seq<string>, threshold: Timespec)
    requires CacheInv(c.disk) && NoDuplicates(listing)
    ensures SomeFiresOn(md5, c, Pass(listing, threshold), StreamKeys) <==>
      c.counts.streams < |OldListed(c.disk, listing, threshold)|
    decreases |listing|
  {
    if listing != [] {
      var step := CollectKey(listing[0], threshold);
      ApplyInv(md5, c, step);
      PassFires(md5, Apply(md5, c, step), listing[1..], threshold);
      PassNext(md5, c, listing, threshold);
      OldListedNext(c, listing, threshold);
    }
  }

  lemma PassNext(md5: Bytes -> Hash, c: Cache, listing: seq<string>, threshold: Timespec)
    requires CacheInv(c.disk) && listing != []
    ensures var step := CollectKey(listing[0], threshold);
      && CacheInv(Apply(md5, c, step).disk)
      && (SomeFiresOn(md5, c, Pass(listing, threshold), StreamKeys) <==>
            || FiresOn(c, step, StreamKeys)
            || SomeFiresOn(md5, Apply(md5, c, step), Pass(listing[1..], threshold), StreamKeys))
  {
    var step := CollectKey(listing[0], threshold);
    ApplyInv(md5, c, step);
    assert Pass(listing, threshold)[0] == step && Pass(listing, threshold)[1..] == Pass(listing[1..], threshold);
  }

  lemma OldListedNext(c: Cache, listing: seq<string>, threshold: Timespec)
    requires NoDuplicates(listing) && listing != []
    ensures var key := listing[0];
      var all := OldListed(c.disk, listing, threshold);
      var rest := OldListed(GcKey(c, key, threshold).disk, listing[1..], threshold);
      if OldKey(c.disk, key, threshold) then key in all && rest == all - {key} else rest == all
  {
    var key, e := listing[0], GcKey(c, listing[0], threshold).disk;
    assert forall k :: k in listing <==> k == key || k in listing[1..];
    assert key !in listing[1..];
  }

  // ---------- any collection of keys ----------

  ghost predicate CollectsUpTo(steps: seq<Step>, bound: Timespec) {
    forall i :: 0 <= i < |steps| ==> steps[i].CollectKey? && !bound.Before(steps[i].threshold)
  }

  /** No collection of keys at thresholds up to the bound decrements the stream counter below zero. */
  ghost predicate SafeUpTo(md5: Bytes -> Hash, c: Cache, bound: Timespec)
    requires CacheInv(c.disk)
  {
    forall steps :: CollectsUpTo(steps, bound) ==> !SomeFiresOn(md5, c, steps, StreamKeys)
  }

  /**
   * That is so if and only if the counter covers the keys that are older than
   * the bound.  No undisturbed collection has a threshold above the age of the
   * newest key, so for those the bound to take is that age.
   */
  lemma SafeUpToIff(md5: Bytes -> Hash, c: Cache, bound: Timespec)
    requires CacheInv(c.disk)
    ensures SafeUpTo(md5, c, bound) <==> c.counts.streams >= |OldKeys(c.disk, bound)|
  {
    if c.counts.streams >= |OldKeys(c.disk, bound)| {
      forall steps | CollectsUpTo(steps, bound)
        ensures !SomeFiresOn(md5, c, steps, StreamKeys)
      {
        CoveredCollects(md5, c, steps, bound);
      }
    } else {
      var listing := Listing(OldKeys(c.disk, bound));
      PassFires(md5, c, listing, bound);
      assert OldListed(c.disk, listing, bound) == OldKeys(c.disk, bound);
      PassIsUpTo(listing, bound);
    }
  }

  lemma {:induction false} PassIsUpTo(listing: seq<string>, bound: Timespec)
    ensures CollectsUpTo(Pass(listing, bound), bound)
    decreases |listing|
  {
    if listing != [] {
      PassIsUpTo(listing[1..], bound);
    }
  }

  lemma {:induction false} Listing(keys: set<string>) returns (listing: seq<string>)
    ensures NoDuplicates(listing) && forall k :: k in listing <==> k in keys
  {
    listing := [];
    if keys != {} {
      var k :| k in keys;
      var rest := Listing(keys - {k});
      listing := [k] + rest;
    }
  }

  lemma {:induction false} CoveredCollects(md5: Bytes -> Hash, c: Cache, steps: seq<Step>, bound: Timespec)
    requires CacheInv(c.disk) && c.counts.streams >= |OldKeys(c.disk, bound)| && CollectsUpTo(steps, bound)
    ensures !SomeFiresOn(md5, c, steps, StreamKeys)
    decreases |steps|
  {
    if steps != [] {
      var key, threshold := steps[0].key, steps[0].threshold;
      ApplyInv(md5, c, steps[0]);
      var e := Apply(md5, c, steps[0]);
      if OldKey(c.disk, key, threshold) {
        assert key in OldKeys(c.disk, bound);
        assert OldKeys(e.disk, bound) == OldKeys(c.disk, bound) - {key};
      }
      CoveredCollects(md5, e, steps[1..], bound);
    }
  }

  ghost predicate OnlyKeys(steps: seq<Step>) {
    forall i :: 0 <= i < |steps| ==> steps[i].CollectKey?
  }

  /** No collection of keys decrements the stream counter below zero, even at thresholds above all ages. */
  ghost predicate SafeToCollect(md5: Bytes -> Hash, c: Cache)
    requires CacheInv(c.disk)
  {
    forall steps :: OnlyKeys(steps) ==> !SomeFiresOn(md5, c, steps, StreamKeys)
  }

  /** Covering the key directories is not only enough for that, it is needed. */
  lemma SafeIffCovered(md5: Bytes -> Hash, c: Cache)
    requires CacheInv(c.disk)
    ensures SafeToCollect(md5, c) <==> StreamsCovered(c)
  {
    if StreamsCovered(c) {
      forall steps | OnlyKeys(steps)
        ensures !SomeFiresOn(md5, c, steps, StreamKeys)
      {
        KeysKeepStreams(md5, c, steps);
        RunStreamsNeverFire(md5, c, steps);
      }
    } else {
      var bound := Above(c.disk.keyDirs);
      assert OldKeys(c.disk, bound) == c.disk.keyDirs.Keys;
      SafeUpToIff(md5, c, bound);
      var steps :| CollectsUpTo(steps, bound) && SomeFiresOn(md5, c, steps, StreamKeys);
      assert OnlyKeys(steps);
    }
  }

  lemma {:induction false} KeysKeepStreams(md5: Bytes -> Hash, c: Cache, steps: seq<Step>)
    requires CacheInv(c.disk) && OnlyKeys(steps)
    ensures KeepsStreamsRun(md5, c, steps)
    decreases |steps|
  {
    if steps != [] {
      ApplyInv(md5, c, steps[0]);
      KeysKeepStreams(md5, Apply(md5, c, steps[0]), steps[1..]);
    }
  }

  /** A time above all ages. */
  lemma {:induction false} Above(times: map<string, Timespec>) returns (t: Timespec)
    ensures forall k :: k in times ==> times[k].Before(t)
    decreases |times.Keys|
  {
    t := Timespec(0, 0);
    if times.Keys != {} {
      var k :| k in times.Keys;
      var rest := times - {k};
      assert rest.Keys == times.Keys - {k};
      var u := Above(rest);
      t := if times[k].Before(u) then u else Timespec(times[k].sec + 1, 0);
      forall j | j in times
        ensures times[j].Before(t)
      {
        if j != k {
          assert rest[j] == times[j] && rest[j].Before(u);
        }
      }
    }
  }
}
