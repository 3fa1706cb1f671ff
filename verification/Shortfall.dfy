/**
 * Runs that end in a collection whose thresholds are computed as usual and
 * which decrements a counter below zero.
 */
module Shortfall {
  import opened CacheTypes
  import opened FileSystem
  import opened CacheInvariant
  import opened Operations
  import opened Runs
  import opened Counting
  import opened Firing
  import opened Deletions
  import opened Histories
  import opened Threshold
  import opened Collection
  import opened GarbageCollection

  // ---------- every cache has a round of collection ----------

  lemma {:induction false} Extremes<K>(times: map<K, Timespec>) returns (mm: MinMax)
    requires FileTimes(times)
    ensures mm.Accurate(times)
    decreases |times.Keys|
  {
    mm := MinMax(NEVER, EVER);
    if times != map[] {
      var k :| k in times;
      var rest := times - {k};
      assert rest.Keys == times.Keys - {k};
      var less := Extremes(rest);
      if rest == map[] {
        assert times.Keys == {k};
        mm := MinMax(times[k], times[k]);
      } else {
        mm := less.With(times[k]);
        WithIsAccurate(less, times, k, rest);
      }
    }
  }

  lemma WithIsAccurate<K>(less: MinMax, times: map<K, Timespec>, k: K, rest: map<K, Timespec>)
    requires k in times && rest == times - {k} && rest != map[] && less.Accurate(rest)
    ensures less.With(times[k]).Accurate(times)
  {
    var oldest :| oldest in rest && rest[oldest] == less.min;
    var newest :| newest in rest && rest[newest] == less.max;
    assert times[oldest] == less.min && times[newest] == less.max;
    var mm := less.With(times[k]);
    forall j | j in times
      ensures !times[j].Before(mm.min) && !mm.max.Before(times[j])
    {
      if j != k {
        assert rest[j] == times[j];
      }
    }
  }

  lemma AtNs(ns: int) returns (t: Timespec)
    ensures t.Normalised() && Ns(t) == ns
  {
    t := Timespec(ns / NS_PER_S, ns % NS_PER_S);
  }

  lemma SomeEstimate<K>(mm: MinMax, removedBefore: bool, times: map<K, Timespec>) returns (t: Timespec)
    requires FileTimes(times) && mm.Accurate(times)
    ensures Estimated(t, mm, removedBefore, times)
  {
    t := NEVER;
    if times != map[] {
      var oldest :| oldest in times && times[oldest] == mm.min;
      var newest :| newest in times && times[newest] == mm.max;
      var percentage := if removedBefore then 20 else 70;
      DeltaIsDifference(mm.min, mm.max);
      IncrementBounds(mm.min, mm.max, percentage);
      t := AtNs(Ns(mm.min) + 1000 * Increment(mm.min, mm.max, percentage));
      NsOrders(t, mm.min);
      NsOrders(mm.max, t);
    }
  }

  /** Every cache has a round of collection with its true extremes and the thresholds computed from them. */
  lemma SomeRound(d: Disk, removedBefore: bool) returns (r: GcRound)
    requires Collectable(d)
    ensures r.before == d && Legal(r, removedBefore)
  {
    var streams := Extremes(d.keyDirs);
    var sources := Extremes(SourceTimes(d));
    var objects := Extremes(ObjectTimes(d));
    var s := SomeEstimate(streams, removedBefore, d.keyDirs);
    var t := SomeEstimate(sources, removedBefore, SourceTimes(d));
    var u := SomeEstimate(objects, removedBefore, ObjectTimes(d));
    r := GcRound(d, Ages(streams, sources, objects), Thresholds(s, t, u), Round(d, s, t, u));
  }

  // ---------- ages ----------

  ghost predicate FineAges(d: Disk) {
    FileTimes(d.keyDirs) && forall i :: i in d.inodes ==> FileTime(d.inodes[i].atime)
  }

  lemma EnteredAges(d: Disk, source: Hash, now: Timespec)
    requires CacheInv(d) && FineAges(d) && FileTime(now)
    ensures FineAges(MkSourceEntry(d, source, now, Fine, Fine).0)
  {
  }

  lemma LinkedAges(d: Disk, slot: Slot, source: Hash, ifAdded: AddKeyResult)
    requires CacheInv(d) && FineAges(d)
    ensures FineAges(LinkToSource(d, slot, source, ifAdded, Fine).0)
  {
  }

  lemma AddedAges(c: Cache, slot: Slot, source: Hash, pending: Pending, now: Timespec)
    requires CacheInv(c.disk) && FineAges(c.disk) && FileTime(now) && slot !in c.disk.slots
    ensures FineAges(AddStreamKey(c, slot, source, pending, AllFine(now)).cache.disk)
  {
    MkSourceEntryInv(c.disk, source, now, Fine, Fine);
    EnteredAges(c.disk, source, now);
    EnteredDirs(c.disk, source, now, Fine, Fine);
    var d := MkSourceEntry(c.disk, source, now, Fine, Fine).0;
    MakeSlotInv(d, slot, now);
    LinkedAges(MakeSlot(d, slot, now), slot, source, SourceUnknown);
    LinkedAges(MakeSlot(d, slot, now), slot, source, Inserted);
  }

  lemma DeletedAges(c: Cache, slot: Slot)
    requires CacheInv(c.disk) && FineAges(c.disk)
    ensures FineAges(DeleteKey(c, slot).disk)
  {
  }

  // ---------- the stream counter ----------

  function Emptied(slot: Slot, source: Hash, now: Timespec): seq<Step> {
    [AddKey(slot, source, Pending({}, None), AllFine(now)), Delete(slot)]
  }

  /** Adding a key and deleting it again leaves its directory and no count. */
  lemma EmptiedDir(md5: Bytes -> Hash, c: Cache, slot: Slot, source: Hash, now: Timespec)
    requires CacheInv(c.disk) && FineAges(c.disk) && FileTime(now)
    requires slot.key !in c.disk.keyDirs
    ensures var e := Run(md5, c, Emptied(slot, source, now));
      && e.disk.keyDirs == c.disk.keyDirs[slot.key := now] && e.counts.streams == c.counts.streams && FineAges(e.disk)
  {
    var add := AddKey(slot, source, Pending({}, None), AllFine(now));
    AddToSlots(c, slot, source, Pending({}, None), now);
    AddedAges(c, slot, source, Pending({}, None), now);
    ApplyInv(md5, c, add);
    var c1 := Apply(md5, c, add);
    DeleteKeepsSlots(c1, slot);
    DeletedAges(c1, slot);
    OneStep(md5, c, add);
    OneStep(md5, c1, Delete(slot));
    RunAppend(md5, c, [add], [Delete(slot)]);
    assert Emptied(slot, source, now) == [add] + [Delete(slot)];
  }

  /** Two keys are added and deleted again, and a third one is added later. */
  function TwoEmptied(a: Slot, b: Slot, last: Slot, source: Hash, early: Timespec, late: Timespec): seq<Step> {
    Emptied(a, source, early) + (Emptied(b, source, early) +
      [AddKey(last, source, Pending({}, None), AllFine(late))])
  }

  lemma AfterTwoEmptied(md5: Bytes -> Hash, a: Slot, b: Slot, last: Slot, source: Hash, early: Timespec, late: Timespec)
    requires a.key != b.key && a.key != last.key && b.key != last.key
    requires FileTime(early) && FileTime(late)
    ensures var c := Run(md5, EMPTY_CACHE, TwoEmptied(a, b, last, source, early, late));
      && c.disk.keyDirs == map[a.key := early, b.key := early, last.key := late]
      && c.counts.streams == 1 && Collectable(c.disk)
  {
    var add := AddKey(last, source, Pending({}, None), AllFine(late));
    EmptiedDir(md5, EMPTY_CACHE, a, source, early);
    var c1 := Run(md5, EMPTY_CACHE, Emptied(a, source, early));
    EmptiedDir(md5, c1, b, source, early);
    var c2 := Run(md5, c1, Emptied(b, source, early));
    RunAppend(md5, EMPTY_CACHE, Emptied(a, source, early), Emptied(b, source, early) + [add]);
    RunAppend(md5, c1, Emptied(b, source, early), [add]);
    OneStep(md5, c2, add);
    assert last.key !in c2.disk.keyDirs;
    AddToSlots(c2, last, source, Pending({}, None), late);
    AddedAges(c2, last, source, Pending({}, None), late);
  }

  /**
   * If the third key is at least two microseconds younger, every round of
   * collection that follows, with the thresholds computed from that cache,
   * decrements the stream counter below zero in its pass over the keys.
   */
  lemma StreamsCanRunOut(md5: Bytes -> Hash, a: Slot, b: Slot, last: Slot, source: Hash, early: Timespec,
                         late: Timespec, r: GcRound, listing: seq<string>)
    requires a.key != b.key && a.key != last.key && b.key != last.key
    requires FileTime(early) && FileTime(late) && Ns(late) - Ns(early) >= 2000
    requires Legal(r, false) && r.before == Run(md5, EMPTY_CACHE, TwoEmptied(a, b, last, source, early, late)).disk
    requires NoDuplicates(listing) && forall k :: k in listing <==> k in r.before.keyDirs
    ensures SomeFiresOn(md5, Run(md5, EMPTY_CACHE, TwoEmptied(a, b, last, source, early, late)),
                        Pass(listing, r.thresholds.streams), StreamKeys)
  {
    AfterTwoEmptied(md5, a, b, last, source, early, late);
    TwoAreOld(r, a.key, b.key, last.key, early, late);
    PassOverTwo(md5, Run(md5, EMPTY_CACHE, TwoEmptied(a, b, last, source, early, late)), a.key, b.key, listing,
                r.thresholds.streams);
  }

  lemma PassOverTwo(md5: Bytes -> Hash, c: Cache, a: string, b: string, listing: seq<string>, threshold: Timespec)
    requires CacheInv(c.disk) && c.counts.streams == 1 && a != b
    requires NoDuplicates(listing) && a in listing && b in listing
    requires forall k :: OldKey(c.disk, k, threshold) <==> k == a || k == b
    ensures SomeFiresOn(md5, c, Pass(listing, threshold), StreamKeys)
  {
    PassFires(md5, c, listing, threshold);
    assert OldListed(c.disk, listing, threshold) == {a, b};
  }

  lemma TwoAreOld(r: GcRound, a: string, b: string, last: string, early: Timespec, late: Timespec)
    requires a != b && a != last && b != last
    requires FileTime(early) && FileTime(late) && Ns(late) - Ns(early) >= 2000
    requires Legal(r, false) && r.before.keyDirs == map[a := early, b := early, last := late]
    ensures forall k :: OldKey(r.before, k, r.thresholds.streams) <==> k == a || k == b
  {
    var mm, t := r.ages.streams, r.thresholds.streams;
    var times := r.before.keyDirs;
    NsOrders(early, late);
    assert times[a] == early && times[b] == early && times[last] == late;
    assert mm.min == early && mm.max == late;
    NsOrders(early, t);
    NsOrders(late, t);
  }

  /** No cache is without such a round, so the collection after that run can only go wrong. */
  lemma CollectionMustFail(md5: Bytes -> Hash, a: Slot, b: Slot, last: Slot, source: Hash,
                           early: Timespec, late: Timespec)
    returns (r: GcRound, listing: seq<string>)
    requires a.key != b.key && a.key != last.key && b.key != last.key
    requires FileTime(early) && FileTime(late) && Ns(late) - Ns(early) >= 2000
    ensures var c := Run(md5, EMPTY_CACHE, TwoEmptied(a, b, last, source, early, late));
      && Legal(r, false) && r.before == c.disk
      && (forall k :: k in listing <==> k in c.disk.keyDirs)
      && SomeFiresOn(md5, c, Pass(listing, r.thresholds.streams), StreamKeys)
  {
    AfterTwoEmptied(md5, a, b, last, source, early, late);
    var c := Run(md5, EMPTY_CACHE, TwoEmptied(a, b, last, source, early, late));
    r := SomeRound(c.disk, false);
    listing := Listing(c.disk.keyDirs.Keys);
    StreamsCanRunOut(md5, a, b, last, source, early, late, r, listing);
  }

  /** A collection with thresholds computed as usual never goes above the newest age. */
  lemma ThresholdUpToNewest(r: GcRound, removedBefore: bool)
    requires Legal(r, removedBefore) && r.before.keyDirs != map[]
    ensures IsNewest(r.ages.streams.max, r.before.keyDirs) && !r.ages.streams.max.Before(r.thresholds.streams)
  {
  }

  // ---------- the source counter ----------

  /**
   * A key is added and deleted again after the collector has listed its
   * source; the visit that follows decrements the source counter below zero.
   */
  lemma SourcesCanRunOut(md5: Bytes -> Hash, slot: Slot, source: Hash, now: Timespec, threshold: Timespec)
    ensures var listed := Run(md5, EMPTY_CACHE, [AddKey(slot, source, Pending({}, None), AllFine(now))]);
      && source in listed.disk.srcDirs
      && SomeFiresOn(md5, listed, [Delete(slot), CollectSource(source, threshold)], Sources)
  {
    var add := AddKey(slot, source, Pending({}, None), AllFine(now));
    OneStep(md5, EMPTY_CACHE, add);
    ApplyInv(md5, EMPTY_CACHE, add);
    var c1 := Apply(md5, EMPTY_CACHE, add);
    AddToEmpty(slot, source, AllFine(now));
    ApplyInv(md5, c1, Delete(slot));
    DeleteOnly(c1, slot, source);
    var visit := CollectSource(source, threshold);
    assert FiresOn(Apply(md5, c1, Delete(slot)), visit, Sources);
    assert [Delete(slot), visit][1..] == [visit] && [visit][0] == visit;
  }

  lemma DeleteOnly(c: Cache, slot: Slot, source: Hash)
    requires CacheInv(c.disk) && c.disk.files.Keys == {SrcFile(source, Ref), KeyLink(slot, source)}
    requires slot in c.disk.slots && c.disk.srcDirs == {source} && c.counts.sources == 1
    ensures var r := DeleteKey(c, slot);
      r.counts.sources == 0 && r.disk.srcDirs == {} && SrcFile(source, Ref) !in r.disk.files
  {
    CurrentLinkIs(c.disk, slot, source);
    UnlinkSlotInv(c.disk, slot, source);
    var d := Remove(c.disk, {KeyLink(slot, source)});
    assert d.files.Keys == {SrcFile(source, Ref)};
    RefCountsHolders(d, source);
    assert Holders(d, source) == {};
  }
}
