/**
 * Ages and thresholds of the garbage collector: nanosecond timestamps kept as
 * seconds and nanoseconds, and the estimate below which entries are removed.
 */
module Threshold {
  import opened CacheTypes

  const MAX_INT64: int := 0x7FFF_FFFF_FFFF_FFFF
  const MIN_INT64: int := -0x8000_0000_0000_0000
  const NS_PER_S: int := 1_000_000_000

  /** Start values of a minimum and of a maximum. */
  const NEVER := Timespec(MAX_INT64, MAX_INT64)
  const EVER := Timespec(MIN_INT64, MIN_INT64)

  const APPROACHING_PERCENTAGE: int := 20
  const FIRST_PERCENTAGE: int := 70

  function Ns(t: Timespec): int {
    t.sec * NS_PER_S + t.nsec
  }

  lemma NsOrders(a: Timespec, b: Timespec)
    requires a.Normalised() && b.Normalised()
    ensures a.Before(b) <==> Ns(a) < Ns(b)
    ensures a == b <==> Ns(a) == Ns(b)
  {
  }

  /** Time from `a` to `b` in nanoseconds, computed without leaving the fields' ranges. */
  function Delta(a: Timespec, b: Timespec): int {
    if b.sec < a.sec then 0
    else if a.sec == b.sec then
      if b.nsec > a.nsec then b.nsec - a.nsec else 0
    else if b.nsec >= a.nsec then
      (b.sec - a.sec) * NS_PER_S + (b.nsec - a.nsec)
    else
      (b.sec - a.sec - 1) * NS_PER_S + (NS_PER_S - (a.nsec - b.nsec))
  }

  lemma DeltaIsDifference(a: Timespec, b: Timespec)
    requires a.Normalised() && b.Normalised()
    ensures Delta(a, b) == if b.Before(a) then 0 else Ns(b) - Ns(a)
  {
  }

  /** Adds microseconds and keeps the timestamp normalised. */
  method AddToTimespec(start: Timespec, us: nat) returns (t: Timespec)
    requires start.Normalised()
    ensures t.Normalised() && Ns(t) == Ns(start) + 1000 * us
  {
    var remainder := us % 1_000_000;
    t := start.(sec := start.sec + us / 1_000_000);
    var untilOverflow := NS_PER_S - 1000 * remainder;
    if untilOverflow > t.nsec {
      t := t.(nsec := t.nsec + 1000 * remainder);
    } else {
      t := Timespec(t.sec + 1, t.nsec - untilOverflow);
    }
  }

  /** The part of the age span, in whole microseconds, that is up for removal. */
  function Increment(min: Timespec, max: Timespec, percentage: int): int {
    Delta(min, max) / 1000 * percentage / 100
  }

  method ComputeThreshold(min: Timespec, max: Timespec, removedBefore: bool) returns (threshold: Timespec)
    requires min.Normalised() && max.Normalised() && !max.Before(min)
    ensures threshold.Normalised()
    ensures Ns(threshold) == Ns(min) +
      1000 * ((Ns(max) - Ns(min)) / 1000 * (if removedBefore then 20 else 70) / 100)
    ensures !threshold.Before(min) && !max.Before(threshold)
  {
    var percentage := if removedBefore then APPROACHING_PERCENTAGE else FIRST_PERCENTAGE;
    var delta := Delta(min, max);
    DeltaIsDifference(min, max);
    var estimate := delta / 1000 * percentage / 100;
    IncrementBounds(min, max, percentage);
    threshold := AddToTimespec(min, estimate);
    NsOrders(threshold, min);
    NsOrders(max, threshold);
  }

  lemma IncrementBounds(min: Timespec, max: Timespec, percentage: int)
    requires min.Normalised() && max.Normalised() && !max.Before(min) && 0 <= percentage <= 100
    ensures 0 <= 1000 * Increment(min, max, percentage) <= Ns(max) - Ns(min)
  {
    DeltaIsDifference(min, max);
    var us := Delta(min, max) / 1000;
    assert us * percentage <= us * 100 by {
      assert us * (100 - percentage) >= 0;
      assert us * 100 - us * percentage == us * (100 - percentage);
    }
    assert us * percentage >= 0;
  }

  predicate InInt64(n: int) {
    MIN_INT64 <= n <= MAX_INT64
  }

  /** Timestamps at most an int64 of nanoseconds apart never overflow on the way to the threshold. */
  lemma ThresholdFitsInt64(min: Timespec, max: Timespec, percentage: int)
    requires min.Normalised() && max.Normalised() && !max.Before(min) && 0 <= percentage <= 100
    requires InInt64(min.sec) && InInt64(max.sec) && InInt64(Ns(max) - Ns(min))
    ensures InInt64(Delta(min, max))
    ensures InInt64(Delta(min, max) / 1000 * percentage)
    ensures InInt64(min.sec + Increment(min, max, percentage) / 1_000_000)
  {
    DeltaIsDifference(min, max);
    var us := Delta(min, max) / 1000;
    assert 0 <= us * percentage <= us * 100 by {
      assert us * (100 - percentage) >= 0;
      assert us * 100 - us * percentage == us * (100 - percentage);
    }
    IncrementBounds(min, max, percentage);
    WholeSeconds(min, max, Increment(min, max, percentage));
  }

  lemma WholeSeconds(min: Timespec, max: Timespec, us: int)
    requires min.Normalised() && max.Normalised() && 0 <= 1000 * us <= Ns(max) - Ns(min)
    ensures min.sec <= min.sec + us / 1_000_000 <= max.sec
  {
  }

  // ---------- oldest and newest of a category ----------

  /** A time the kernel reports for a file. */
  predicate FileTime(t: Timespec) {
    t.Normalised() && MIN_INT64 < t.sec < MAX_INT64
  }

  ghost predicate FileTimes<K>(times: map<K, Timespec>) {
    forall k :: k in times ==> FileTime(times[k])
  }

  ghost predicate IsOldest<K>(t: Timespec, times: map<K, Timespec>) {
    && (exists k :: k in times && times[k] == t)
    && (forall k :: k in times ==> !times[k].Before(t))
  }

  ghost predicate IsNewest<K>(t: Timespec, times: map<K, Timespec>) {
    && (exists k :: k in times && times[k] == t)
    && (forall k :: k in times ==> !t.Before(times[k]))
  }

  datatype MinMax = MinMax(min: Timespec, max: Timespec) {
    /** Agrees with a recomputation over `times`. */
    ghost predicate Accurate<K>(times: map<K, Timespec>) {
      times != map[] ==> IsOldest(min, times) && IsNewest(max, times)
    }

    function With(t: Timespec): MinMax {
      MinMax(if t.Before(min) then t else min, if max.Before(t) then t else max)
    }
  }

  /** What a decimation pass reports about the entries it kept. */
  ghost predicate OldestOrNever<K>(t: Timespec, times: map<K, Timespec>) {
    if times == map[] then t == NEVER else IsOldest(t, times)
  }

  function CarryOver(mm: MinMax, oldest: Timespec): MinMax {
    if oldest.sec < MAX_INT64 then mm.(min := oldest) else mm
  }

  /** What a pass may remove: only entries older than its threshold. */
  ghost predicate Decimated<K>(before: map<K, Timespec>, after: map<K, Timespec>, threshold: Timespec) {
    && (forall k :: k in after ==> k in before && after[k] == before[k])
    && (forall k :: k in before && k !in after ==> before[k].Before(threshold))
  }

  /** The carried-over minimum and the old maximum are those of the remaining entries. */
  lemma CarriedOverIsAccurate<K>(mm: MinMax, before: map<K, Timespec>, after: map<K, Timespec>,
                                 threshold: Timespec, oldest: Timespec)
    requires FileTimes(before) && mm.Accurate(before) && Decimated(before, after, threshold)
    requires before != map[] ==> !mm.max.Before(threshold)
    requires OldestOrNever(oldest, after)
    ensures CarryOver(mm, oldest).Accurate(after)
  {
  }

  /** A non-empty category keeps its newest entry. */
  lemma NewestSurvives<K>(mm: MinMax, before: map<K, Timespec>, after: map<K, Timespec>, threshold: Timespec)
    requires before != map[] && mm.Accurate(before) && Decimated(before, after, threshold)
    requires !mm.max.Before(threshold)
    ensures after != map[] && exists k :: k in after && after[k] == mm.max
  {
  }
}
