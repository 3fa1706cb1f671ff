/** The logical clock that stamps what lookups use. */
module HotPath {
  import opened CacheTypes
  import opened Threshold

  class Timestamp {
    var sec: int
    var usec: int
    var overflown: bool

    ghost predicate Valid()
      reads this
    {
      0 <= usec < 1_000_000 && 0 <= sec <= MAX_INT64
    }

    /** The access time written to files. */
    function Stamp(): Timespec
      reads this
    {
      Timespec(sec, 1000 * usec)
    }

    constructor ()
      ensures Valid() && Stamp() == Timespec(0, 0) && !overflown
    {
      sec, usec, overflown := 0, 0, false;
    }

    method Reset()
      modifies this
      ensures Valid() && Stamp() == Timespec(0, 0) && !overflown
    {
      sec, usec, overflown := 0, 0, false;
    }

    /** Continues at a recorded time, or from zero. */
    method Restart(recorded: Option<Timespec>)
      requires recorded.Some? ==> recorded.value.Normalised() && 0 <= recorded.value.sec <= MAX_INT64
      modifies this
      ensures Valid()
      ensures recorded.Some? ==> !recorded.value.Before(Stamp()) && Ns(recorded.value) - Ns(Stamp()) < 1000
      ensures recorded.Some? && recorded.value.nsec % 1000 == 0 ==> Stamp() == recorded.value
      ensures recorded.None? ==> Stamp() == Timespec(0, 0)
    {
      if recorded.None? {
        Reset();
      } else {
        sec, usec := recorded.value.sec, recorded.value.nsec / 1000;
      }
    }

    /** Until it overflows, the clock strictly advances, by one microsecond. */
    method Increment() returns (ok: bool)
      requires Valid()
      modifies this
      ensures Valid() && ok == !overflown
      ensures !overflown ==> Ns(Stamp()) == Ns(old(Stamp())) + 1000 && old(Stamp()).Before(Stamp())
      ensures overflown <==> old(overflown) || (old(sec) == MAX_INT64 && old(usec) == 999_999)
    {
      if overflown {
        return false;
      }
      usec := usec + 1;
      if usec < 1_000_000 {
        return true;
      }
      usec := 0;
      if sec < MAX_INT64 {
        sec := sec + 1;
      } else {
        overflown := true;
      }
      return !overflown;
    }
  }
}
