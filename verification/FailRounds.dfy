/** How many rounds a loop may take that gives up after three idle rounds in a row. */
module FailRounds {

  const MAX_FAIL_ROUNDS: nat := 2

  function Sum(counts: seq<int>): int {
    if counts == [] then 0 else Sum(Init(counts)) + Last(counts)
  }

  function Init(counts: seq<int>): seq<int>
    requires counts != []
  {
    counts[..|counts| - 1]
  }

  function Last(counts: seq<int>): int
    requires counts != []
  {
    counts[|counts| - 1]
  }

  /** Rounds that may still be idle after rounds that removed so much. */
  function FailsLeft(counts: seq<int>): int {
    if counts == [] || Last(counts) > 0 then MAX_FAIL_ROUNDS else FailsLeft(Init(counts)) - 1
  }

  /** No round but the last one used up the last failure. */
  predicate Continues(counts: seq<int>) {
    counts == [] || (FailsLeft(Init(counts)) >= 0 && Continues(Init(counts)))
  }

  predicate NoneNegative(counts: seq<int>) {
    forall i :: 0 <= i < |counts| ==> counts[i] >= 0
  }

  /** Each round removes something or uses up a failure. */
  lemma {:induction false} PaidFor(counts: seq<int>)
    requires Continues(counts) && NoneNegative(counts)
    ensures -1 <= FailsLeft(counts) <= MAX_FAIL_ROUNDS && Sum(counts) >= 0
    ensures |counts| <= 3 * Sum(counts) + MAX_FAIL_ROUNDS - FailsLeft(counts)
  {
    if counts != [] {
      PaidFor(Init(counts));
    }
  }

  lemma LastIdle(counts: seq<int>)
    requires Continues(counts) && NoneNegative(counts) && FailsLeft(counts) < MAX_FAIL_ROUNDS
    ensures counts != [] && Last(counts) == 0
    ensures Continues(Init(counts)) && NoneNegative(Init(counts)) && FailsLeft(Init(counts)) == FailsLeft(counts) + 1
  {
  }

  /** As many rounds were idle at the end as failures are used up. */
  lemma {:induction false} IdleAtEnd(counts: seq<int>)
    requires Continues(counts) && NoneNegative(counts)
    ensures var idle := MAX_FAIL_ROUNDS - FailsLeft(counts);
      0 <= idle <= |counts| && forall i :: |counts| - idle <= i < |counts| ==> counts[i] == 0
  {
    PaidFor(counts);
    if FailsLeft(counts) < MAX_FAIL_ROUNDS {
      LastIdle(counts);
      IdleAtEnd(Init(counts));
    }
  }

  /** Giving up means that the last three rounds were idle. */
  lemma Idle(counts: seq<int>)
    requires Continues(counts) && NoneNegative(counts) && FailsLeft(counts) < 0
    ensures |counts| >= 3 && forall i :: |counts| - 3 <= i < |counts| ==> counts[i] == 0
  {
    PaidFor(counts);
    IdleAtEnd(counts);
  }

  lemma OneMoreRound(counts: seq<int>, n: int)
    requires Continues(counts) && FailsLeft(counts) >= 0
    ensures Continues(counts + [n]) && Sum(counts + [n]) == Sum(counts) + n
    ensures FailsLeft(counts + [n]) == if n > 0 then MAX_FAIL_ROUNDS else FailsLeft(counts) - 1
  {
    assert Init(counts + [n]) == counts;
  }
}
