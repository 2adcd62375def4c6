/** From hourly counts to a verdict, and from a verdict to an action. */
module Evaluator {
  import opened Wrappers
  import opened GoTypes
  import opened Contracts

  datatype Policy = Policy(
    lowThreshold: int64, lowWindowHours: int64,
    highThreshold: int64, highWindowHours: int64, highIncludeCurrent: bool)

  datatype Evaluation = Evaluation(
    hour: Time, lastModified: Time,
    lowCounts: seq<int64>, lowCoverage: seq<bool>, highCounts: seq<int64>)

  datatype Verdict = Verdict(low: bool, high: bool, coverageComplete: bool)

  datatype EvaluationError = InvalidPolicy | MismatchedUsage | NegativeCount | CountOverflow

  function Sum(counts: seq<int>): int {
    if counts == [] then 0 else Sum(counts[..|counts| - 1]) + counts[|counts| - 1]
  }

  ghost predicate NonNegative(counts: seq<int>) {
    forall i :: 0 <= i < |counts| ==> counts[i] >= 0
  }

  /** The true sum; it exists as an int64. */
  ghost predicate Summable(counts: seq<int>) {
    NonNegative(counts) && Sum(counts) <= MAX_INT64
  }

  lemma SumExtends(counts: seq<int>, i: nat)
    requires i < |counts|
    ensures Sum(counts[..i + 1]) == Sum(counts[..i]) + counts[i]
  {
    assert counts[..i + 1][..i] == counts[..i];
  }

  /** Sums of non-negative counts only grow, so an overflow on the way is an overflow of the total. */
  lemma {:induction false} PrefixSumBound(counts: seq<int>, i: nat)
    requires i <= |counts| && NonNegative(counts)
    ensures 0 <= Sum(counts[..i]) <= Sum(counts)
    decreases |counts|
  {
    if i == |counts| {
      assert counts[..i] == counts;
      if i > 0 {
        PrefixSumBound(counts[..i - 1], i - 1);
        assert counts[..i - 1][..i - 1] == counts[..i - 1];
      }
    } else {
      PrefixSumBound(counts[..|counts| - 1], i);
      assert counts[..|counts| - 1][..i] == counts[..i];
    }
  }

  /** Fails exactly for a negative count or a true total beyond an int64, and otherwise is exact. */
  method SumCounts(counts: seq<int64>) returns (r: Result<int64, EvaluationError>)
    ensures r.Ok? <==> Summable(counts)
    ensures r.Ok? ==> r.value == Sum(counts)
    ensures r.Err? ==> r.error == NegativeCount || r.error == CountOverflow
    ensures NonNegative(counts) ==> (r == Err(CountOverflow) <==> Sum(counts) > MAX_INT64)
  {
    var total: int64 := 0;
    for i := 0 to |counts|
      invariant total == Sum(counts[..i]) && NonNegative(counts[..i]) && 0 <= total
    {
      var count := counts[i];
      if count < 0 {
        return Err(NegativeCount);
      }
      SumExtends(counts, i);
      if count > MAX_INT64 - total {
        if NonNegative(counts) {
          PrefixSumBound(counts, i + 1);
        }
        return Err(CountOverflow);
      }
      total := total + count;
    }
    assert counts[..|counts|] == counts;
    r := Ok(total);
  }

  ghost predicate AllCovered(coverage: seq<bool>) {
    forall i :: 0 <= i < |coverage| ==> coverage[i]
  }

  predicate ValidPolicy(policy: Policy) {
    policy.lowThreshold >= 0 && policy.highThreshold >= 0 && policy.lowWindowHours > 0 && policy.highWindowHours > 0
  }

  predicate Matches(input: Evaluation, policy: Policy) {
    |input.lowCounts| == policy.lowWindowHours && |input.lowCoverage| == policy.lowWindowHours &&
    |input.highCounts| == policy.highWindowHours
  }

  /** The object has existed for the whole low window. */
  predicate OldEnough(input: Evaluation, policy: Policy) {
    input.lastModified <= Truncate(input.hour, HOUR) - policy.lowWindowHours * HOUR
  }

  lemma WindowIsDuration(hours: int)
    requires 0 <= hours <= MAX_WINDOW
    ensures Wrap(Wrap(-hours) * HOUR) == -(hours * HOUR)
  {
    assert hours * HOUR <= MAX_WINDOW * HOUR <= MAX_INT64;
    assert Wrap(-hours) == -hours;
    assert -hours * HOUR == -(hours * HOUR);
  }

  method Evaluate(input: Evaluation, policy: Policy) returns (r: Result<Verdict, EvaluationError>)
    ensures r.Ok? <==>
              && policy.lowThreshold >= 0 && policy.highThreshold >= 0 && policy.lowWindowHours > 0 && policy.highWindowHours > 0
              && Matches(input, policy) && Summable(input.lowCounts) && Summable(input.highCounts)
    ensures r.Ok? ==> r.value.coverageComplete == AllCovered(input.lowCoverage)
    ensures r.Ok? ==> r.value.high == (Sum(input.highCounts) > policy.highThreshold)
    ensures r.Ok? && policy.lowWindowHours <= MAX_WINDOW ==>
              r.value.low == (AllCovered(input.lowCoverage) && OldEnough(input, policy) && Sum(input.lowCounts) < policy.lowThreshold)
    ensures r.Ok? && r.value.low ==> AllCovered(input.lowCoverage) && Sum(input.lowCounts) < policy.lowThreshold
  {
    if policy.lowThreshold < 0 || policy.highThreshold < 0 || policy.lowWindowHours <= 0 || policy.highWindowHours <= 0 {
      return Err(InvalidPolicy);
    }
    if |input.lowCounts| != policy.lowWindowHours || |input.lowCoverage| != policy.lowWindowHours ||
       |input.highCounts| != policy.highWindowHours {
      return Err(MismatchedUsage);
    }
    var lowSum := SumCounts(input.lowCounts);
    if lowSum.Err? {
      return Err(lowSum.error);
    }
    var highSum := SumCounts(input.highCounts);
    if highSum.Err? {
      return Err(highSum.error);
    }
    var complete := true;
    for i := 0 to |input.lowCoverage|
      invariant complete == AllCovered(input.lowCoverage[..i])
    {
      assert input.lowCoverage[..i + 1] == input.lowCoverage[..i] + [input.lowCoverage[i]];
      complete := complete && input.lowCoverage[i];
    }
    assert input.lowCoverage[..|input.lowCoverage|] == input.lowCoverage;
    if policy.lowWindowHours <= MAX_WINDOW {
      WindowIsDuration(policy.lowWindowHours);
    }
    var hour := Truncate(input.hour, HOUR);
    var oldEnough := !(input.lastModified > hour + Wrap(Wrap(-policy.lowWindowHours) * HOUR));
    r := Ok(Verdict(complete && oldEnough && lowSum.value < policy.lowThreshold,
                    highSum.value > policy.highThreshold, complete));
  }

  datatype RestoreState = RestoreState(ongoing: bool, expires: Time)

  datatype ObjectState = ObjectState(transitioned: bool, restore: Option<RestoreState>)

  datatype Action = NoAction | Mark | Restore | Renew

  /** An object that can be read at once: never transitioned, or restored for now. */
  predicate Readable(state: ObjectState, now: Time) {
    !state.transitioned || (state.restore.Some? && !state.restore.value.ongoing && state.restore.value.expires > now)
  }

  predicate RestoreRunning(state: ObjectState) {
    state.restore.Some? && state.restore.value.ongoing
  }

  /**
   Only an untransitioned object with a low verdict is marked; a transitioned object with a high
   verdict is renewed exactly when it is readable, and restored exactly when it is neither
   readable nor being restored.
   */
  function DecideAction(state: ObjectState, low: bool, high: bool, now: Time): (a: Action)
    ensures a == Mark <==> !state.transitioned && low
    ensures a == Renew <==> state.transitioned && high && Readable(state, now)
    ensures a == Restore <==> state.transitioned && high && !Readable(state, now) && !RestoreRunning(state)
  {
    if !state.transitioned then (if low then Mark else NoAction)
    else if !high || (state.restore.Some? && state.restore.value.ongoing) then NoAction
    else if state.restore.Some? && state.restore.value.expires > now then Renew
    else Restore
  }
}
