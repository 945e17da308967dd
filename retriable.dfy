/** The retry loop of `makeRetriable`. The original function's calls are given as the
    outcome each trial would have, in trial order; waiting between trials is not performed
    but recorded as a log of sleep requests. */
module Retriable {

  /** What one call of the original function does: return a value or throw an error. */
  datatype Trial<T, X> = Returned(value: T) | Threw(error: X)

  /** `sleepTimeBetweenTrials`: a fixed time, or one computed from the 0-based index of the
      trial that has just failed. */
  datatype SleepTime = Fixed(ms: int) | Computed(f: nat -> int)

  /** A request to sleep ms milliseconds after the failed trial with 0-based index
      lastTrialIndex. */
  datatype SleepRequest = SleepRequest(lastTrialIndex: nat, ms: int)

  /** `RetriableResult`: the trial count and collected errors, plus the value on success. */
  datatype RetriableResult<T, X> =
    | Succeeded(trialCount: nat, errors: seq<X>, value: T)
    | Failed(trialCount: nat, errors: seq<X>)
  {
    predicate HasSucceeded()
    {
      Succeeded?
    }
  }

  /** The sleep time requested after the trial with 0-based index i has failed. */
  function SleepTimeAfter(s: SleepTime, i: nat): (ms: int)
    ensures s.Fixed? ==> ms == s.ms
    ensures s.Computed? ==> ms == s.f(i)
  {
    match s
    case Fixed(ms) => ms
    case Computed(f) => f(i)
  }

  /** The number of trials the configuration allows: the first call always happens, and the
      loop stops once `trialCount >= maxTrialCount`. */
  function TrialLimit(maxTrialCount: int): (m: nat)
    ensures m >= 1 && m >= maxTrialCount
    ensures maxTrialCount >= 1 ==> m == maxTrialCount
  {
    if maxTrialCount < 1 then 1 else maxTrialCount
  }

  /** The 0-based index of the first trial that returns, or |trials| when none does. */
  function FirstSuccess<T, X>(trials: seq<Trial<T, X>>): (k: nat)
    ensures k <= |trials|
    ensures forall j :: 0 <= j < k ==> trials[j].Threw?
    ensures k < |trials| ==> trials[k].Returned?
  {
    if trials == [] then 0
    else if trials[0].Returned? then 0
    else 1 + FirstSuccess(trials[1..])
  }

  /** The errors thrown by the given trials, in trial order. */
  function ErrorsOf<T, X>(trials: seq<Trial<T, X>>): seq<X>
  {
    if trials == [] then []
    else ErrorsOf(trials[..|trials| - 1]) + (if trials[|trials| - 1].Threw? then [trials[|trials| - 1].error] else [])
  }

  /** Trials that all threw contribute one error each, in order. */
  lemma {:induction false} ErrorsOfThrown<T, X>(trials: seq<Trial<T, X>>)
    requires forall j :: 0 <= j < |trials| ==> trials[j].Threw?
    ensures |ErrorsOf(trials)| == |trials|
    ensures forall j :: 0 <= j < |trials| ==> ErrorsOf(trials)[j] == trials[j].error
  {
    if trials != [] {
      ErrorsOfThrown(trials[..|trials| - 1]);
    }
  }

  /** `await retriable(...)`. Returns the retriable result and the sleeps requested. The
      sequence is required to hold an outcome for every trial the limit allows. */
  method Run<T, X>(trials: seq<Trial<T, X>>, maxTrialCount: int, sleepTime: SleepTime, returnErrors: bool)
    returns (res: RetriableResult<T, X>, sleeps: seq<SleepRequest>)
    requires |trials| >= TrialLimit(maxTrialCount)
    ensures var m := TrialLimit(maxTrialCount);
      var k := FirstSuccess(trials[..m]);
      if k < m then
        res == Succeeded(k + 1, if returnErrors then ErrorsOf(trials[..k]) else [], trials[k].value)
      else
        res == Failed(m, if returnErrors then ErrorsOf(trials[..m]) else [])
    ensures 1 <= res.trialCount <= TrialLimit(maxTrialCount)
    ensures returnErrors && res.Succeeded? ==> |res.errors| == res.trialCount - 1
    ensures returnErrors && res.Failed? ==> |res.errors| == res.trialCount
    ensures returnErrors ==> forall j :: 0 <= j < |res.errors| ==> res.errors[j] == trials[j].error
    ensures !returnErrors ==> res.errors == []
    ensures |sleeps| == res.trialCount - 1
    ensures forall i :: 0 <= i < |sleeps| ==> sleeps[i] == SleepRequest(i, SleepTimeAfter(sleepTime, i))
  {
    ghost var m := TrialLimit(maxTrialCount);
    var trialCount := 0;
    var errors := [];
    sleeps := [];
    while true
      invariant 0 <= trialCount < m
      invariant forall j :: 0 <= j < trialCount ==> trials[j].Threw?
      invariant errors == if returnErrors then ErrorsOf(trials[..trialCount]) else []
      invariant |sleeps| == trialCount
      invariant forall i :: 0 <= i < |sleeps| ==> sleeps[i] == SleepRequest(i, SleepTimeAfter(sleepTime, i))
      decreases m - trialCount
    {
      ErrorsOfThrown(trials[..trialCount]);
      match trials[trialCount]
      case Returned(value) =>
        trialCount := trialCount + 1;
        res := Succeeded(trialCount, errors, value);
        PrefixFirstSuccess(trials[..m], trialCount - 1);
        return;
      case Threw(err) =>
        trialCount := trialCount + 1;
        if returnErrors {
          assert trials[..trialCount] == trials[..trialCount - 1] + [trials[trialCount - 1]];
          errors := errors + [err];
        }
        if trialCount >= maxTrialCount {
          res := Failed(trialCount, errors);
          ErrorsOfThrown(trials[..trialCount]);
          PrefixFirstSuccess(trials[..m], trialCount);
          return;
        }
        var ms := SleepTimeAfter(sleepTime, trialCount - 1);
        sleeps := sleeps + [SleepRequest(trialCount - 1, ms)];
    }
  }

  /** The first success is at k when the trials before k threw and trial k returned (or k is
      the end). */
  lemma {:induction false} PrefixFirstSuccess<T, X>(trials: seq<Trial<T, X>>, k: nat)
    requires k <= |trials|
    requires forall j :: 0 <= j < k ==> trials[j].Threw?
    requires k < |trials| ==> trials[k].Returned?
    ensures FirstSuccess(trials) == k
  {
    if k > 0 {
      PrefixFirstSuccess(trials[1..], k - 1);
    }
  }
}
