/** The retry policy of an output (pkg/ffstream/sender_factory.go). Times are in nanoseconds; `None` is Go's zero time. */
module RetryWindow {
  import opened Basics

  const SLEEP := 100_000_000

  /** What the output kernel reports: it was opened, or it failed at the given time. */
  datatype Event = Opened | Failed(now: int)

  datatype Decision = Retry | GiveUp

  /** The two callbacks of a retryable output and the variable they share. */
  class RetryableOutput {
    const retryTimeout: int
    var errorsStartedAt: Option<int>
    ghost var history: seq<Event>

    ghost predicate Valid()
      reads this
    {
      errorsStartedAt == StreakStart(history)
    }

    constructor (retryTimeout: int)
      ensures Valid() && this.retryTimeout == retryTimeout && history == []
    {
      this.retryTimeout, errorsStartedAt, history := retryTimeout, None, [];
    }

    /** `slept` is how long the callback waits before it asks for another try. */
    method OnError(now: int) returns (decision: Decision, slept: int)
      requires Valid()
      modifies this
      ensures Valid() && history == old(history) + [Failed(now)]
      ensures decision == Decide(retryTimeout, old(history), now)
      ensures slept == if decision == Retry then 100_000_000 else 0
    {
      if errorsStartedAt == None {
        errorsStartedAt := Some(now);
      }
      history := history + [Failed(now)];
      assert history[..|history| - 1] == old(history);
      if now - errorsStartedAt.value > retryTimeout {
        return GiveUp, 0;
      }
      return Retry, SLEEP;
    }

    method OnKernelOpen()
      requires Valid()
      modifies this
      ensures Valid() && history == old(history) + [Opened]
    {
      errorsStartedAt := None;
      history := history + [Opened];
      assert history[..|history| - 1] == old(history);
    }
  }

  /** The time of the first failure since the last successful open. */
  function StreakStart(history: seq<Event>): Option<int> {
    if history == [] then None
    else
      var before := StreakStart(history[..|history| - 1]);
      match history[|history| - 1]
      case Opened => None
      case Failed(now) => if before == None then Some(now) else before
  }

  function Decide(timeout: int, history: seq<Event>, now: int): Decision {
    match StreakStart(history)
    case None => if 0 > timeout then GiveUp else Retry
    case Some(start) => if now - start > timeout then GiveUp else Retry
  }

  // ----- what the decisions mean over a whole run -----

  /** Failure `first` begins the streak that failure `k` belongs to: no open in between, and an open, or nothing, before. */
  ghost predicate BeginsStreak(run: seq<Event>, first: nat, k: nat) {
    && first <= k < |run|
    && (forall i :: first <= i <= k ==> run[i].Failed?)
    && (first > 0 ==> run[first - 1].Opened?)
  }

  lemma {:induction false} StreakStartMeans(run: seq<Event>, first: nat, k: nat)
    requires BeginsStreak(run, first, k)
    ensures StreakStart(run[..k + 1]) == Some(run[first].now)
    ensures StreakStart(run[..k]) == if k == first then None else Some(run[first].now)
    decreases k
  {
    assert run[..k + 1][..k] == run[..k];
    if k > first {
      StreakStartMeans(run, first, k - 1);
    } else if k > 0 {
      assert run[..k][k - 1] == run[k - 1];
    }
  }

  /** Every failure belongs to exactly one streak. */
  lemma {:induction false} StreakExists(run: seq<Event>, k: nat) returns (first: nat)
    requires k < |run| && run[k].Failed?
    ensures BeginsStreak(run, first, k)
    ensures forall f: nat :: BeginsStreak(run, f, k) ==> f == first
    decreases k
  {
    if k == 0 || run[k - 1].Opened? {
      first := k;
      forall f: nat | BeginsStreak(run, f, k) ensures f == first {
        assert k > 0 ==> run[k - 1].Opened?;
      }
    } else {
      first := StreakExists(run, k - 1);
      forall f: nat | BeginsStreak(run, f, k) ensures f == first {
        if f < k { assert BeginsStreak(run, f, k - 1); }
      }
    }
  }

  /** A failure is retried exactly if it comes at most `timeout` after the first failure since the last open. */
  lemma RetriedWithinTimeout(timeout: int, run: seq<Event>, first: nat, k: nat)
    requires BeginsStreak(run, first, k)
    ensures Decide(timeout, run[..k], run[k].now) == Retry <==> run[k].now - run[first].now <= timeout
  {
    StreakStartMeans(run, first, k);
  }

  ghost predicate ClockRuns(run: seq<Event>) {
    forall i, j :: 0 <= i < j < |run| && run[i].Failed? && run[j].Failed? ==> run[i].now <= run[j].now
  }

  /** Once refused, every later failure is refused, until the next successful open. */
  lemma RefusalPersists(timeout: int, run: seq<Event>, j: nat, k: nat)
    requires ClockRuns(run) && j <= k < |run| && forall i :: j <= i <= k ==> run[i].Failed?
    requires Decide(timeout, run[..j], run[j].now) == GiveUp
    ensures Decide(timeout, run[..k], run[k].now) == GiveUp
  {
    var first := StreakExists(run, j);
    assert BeginsStreak(run, first, k);
    RetriedWithinTimeout(timeout, run, first, j);
    RetriedWithinTimeout(timeout, run, first, k);
  }

  // ----- how many retries a streak can get -----

  function Failures(times: seq<int>): (events: seq<Event>)
    ensures |events| == |times|
  {
    seq(|times|, i requires 0 <= i < |times| => Failed(times[i]))
  }

  /** The callback's answer to failure number `i` of a streak that follows `prior`. */
  function Answer(timeout: int, prior: seq<Event>, times: seq<int>, i: nat): Decision
    requires i < |times|
  {
    Decide(timeout, prior + Failures(times[..i]), times[i])
  }

  /** The clock does not run backwards, and a granted retry sleeps before it can fail again. */
  ghost predicate Paced(timeout: int, prior: seq<Event>, times: seq<int>) {
    forall i :: 0 < i < |times| ==>
      && times[i - 1] <= times[i]
      && (Answer(timeout, prior, times, i - 1) == Retry ==> times[i - 1] + SLEEP <= times[i])
  }

  /** How many of the first `n` failures are retried. */
  function Retries(timeout: int, prior: seq<Event>, times: seq<int>, n: nat): nat
    requires n <= |times|
  {
    if n == 0 then 0
    else Retries(timeout, prior, times, n - 1) + (if Answer(timeout, prior, times, n - 1) == Retry then 1 else 0)
  }

  lemma AnswerInStreak(timeout: int, prior: seq<Event>, times: seq<int>, i: nat)
    requires i < |times| && (prior != [] ==> prior[|prior| - 1].Opened?)
    ensures Answer(timeout, prior, times, i) == Retry <==> times[i] - times[0] <= timeout
  {
    var run := prior + Failures(times);
    assert BeginsStreak(run, |prior|, |prior| + i);
    assert run[..|prior| + i] == prior + Failures(times[..i]);
    RetriedWithinTimeout(timeout, run, |prior|, |prior| + i);
  }

  /** The retries of a streak are its first failures, and the last of them comes that many sleeps, less one, after the first failure. */
  lemma {:induction false} RetriesSpread(timeout: int, prior: seq<Event>, times: seq<int>, n: nat)
    requires 0 < n <= |times| && Paced(timeout, prior, times) && (prior != [] ==> prior[|prior| - 1].Opened?)
    ensures var k := Retries(timeout, prior, times, n);
            && k <= n
            && (k < n ==> times[n - 1] - times[0] > timeout)
            && (k > 0 ==> times[k - 1] - times[0] <= timeout && (k - 1) * SLEEP <= times[k - 1] - times[0])
  {
    AnswerInStreak(timeout, prior, times, n - 1);
    if n > 1 {
      RetriesSpread(timeout, prior, times, n - 1);
      AnswerInStreak(timeout, prior, times, n - 2);
      assert times[n - 2] <= times[n - 1];
    } else {
      assert Retries(timeout, prior, times, 0) == 0;
    }
  }

  /** Between two opens a timeout grants at most one retry, and one more per full sleep it is long; a negative one grants none. */
  lemma RetryBound(timeout: int, prior: seq<Event>, times: seq<int>)
    requires Paced(timeout, prior, times) && (prior != [] ==> prior[|prior| - 1].Opened?)
    ensures timeout >= 0 ==> Retries(timeout, prior, times, |times|) <= timeout / 100_000_000 + 1
    ensures timeout < 0 ==> Retries(timeout, prior, times, |times|) == 0
  {
    if times != [] {
      RetriesSpread(timeout, prior, times, |times|);
    }
  }

  /** The bound is reached: failing again right after every sleep gets that many retries. */
  lemma {:induction false} BoundIsReached(timeout: nat, prior: seq<Event>, n: nat)
    requires n <= timeout / 100_000_000 + 1 && (prior != [] ==> prior[|prior| - 1].Opened?)
    ensures exists times: seq<int> :: |times| == n && Paced(timeout, prior, times) && Retries(timeout, prior, times, n) == n
  {
    var times: seq<int> := seq(n, i => i * SLEEP);
    forall i | 0 <= i < n ensures Answer(timeout, prior, times, i) == Retry {
      AnswerInStreak(timeout, prior, times, i);
    }
    AllRetried(timeout, prior, times, n);
  }

  lemma {:induction false} AllRetried(timeout: int, prior: seq<Event>, times: seq<int>, n: nat)
    requires n <= |times| && forall i :: 0 <= i < |times| ==> Answer(timeout, prior, times, i) == Retry
    ensures Retries(timeout, prior, times, n) == n
  {
    if n > 0 {
      AllRetried(timeout, prior, times, n - 1);
    }
  }
}
