/**
 * The sequential logic of the asynchronous admin interface: the polling
 * loop that waits for the cluster to reach a state (`loop`, `waitCluster`)
 * and the broker-to-folder projection (`brokerFolders`).
 *
 * The supplier that `loop` polls is modelled by a trace: `trace[i]` is what
 * the i-th evaluation of the supplier yields and how much wall time passed
 * from the start of that step until after its pause. The clock and the pause
 * are therefore inputs. When the loop needs more evaluations than the trace
 * holds, the outcome is `Pending`: the trace was only a prefix of what the
 * environment will answer.
 */
module AsyncAdmin {
  import opened Collectors

  /** The pause between two evaluations, in milliseconds. */
  const PollIntervalMs: int := 300

  /**
   * A failed completion stage: whether the failure is a CompletionException,
   * and whether its cause is one of the client's retriable errors.
   */
  datatype Failure = Failure(isCompletionException: bool, causeIsRetriable: bool)

  /** What one evaluation of the supplier completes with. */
  datatype Poll = Observed(matched: bool) | Failed(failure: Failure)

  /** One evaluation, and the wall time it took including the pause after it. */
  datatype Step = Step(poll: Poll, elapsedMs: int)

  /** How the loop's completion stage completes. */
  datatype Outcome = Done(converged: bool) | Raised(failure: Failure) | Pending

  /** The outcome, and how many entries of the trace have been evaluated by then. */
  datatype LoopResult = LoopResult(outcome: Outcome, consumed: nat)

  /**
   * `AsyncAdmin.loop(supplier, remainingMs, debounce, remainingDebounce)`,
   * where the supplier's next answers are `trace[next..]`.
   */
  function Loop(trace: seq<Step>, next: nat, remainingMs: int, debounce: int, remainingDebounce: int): (r: LoopResult)
    requires next <= |trace|
    ensures next <= r.consumed <= |trace|
    ensures remainingMs <= 0 ==> r == LoopResult(Done(false), next)
    ensures remainingMs > 0 && next < |trace| && trace[next].poll == Observed(true) && remainingDebounce <= 0
            ==> r == LoopResult(Done(true), next + 1)
    ensures r.outcome == Done(true) ==> next < r.consumed && trace[r.consumed - 1].poll == Observed(true)
    ensures r.outcome.Raised? ==> next < r.consumed && trace[r.consumed - 1].poll == Failed(r.outcome.failure)
    ensures r.outcome.Pending? ==> r.consumed == |trace|
    decreases |trace| - next
  {
    if remainingMs <= 0 then LoopResult(Done(false), next)
    else if next == |trace| then LoopResult(Pending, next)
    else
      match trace[next].poll
      case Failed(e) => LoopResult(Raised(e), next + 1)
      case Observed(matched) =>
        if matched && remainingDebounce <= 0 then LoopResult(Done(true), next + 1)
        else
          var remaining := remainingMs - trace[next].elapsedMs;
          if matched then Loop(trace, next + 1, remaining, debounce, remainingDebounce - 1)
          else Loop(trace, next + 1, remaining, debounce, debounce)
  }

  // ---------------------------------------------------------------------------
  // A reference description of the loop, in terms of the whole trace.

  /** Number of consecutive `true` observations that end just before index `n`. */
  function RunBefore(trace: seq<Step>, n: nat): (k: nat)
    requires n <= |trace|
    ensures k <= n
  {
    if n == 0 || trace[n - 1].poll != Observed(true) then 0 else 1 + RunBefore(trace, n - 1)
  }

  /** Wall time spent in the first `n` steps. */
  function Elapsed(trace: seq<Step>, n: nat): int
    requires n <= |trace|
  {
    if n == 0 then 0 else Elapsed(trace, n - 1) + trace[n - 1].elapsedMs
  }

  /** Budget left on entry to step `i` of a wait that started with `timeoutMs`. */
  function BudgetAt(trace: seq<Step>, timeoutMs: int, i: nat): int
    requires i <= |trace|
  {
    timeoutMs - Elapsed(trace, i)
  }

  /** Step `i` observes `true` and completes a run of more than `debounce` of them. */
  predicate Settles(trace: seq<Step>, debounce: int, i: nat)
    requires i < |trace|
  {
    trace[i].poll == Observed(true) && RunBefore(trace, i + 1) > debounce
  }

  /** Step `i` is evaluated within the budget and the wait goes on after it. */
  predicate Proceeds(trace: seq<Step>, timeoutMs: int, debounce: int, i: nat)
    requires i < |trace|
  {
    BudgetAt(trace, timeoutMs, i) > 0 && trace[i].poll.Observed? && !Settles(trace, debounce, i)
  }

  /**
   * What a wait with budget `timeoutMs` and count `debounce` ends with,
   * described without the loop: every step before the last one evaluated
   * proceeds, and the last one explains the outcome.
   */
  predicate Explains(trace: seq<Step>, timeoutMs: int, debounce: int, r: LoopResult) {
    && r.consumed <= |trace|
    && match r.outcome
       case Done(true) =>
         && 0 < r.consumed
         && (forall i :: 0 <= i < r.consumed - 1 ==> Proceeds(trace, timeoutMs, debounce, i))
         && BudgetAt(trace, timeoutMs, r.consumed - 1) > 0 && Settles(trace, debounce, r.consumed - 1)
       case Raised(e) =>
         && 0 < r.consumed
         && (forall i :: 0 <= i < r.consumed - 1 ==> Proceeds(trace, timeoutMs, debounce, i))
         && BudgetAt(trace, timeoutMs, r.consumed - 1) > 0 && trace[r.consumed - 1].poll == Failed(e)
       case Done(false) =>
         && (forall i :: 0 <= i < r.consumed ==> Proceeds(trace, timeoutMs, debounce, i))
         && BudgetAt(trace, timeoutMs, r.consumed) <= 0
       case Pending =>
         && r.consumed == |trace|
         && (forall i :: 0 <= i < r.consumed ==> Proceeds(trace, timeoutMs, debounce, i))
         && BudgetAt(trace, timeoutMs, r.consumed) > 0
  }

  /**
   * The loop entered at step `next` after the steps before it all proceeded
   * carries the budget left after them and a countdown that is `debounce`
   * minus the run of `true` observations just before `next`: a `true` that
   * does not finish the wait lowers the countdown by one, a `false` puts it
   * back to `debounce`.
   */
  lemma {:induction false} LoopFollowsTrace(trace: seq<Step>, timeoutMs: int, debounce: int, next: nat)
    requires next <= |trace|
    requires forall i :: 0 <= i < next ==> Proceeds(trace, timeoutMs, debounce, i)
    ensures Explains(trace, timeoutMs, debounce,
              Loop(trace, next, BudgetAt(trace, timeoutMs, next), debounce, debounce - RunBefore(trace, next)))
    decreases |trace| - next
  {
    var ms, rd := BudgetAt(trace, timeoutMs, next), debounce - RunBefore(trace, next);
    var r := Loop(trace, next, ms, debounce, rd);
    if ms > 0 && next < |trace| && trace[next].poll.Observed? {
      var matched := trace[next].poll.matched;
      assert Settles(trace, debounce, next) <==> matched && rd <= 0;
      if !(matched && rd <= 0) {
        assert Proceeds(trace, timeoutMs, debounce, next);
        LoopFollowsTrace(trace, timeoutMs, debounce, next + 1);
        assert BudgetAt(trace, timeoutMs, next + 1) == ms - trace[next].elapsedMs;
        if matched {
          assert debounce - RunBefore(trace, next + 1) == rd - 1;
        } else {
          assert debounce - RunBefore(trace, next + 1) == debounce;
        }
      }
    }
  }

  /** The reference description holds of every wait started as `waitCluster` starts it. */
  lemma LoopExplained(trace: seq<Step>, timeoutMs: int, debounce: int)
    ensures Explains(trace, timeoutMs, debounce, Loop(trace, 0, timeoutMs, debounce, debounce))
  {
    LoopFollowsTrace(trace, timeoutMs, debounce, 0);
  }

  /** A run of at least `k` trues before `n` means the last `k` observations were true. */
  lemma {:induction false} RunMeansTrue(trace: seq<Step>, n: nat, k: nat)
    requires n <= |trace| && k <= RunBefore(trace, n)
    ensures forall i :: n - k <= i < n ==> trace[i].poll == Observed(true)
  {
    if k > 0 {
      RunMeansTrue(trace, n - 1, k - 1);
    }
  }

  /** How many consecutive `true` observations a successful wait has seen at least. */
  function Window(debounce: int): nat {
    if debounce < 0 then 1 else debounce + 1
  }

  /**
   * A wait that converges has just seen `debounce + 1` consecutive `true`
   * observations (one when `debounce` is negative), all of them within the
   * budget.
   */
  lemma LoopConvergesOnlyAfterDebounce(trace: seq<Step>, timeoutMs: int, debounce: int)
    ensures var r := Loop(trace, 0, timeoutMs, debounce, debounce);
      r.outcome == Done(true) ==>
        && Window(debounce) <= r.consumed
        && (forall i :: r.consumed - Window(debounce) <= i < r.consumed ==> trace[i].poll == Observed(true))
        && BudgetAt(trace, timeoutMs, r.consumed - 1) > 0
  {
    var r := Loop(trace, 0, timeoutMs, debounce, debounce);
    LoopExplained(trace, timeoutMs, debounce);
    if r.outcome == Done(true) {
      RunMeansTrue(trace, r.consumed, Window(debounce));
    }
  }

  /** With `debounce + 1` trues in a row at the start and budget for them, the wait converges on the last. */
  lemma LoopConvergesOnStableStart(trace: seq<Step>, timeoutMs: int, debounce: nat)
    requires debounce < |trace|
    requires forall i :: 0 <= i <= debounce ==> trace[i].poll == Observed(true)
    requires BudgetAt(trace, timeoutMs, debounce) > 0
    requires forall i :: 0 <= i < debounce ==> trace[i].elapsedMs >= 0
    ensures Loop(trace, 0, timeoutMs, debounce, debounce) == LoopResult(Done(true), debounce + 1)
  {
    var r := Loop(trace, 0, timeoutMs, debounce, debounce);
    LoopExplained(trace, timeoutMs, debounce);
    RunOfTrues(trace, debounce + 1);
    assert Settles(trace, debounce, debounce);
    ElapsedMonotone(trace, debounce);
    assert !Proceeds(trace, timeoutMs, debounce, debounce);
  }

  lemma {:induction false} RunOfTrues(trace: seq<Step>, n: nat)
    requires n <= |trace|
    requires forall i :: 0 <= i < n ==> trace[i].poll == Observed(true)
    ensures forall m :: 0 <= m <= n ==> RunBefore(trace, m) == m
  {
    if n > 0 { RunOfTrues(trace, n - 1); }
  }

  lemma {:induction false} ElapsedMonotone(trace: seq<Step>, n: nat)
    requires n <= |trace|
    requires forall i :: 0 <= i < n ==> trace[i].elapsedMs >= 0
    ensures forall m :: 0 <= m <= n ==> Elapsed(trace, m) <= Elapsed(trace, n)
  {
    if n > 0 { ElapsedMonotone(trace, n - 1); }
  }

  /** Every step costs at least the pause, so `n` steps cost at least `n` pauses. */
  lemma {:induction false} ElapsedAtLeastPauses(trace: seq<Step>, n: nat)
    requires n <= |trace|
    requires forall i :: 0 <= i < |trace| ==> trace[i].elapsedMs >= PollIntervalMs
    ensures Elapsed(trace, n) >= n * PollIntervalMs
  {
    if n > 0 { ElapsedAtLeastPauses(trace, n - 1); }
  }

  /**
   * Since every step pauses for `PollIntervalMs`, the budget drops by at
   * least that much per step: the loop evaluates the supplier at most
   * `timeoutMs / PollIntervalMs + 1` times, never when the budget is
   * spent on entry, and a trace with enough steps to use up the budget
   * always reaches an outcome.
   */
  lemma LoopTerminates(trace: seq<Step>, timeoutMs: int, debounce: int)
    requires forall i :: 0 <= i < |trace| ==> trace[i].elapsedMs >= PollIntervalMs
    ensures var r := Loop(trace, 0, timeoutMs, debounce, debounce);
      && (timeoutMs <= 0 ==> r.consumed == 0)
      && (r.consumed > 0 ==> (r.consumed - 1) * PollIntervalMs < timeoutMs)
      && (|trace| * PollIntervalMs >= timeoutMs ==> !r.outcome.Pending?)
  {
    var r := Loop(trace, 0, timeoutMs, debounce, debounce);
    LoopExplained(trace, timeoutMs, debounce);
    if r.consumed > 0 {
      ElapsedAtLeastPauses(trace, r.consumed - 1);
      if !r.outcome.Done? || r.outcome.converged || r.outcome.Raised? {
      } else {
        assert Proceeds(trace, timeoutMs, debounce, r.consumed - 1);
      }
    }
    if r.outcome.Pending? {
      ElapsedAtLeastPauses(trace, |trace|);
    }
  }

  // ---------------------------------------------------------------------------
  // waitCluster

  /**
   * The `exceptionally` handler of `waitCluster`: a CompletionException whose
   * cause is retriable means "not yet"; any other failure is rethrown as it is.
   */
  predicate IsRetriable(f: Failure) {
    f.isCompletionException && f.causeIsRetriable
  }

  function Recover(p: Poll): (q: Poll)
    ensures q.Observed? <==> p.Observed? || IsRetriable(p.failure)
    ensures q == Observed(true) <==> p == Observed(true)
    ensures q.Failed? ==> q == p
  {
    match p
    case Observed(_) => p
    case Failed(e) => if IsRetriable(e) then Observed(false) else p
  }

  function Recovered(trace: seq<Step>): (t: seq<Step>)
    ensures |t| == |trace|
    ensures forall i :: 0 <= i < |trace| ==> t[i] == Step(Recover(trace[i].poll), trace[i].elapsedMs)
  {
    seq(|trace|, i requires 0 <= i < |trace| => Step(Recover(trace[i].poll), trace[i].elapsedMs))
  }

  /**
   * `waitCluster(topics, predicate, timeout, debounce)`: `trace` holds what
   * `clusterInfo(topics).thenApply(predicate::test)` completes with, one per
   * evaluation; the loop starts with the whole timeout and a full countdown.
   */
  function WaitCluster(trace: seq<Step>, timeoutMs: int, debounce: int): (r: LoopResult)
    ensures r.consumed <= |trace|
    ensures timeoutMs <= 0 ==> r == LoopResult(Done(false), 0)
    ensures r.outcome.Raised? ==>
      0 < r.consumed && trace[r.consumed - 1].poll == Failed(r.outcome.failure) && !IsRetriable(r.outcome.failure)
    ensures r.outcome == Done(true) ==>
      && Window(debounce) <= r.consumed
      && forall i :: r.consumed - Window(debounce) <= i < r.consumed ==> trace[i].poll == Observed(true)
  {
    LoopConvergesOnlyAfterDebounce(Recovered(trace), timeoutMs, debounce);
    Loop(Recovered(trace), 0, timeoutMs, debounce, debounce)
  }

  /** A retriable failure counts exactly as a `false` observation. */
  lemma RetriableFailureIsFalse(trace: seq<Step>, timeoutMs: int, debounce: int, j: nat)
    requires j < |trace| && trace[j].poll.Failed? && IsRetriable(trace[j].poll.failure)
    ensures WaitCluster(trace[j := Step(Observed(false), trace[j].elapsedMs)], timeoutMs, debounce)
         == WaitCluster(trace, timeoutMs, debounce)
  {
    var t := trace[j := Step(Observed(false), trace[j].elapsedMs)];
    assert Recovered(t) == Recovered(trace);
  }

  /** `waitCluster` ends as the reference description says, on the recovered observations. */
  lemma WaitClusterExplained(trace: seq<Step>, timeoutMs: int, debounce: int)
    ensures Explains(Recovered(trace), timeoutMs, debounce, WaitCluster(trace, timeoutMs, debounce))
  {
    LoopExplained(Recovered(trace), timeoutMs, debounce);
  }

  // ---------------------------------------------------------------------------
  // brokerFolders

  datatype DataFolder = DataFolder(path: string)

  datatype Broker = Broker(id: int, folders: seq<DataFolder>)

  function FolderPaths(b: Broker): set<string> {
    set f | f in b.folders :: f.path
  }

  function IdFolders(brokers: seq<Broker>): (pairs: seq<(int, set<string>)>)
    ensures |pairs| == |brokers|
    ensures forall i :: 0 <= i < |brokers| ==> pairs[i] == (brokers[i].id, FolderPaths(brokers[i]))
  {
    seq(|brokers|, i requires 0 <= i < |brokers| => (brokers[i].id, FolderPaths(brokers[i])))
  }

  /** The ids paired with folder sets are exactly the brokers' ids. */
  lemma IdFoldersKeySet(brokers: seq<Broker>)
    ensures (set p | p in IdFolders(brokers) :: p.0) == (set b | b in brokers :: b.id)
  {
    var pairs := IdFolders(brokers);
    forall p | p in pairs ensures p.0 in (set b | b in brokers :: b.id) {
      var i :| 0 <= i < |pairs| && pairs[i] == p;
      assert brokers[i] in brokers;
    }
    forall b | b in brokers ensures b.id in (set p | p in pairs :: p.0) {
      var i :| 0 <= i < |brokers| && brokers[i] == b;
      assert pairs[i] in pairs;
    }
  }

  /** Every broker's id is paired with that broker's folder set. */
  lemma IdFoldersHas(brokers: seq<Broker>)
    ensures forall b :: b in brokers ==> (b.id, FolderPaths(b)) in IdFolders(brokers)
  {
    forall b | b in brokers ensures (b.id, FolderPaths(b)) in IdFolders(brokers) {
      var i :| 0 <= i < |brokers| && brokers[i] == b;
      assert IdFolders(brokers)[i] == (b.id, FolderPaths(b));
    }
  }

  /**
   * `brokerFolders()`: broker id to the set of its data-folder paths,
   * collected without a merge function, so two brokers with one id fail.
   */
  function BrokerFolders(brokers: seq<Broker>): (r: Result<map<int, set<string>>, int>)
    ensures r.Ok? <==> forall i, j :: 0 <= i < j < |brokers| ==> brokers[i].id != brokers[j].id
    ensures r.Ok? ==> r.value.Keys == (set b | b in brokers :: b.id)
    ensures r.Ok? ==> forall b :: b in brokers ==> r.value[b.id] == FolderPaths(b)
    ensures r.Err? ==> exists i, j :: 0 <= i < j < |brokers| && brokers[i].id == brokers[j].id == r.error
  {
    var pairs := IdFolders(brokers);
    IdFoldersKeySet(brokers);
    IdFoldersHas(brokers);
    ToMap(pairs)
  }
}
