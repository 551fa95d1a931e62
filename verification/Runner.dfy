/** The loop that repeats reconciler runs and adds up their statistics. */
module Runner {
  import opened Wrappers
  import opened Settlement
  import opened Rows
  import opened Reconciliation
  import opened Tally
  import opened Candidates
  import opened Reconciler
  import StoreObjects

  function AddStats(target: Stats, source: Stats): Stats {
    Stats(target.scanned + source.scanned, target.claimed + source.claimed, target.settled + source.settled,
          target.failed + source.failed, target.markedUnknown + source.markedUnknown,
          target.manualReview + source.manualReview, target.pending + source.pending,
          target.skipped + source.skipped, target.errors + source.errors)
  }

  /**
   * One pass of the loop: a stop before it, the run it starts with its scan and what that meets, whether the iteration
   * callback raises, and a stop while sleeping after it.
   */
  datatype Pass = Pass(
    stopBefore: bool, run: Run, script: ScanScript, happenings: nat -> Happening, callbackRaises: bool, stopAfter: bool)

  /**
   * What came of a pass: the tables it began on, what its scan found, the tables its candidates met, its visits, and
   * its statistics unless an exception ended it.
   */
  datatype Iteration = Iteration(
    pass: Pass, entry: Tables, found: seq<Seen>, start: Tables, visits: seq<Visit>, result: Option<Stats>)

  datatype LoopStats = LoopStats(runs: nat, failedRuns: nat, aggregate: Stats, lastRun: Option<Stats>, failedLast: bool)

  // ---------------------------------------------------------------- totals

  datatype Counter =
    | Scanned | ClaimedRows | SettledRows | FailedRows | MarkedUnknown | SentToReview | PendingRows | Skipped | Errors

  function Get(s: Stats, c: Counter): nat {
    match c
    case Scanned => s.scanned
    case ClaimedRows => s.claimed
    case SettledRows => s.settled
    case FailedRows => s.failed
    case MarkedUnknown => s.markedUnknown
    case SentToReview => s.manualReview
    case PendingRows => s.pending
    case Skipped => s.skipped
    case Errors => s.errors
  }

  function Total(done: seq<Iteration>, c: Counter): nat {
    if done == [] then 0
    else
      var last := done[|done| - 1].result;
      Total(done[..|done| - 1], c) + if last.Some? then Get(last.value, c) else 0
  }

  function Completed(done: seq<Iteration>): nat {
    if done == [] then 0
    else Completed(done[..|done| - 1]) + if done[|done| - 1].result.Some? then 1 else 0
  }

  ghost predicate Totals(done: seq<Iteration>, s: Stats) {
    forall c: Counter :: Get(s, c) == Total(done, c)
  }

  /** The claimed in-progress records whose provider raised, in the completed runs. */
  function TotalRaises(done: seq<Iteration>): nat {
    if done == [] then 0
    else
      var last := done[|done| - 1];
      TotalRaises(done[..|done| - 1]) + if last.result.Some? then Count(Turns(last.visits), RaisedInProgress) else 0
  }

  /** The rows that the completed runs moved to a status. */
  function TotalMoves(done: seq<Iteration>, status: Status): nat {
    if done == [] then 0
    else
      var last := done[|done| - 1];
      TotalMoves(done[..|done| - 1], status) + if last.result.Some? then CountMoves(last.visits, status) else 0
  }

  /** Every completed pass is a run of the reconciler with its own sums. */
  ghost predicate AllAdd(done: seq<Iteration>) {
    forall i | 0 <= i < |done| :: AddsAt(done, i)
  }

  ghost predicate AddsAt(done: seq<Iteration>, i: nat)
    requires i < |done|
  {
    Adds(done[i])
  }

  ghost predicate Adds(i: Iteration) {
    Ran(i.pass.run, i.pass.script, i.pass.happenings, i.entry, i.found, i.start, i.visits, i.result)
  }

  // ---------------------------------------------------------------- the identities survive aggregation

  /** The sums of one pass, apart from what they are sums of. */
  ghost predicate Sums(i: Iteration) {
    i.result.Some? ==>
      && i.result.value.scanned == i.result.value.claimed + i.result.value.skipped
      && Accounted(i.result.value) == i.result.value.claimed + Count(Turns(i.visits), RaisedInProgress)
  }

  lemma {:induction false} TotalsBalance(done: seq<Iteration>)
    requires forall i | 0 <= i < |done| :: Sums(done[i])
    ensures Total(done, Scanned) == Total(done, ClaimedRows) + Total(done, Skipped)
    ensures Total(done, SettledRows) + Total(done, FailedRows) + Total(done, MarkedUnknown)
            + Total(done, SentToReview) + Total(done, PendingRows) + Total(done, Errors)
         == Total(done, ClaimedRows) + TotalRaises(done)
  {
    if done != [] {
      TotalsBalance(done[..|done| - 1]);
      assert Sums(done[|done| - 1]);
    }
  }

  lemma {:induction false} TotalsAreMoves(done: seq<Iteration>)
    requires forall i | 0 <= i < |done| && done[i].result.Some? :: CountsMoves(done[i].result.value, done[i].visits)
    ensures Total(done, SettledRows) == TotalMoves(done, Settled)
    ensures Total(done, FailedRows) == TotalMoves(done, SettleFailed)
    ensures Total(done, MarkedUnknown) == TotalMoves(done, Unknown)
    ensures Total(done, SentToReview) == TotalMoves(done, ManualReview)
  {
    if done != [] {
      TotalsAreMoves(done[..|done| - 1]);
    }
  }

  lemma AllSum(done: seq<Iteration>)
    requires AllAdd(done)
    ensures forall i | 0 <= i < |done| :: Sums(done[i])
    ensures forall i | 0 <= i < |done| && done[i].result.Some? :: CountsMoves(done[i].result.value, done[i].visits)
  {
    forall i | 0 <= i < |done|
      ensures Sums(done[i]) && (done[i].result.Some? ==> CountsMoves(done[i].result.value, done[i].visits))
    {
      assert AddsAt(done, i);
    }
  }

  lemma TotalsByField(done: seq<Iteration>, s: Stats)
    requires Totals(done, s)
    ensures s.scanned == Total(done, Scanned) && s.claimed == Total(done, ClaimedRows)
    ensures s.skipped == Total(done, Skipped) && s.errors == Total(done, Errors) &&
        s.pending == Total(done, PendingRows)
    ensures s.settled == Total(done, SettledRows) && s.failed == Total(done, FailedRows)
    ensures s.markedUnknown == Total(done, MarkedUnknown) && s.manualReview == Total(done, SentToReview)
  {
    assert Get(s, Scanned) == Total(done, Scanned) && Get(s, ClaimedRows) == Total(done, ClaimedRows);
    assert Get(s, Skipped) == Total(done, Skipped) && Get(s, Errors) == Total(done, Errors);
    assert Get(s, SettledRows) == Total(done, SettledRows) && Get(s, FailedRows) == Total(done, FailedRows);
    assert Get(s, MarkedUnknown) == Total(done, MarkedUnknown) && Get(s, SentToReview) == Total(done, SentToReview);
    assert Get(s, PendingRows) == Total(done, PendingRows);
  }

  /**
   * Over any number of runs: scanned is claimed or skipped, work is accounted for, and counters are changes in the
   * tables.
   */
  lemma {:induction false} AggregateKeepsIdentities(done: seq<Iteration>)
    requires AllAdd(done)
    ensures var s := StatsOf(done).aggregate;
            && s.scanned == s.claimed + s.skipped
            && Accounted(s) == s.claimed + TotalRaises(done)
            && s.settled == TotalMoves(done, Settled) && s.failed == TotalMoves(done, SettleFailed)
            && s.markedUnknown == TotalMoves(done, Unknown) && s.manualReview == TotalMoves(done, ManualReview)
  {
    AllSum(done);
    TotalsBalance(done);
    TotalsAreMoves(done);
    StatsAreTotals(done);
    TotalsByField(done, StatsOf(done).aggregate);
  }

  lemma PassOneMore(done: seq<Iteration>, pass: Iteration, s: Stats)
    requires Totals(done, s)
    ensures Completed(done + [pass]) == Completed(done) + if pass.result.Some? then 1 else 0
    ensures Totals(done + [pass], if pass.result.Some? then AddStats(s, pass.result.value) else s)
  {
    assert (done + [pass])[..|done|] == done;
    var next := if pass.result.Some? then AddStats(s, pass.result.value) else s;
    forall c: Counter ensures Get(next, c) == Total(done + [pass], c) {
      assert Get(s, c) == Total(done, c);
    }
  }

  // ---------------------------------------------------------------- the loop

  predicate Reached(count: nat, bound: Option<nat>) {
    bound.Some? && bound.value <= count
  }

  function NextStats(stats: LoopStats, result: Option<Stats>): LoopStats {
    if result.None? then stats.(failedRuns := stats.failedRuns + 1, failedLast := true)
    else
      stats.(runs := stats.runs + 1, lastRun := result, failedLast := false,
             aggregate := AddStats(stats.aggregate, result.value))
  }

  /** The loop's statistics after some passes. */
  function StatsOf(done: seq<Iteration>): LoopStats {
    if done == [] then LoopStats(0, 0, NO_STATS, None, false)
    else NextStats(StatsOf(done[..|done| - 1]), done[|done| - 1].result)
  }

  lemma StatsOneMore(done: seq<Iteration>, i: Iteration)
    ensures StatsOf(done + [i]) == NextStats(StatsOf(done), i.result)
  {
    assert (done + [i])[..|done|] == done;
  }

  /** The statistics of the last completed pass. */
  function LastCompleted(done: seq<Iteration>): Option<Stats> {
    if done == [] then None
    else if done[|done| - 1].result.Some? then done[|done| - 1].result
    else LastCompleted(done[..|done| - 1])
  }

  /** Every pass is counted as completed or failed, and the aggregate is the total of the completed ones. */
  lemma {:induction false} StatsAreTotals(done: seq<Iteration>)
    ensures StatsOf(done).runs == Completed(done) && StatsOf(done).runs + StatsOf(done).failedRuns == |done|
    ensures Totals(done, StatsOf(done).aggregate)
    ensures StatsOf(done).lastRun == LastCompleted(done)
    ensures StatsOf(done).failedLast <==> done != [] && done[|done| - 1].result.None?
  {
    if done != [] {
      var rest, last := done[..|done| - 1], done[|done| - 1];
      StatsAreTotals(rest);
      PassOneMore(rest, last, StatsOf(rest).aggregate);
      assert rest + [last] == done;
    }
  }

  lemma {:induction false} AllAddOneMore(done: seq<Iteration>, i: Iteration)
    requires AllAdd(done) && Adds(i)
    ensures AllAdd(done + [i])
  {
    forall k | 0 <= k < |done + [i]| ensures AddsAt(done + [i], k) {
      if k < |done| { assert AddsAt(done, k); }
    }
  }

  /** The tables some passes left, from tables `t`. */
  function EndOf(t: Tables, done: seq<Iteration>): Tables {
    if done == [] then t else LeftBy(done[|done| - 1].start, done[|done| - 1].visits)
  }

  /** Every pass begins on the tables that the one before it left. */
  ghost predicate Chained(t: Tables, done: seq<Iteration>) {
    forall i | 0 <= i < |done| :: ChainedAt(t, done, i)
  }

  ghost predicate ChainedAt(t: Tables, done: seq<Iteration>, i: nat)
    requires i < |done|
  {
    done[i].entry == EndOf(t, done[..i])
  }

  lemma {:induction false} ChainedOneMore(t: Tables, done: seq<Iteration>, i: Iteration)
    requires Chained(t, done) && i.entry == EndOf(t, done)
    ensures Chained(t, done + [i]) && EndOf(t, done + [i]) == LeftBy(i.start, i.visits)
  {
    forall k | 0 <= k < |done + [i]| ensures ChainedAt(t, done + [i], k) {
      if k < |done| {
        assert ChainedAt(t, done, k) && (done + [i])[..k] == done[..k];
      } else {
        assert (done + [i])[..k] == done;
      }
    }
  }

  method RunPass(store: StoreObjects.PostgresSettlementStore, pass: Pass)
    returns (result: Option<Stats>, ghost iteration: Iteration)
    requires ScriptOk(pass.script)
    modifies store
    ensures iteration.pass == pass && iteration.result == result && iteration.entry == old(store.View())
    ensures Adds(iteration) && store.View() == LeftBy(iteration.start, iteration.visits)
  {
    var returned, runStats;
    ghost var found, start, visits;
    returned, runStats, found, start, visits := RunOnce(store, pass.run, pass.script, pass.happenings);
    result := ResultOf(returned, runStats);
    iteration := Iteration(pass, old(store.View()), found, start, visits, result);
  }

  /** One more pass, after those done since the store held tables `t`. */
  method RunNext(store: StoreObjects.PostgresSettlementStore, pass: Pass, ghost t: Tables, ghost done: seq<Iteration>)
    returns (result: Option<Stats>, ghost iteration: Iteration)
    requires ScriptOk(pass.script) && AllAdd(done) && Chained(t, done) && store.View() == EndOf(t, done)
    modifies store
    ensures iteration.pass == pass && iteration.result == result
    ensures AllAdd(done + [iteration]) && Chained(t, done + [iteration])
    ensures store.View() == EndOf(t, done + [iteration])
    ensures StatsOf(done + [iteration]) == NextStats(StatsOf(done), result)
  {
    result, iteration := RunPass(store, pass);
    AllAddOneMore(done, iteration);
    ChainedOneMore(t, done, iteration);
    StatsOneMore(done, iteration);
  }

  /** The callback is called after a completed run only; an exception from it leaves the loop. */
  predicate CallbackEnds(i: Iteration) {
    i.result.Some? && i.pass.callbackRaises
  }

  /**
   * The loop over a store; it ends at its bound, at a stop request and with the callback's exception, and otherwise
   * only with the script of passes.
   */
  method RunLoop(store: StoreObjects.PostgresSettlementStore, maxRuns: Option<nat>, script: seq<Pass>)
    returns (raised: bool, stats: LoopStats, ghost done: seq<Iteration>)
    requires maxRuns.Some? ==> maxRuns.value > 0
    requires forall i | 0 <= i < |script| :: ScriptOk(script[i].script)
    modifies store
    ensures |done| <= |script| && (maxRuns.Some? ==> |done| <= maxRuns.value)
    ensures AllAdd(done) && forall i | 0 <= i < |done| :: done[i].pass == script[i]
    ensures forall i | 0 <= i < |done| && CallbackEnds(done[i]) :: raised && i == |done| - 1
    ensures raised ==> done != [] && CallbackEnds(done[|done| - 1])
    ensures stats == StatsOf(done)
    ensures Chained(old(store.View()), done) && store.View() == EndOf(old(store.View()), done)
    ensures forall i | 0 <= i < |done| :: !script[i].stopBefore && (script[i].stopAfter ==> i == |done| - 1)
    ensures |done| < |script| ==>
              || raised || Reached(|done|, maxRuns) || script[|done|].stopBefore
              || (done != [] && script[|done| - 1].stopAfter)
  {
    raised, stats, done := false, LoopStats(0, 0, NO_STATS, None, false), [];
    ghost var start := store.View();
    var passes := 0;
    while passes < |script| && !script[passes].stopBefore
      invariant passes == |done| <= |script| && (maxRuns.Some? ==> passes <= maxRuns.value) && !raised
      invariant stats.runs + stats.failedRuns == passes && stats == StatsOf(done)
      invariant forall i | 0 <= i < passes :: !script[i].stopBefore && !script[i].stopAfter
      invariant Chained(start, done) && store.View() == EndOf(start, done)
      invariant AllAdd(done) && forall i | 0 <= i < passes :: done[i].pass == script[i] && !CallbackEnds(done[i])
    {
      if Reached(stats.runs + stats.failedRuns, maxRuns) {
        break;
      }
      var pass := script[passes];
      var result;
      ghost var iteration;
      result, iteration := RunNext(store, pass, start, done);
      done, passes := done + [iteration], passes + 1;
      stats := NextStats(stats, result);
      assert CallbackEnds(iteration) <==> result.Some? && pass.callbackRaises;
      if result.Some? && pass.callbackRaises {
        raised := true;
        return;
      }
      if Reached(stats.runs + stats.failedRuns, maxRuns) || pass.stopAfter {
        break;
      }
    }
  }
}
