/**
 * The pool stays within its size, shares no connection, and never overflows its queue; when close() leaves nothing
 * open.
 */
module PoolTheorems {
  import opened Wrappers
  import opened Pool

  // ---------------------------------------------------------------- places

  function Weight(p: Phase): nat {
    if HasPlace(p) then 1 else 0
  }

  /** Every step moves one thread. */
  predicate Moves(s: State, s': State, t: Thread) {
    s'.maxSize == s.maxSize && s'.phases == s.phases[t := PhaseOf(s', t)]
  }

  lemma StepMoves(s: State, step: Step)
    requires Enabled(s, step)
    ensures Moves(s, After(s, step), step.t)
  {
  }

  lemma PlacesAfterMove(s: State, s': State, t: Thread)
    requires Moves(s, s', t)
    ensures |Placed(s')| == |Placed(s)| + Weight(PhaseOf(s', t)) - Weight(PhaseOf(s, t))
  {
    var others := Placed(s) - {t};
    assert Placed(s) == if HasPlace(PhaseOf(s, t)) then others + {t} else others;
    assert Placed(s') == if HasPlace(PhaseOf(s', t)) then others + {t} else others;
  }

  /** Places taken and given back match the moves of the thread, step by step. */
  lemma BalanceAfterStep(s: State, step: Step)
    requires Enabled(s, step) && s.total <= s.maxSize
    ensures var s' := After(s, step);
            && s'.total <= s'.maxSize
            && s'.total - |s'.idle| - s'.drained
            == s.total - |s.idle| - s.drained + Weight(PhaseOf(s', step.t)) - Weight(PhaseOf(s, step.t))
  {
  }

  lemma StepKeepsCounted(s: State, step: Step)
    requires Counted(s) && Enabled(s, step)
    ensures Counted(After(s, step))
  {
    StepMoves(s, step);
    PlacesAfterMove(s, After(s, step), step.t);
    BalanceAfterStep(s, step);
  }

  // ---------------------------------------------------------------- custody of connections

  function ConnectionOf(p: Phase): Option<Connection> {
    if HasConnection(p) then Some(p.conn) else None
  }

  /** Nothing but `t` moves, and every other thread keeps its connection. */
  lemma OthersKeep(s: State, s': State, t: Thread, c: Connection)
    requires Moves(s, s', t) && (exists u :: Owner(s, u, c)) && !Owner(s, t, c)
    ensures exists u :: Owner(s', u, c)
  {
    var u :| Owner(s, u, c);
    assert Owner(s', u, c);
  }

  lemma CustodyUnmoved(s: State, s': State, t: Thread)
    requires Custody(s) && Moves(s, s', t) && s'.idle == s.idle && s'.open == s.open && s'.made == s.made
    requires ConnectionOf(PhaseOf(s', t)) == ConnectionOf(PhaseOf(s, t))
    ensures Custody(s')
  {
    forall c | c in s'.open && c !in s'.idle ensures exists u :: Owner(s', u, c) {
      if Owner(s, t, c) { assert Owner(s', t, c); } else { OthersKeep(s, s', t, c); }
    }
  }

  lemma CustodyTaken(s: State, s': State, t: Thread)
    requires Custody(s) && Moves(s, s', t) && s'.open == s.open && s'.made == s.made
    requires s.idle != [] && s'.idle == s.idle[..|s.idle| - 1]
    requires ConnectionOf(PhaseOf(s, t)) == None && ConnectionOf(PhaseOf(s', t)) == Some(Top(s))
    ensures Custody(s')
  {
    assert s.idle == s'.idle + [Top(s)];
    assert Top(s) in s.idle;
    assert Top(s) !in s'.idle;
    forall c | c in s'.open && c !in s'.idle ensures exists u :: Owner(s', u, c) {
      if c == Top(s) { assert Owner(s', t, c); } else { OthersKeep(s, s', t, c); }
    }
  }

  lemma CustodyReturned(s: State, s': State, t: Thread, c: Connection)
    requires Custody(s) && Moves(s, s', t) && s'.open == s.open && s'.made == s.made
    requires ConnectionOf(PhaseOf(s, t)) == Some(c) && ConnectionOf(PhaseOf(s', t)) == None
    requires s'.idle == s.idle + [c]
    ensures Custody(s')
  {
    forall d | d in s'.open && d !in s'.idle ensures exists u :: Owner(s', u, d) {
      assert d !in s.idle;
      assert s'.idle[|s.idle|] == c;
      OthersKeep(s, s', t, d);
    }
  }

  lemma CustodyMade(s: State, s': State, t: Thread)
    requires Custody(s) && Moves(s, s', t) && s'.idle == s.idle
    requires s'.open == s.open + {s.made} && s'.made == s.made + 1
    requires ConnectionOf(PhaseOf(s, t)) == None && ConnectionOf(PhaseOf(s', t)) == Some(s.made)
    ensures Custody(s')
  {
    assert s.made !in s.open;
    forall c | c in s'.open && c !in s'.idle ensures exists u :: Owner(s', u, c) {
      if c == s.made { assert Owner(s', t, c); } else { OthersKeep(s, s', t, c); }
    }
  }

  lemma CustodyShut(s: State, s': State, t: Thread, c: Connection)
    requires Custody(s) && Moves(s, s', t) && s'.idle == s.idle && s'.open == s.open - {c} && s'.made == s.made
    requires ConnectionOf(PhaseOf(s, t)) == Some(c) && ConnectionOf(PhaseOf(s', t)) == None
    ensures Custody(s')
  {
    assert c !in s.idle;
    forall d | d in s'.open && d !in s'.idle ensures exists u :: Owner(s', u, d) {
      OthersKeep(s, s', t, d);
    }
  }

  lemma StepKeepsCustody(s: State, step: Step)
    requires Custody(s) && Enabled(s, step)
    ensures Custody(After(s, step))
  {
    var s', t := After(s, step), step.t;
    StepMoves(s, step);
    var p, p' := PhaseOf(s, t), PhaseOf(s', t);
    if ConnectionOf(p) == ConnectionOf(p') {
      CustodyUnmoved(s, s', t);
    } else if step.Connect? {
      CustodyMade(s, s', t);
    } else if step.Shut? || step.DrainShut? {
      CustodyShut(s, s', t, p.conn);
    } else if step.PutBack? {
      CustodyReturned(s, s', t, p.conn);
    } else {
      CustodyTaken(s, s', t);
    }
  }

  // ---------------------------------------------------------------- the queue never fills

  lemma RoomToPutBack(s: State, t: Thread)
    requires Counted(s) && PhaseOf(s, t).Releasing?
    ensures |s.idle| < s.maxSize
  {
    assert t in Placed(s);
  }

  lemma StepKeepsInv(s: State, step: Step)
    requires Inv(s) && Enabled(s, step)
    ensures Inv(After(s, step))
  {
    StepKeepsCounted(s, step);
    StepKeepsCustody(s, step);
    if step.PutBack? { RoomToPutBack(s, step.t); }
    StepKeepsLocks(s, step);
  }

  lemma StepKeepsLocks(s: State, step: Step)
    requires LockOk(s) && NeverFull(s) && Enabled(s, step)
    requires step.PutBack? ==> |s.idle| < s.maxSize
    ensures LockOk(After(s, step)) && NeverFull(After(s, step))
  {
  }

  lemma {:induction false} InvAlways(s: State, steps: seq<Step>)
    requires Inv(s) && Runs(s, steps)
    ensures Inv(EndState(s, steps))
    decreases |steps|
  {
    if steps != [] {
      StepKeepsInv(s, steps[0]);
      InvAlways(After(s, steps[0]), steps[1..]);
    }
  }

  // ---------------------------------------------------------------- safety of every run

  lemma {:induction false} ImageFits(s: State, owners: set<Thread>, conns: set<Connection>)
    requires forall c | c in conns :: exists t | t in owners :: Owner(s, t, c)
    ensures |conns| <= |owners|
    decreases |owners|
  {
    if conns != {} {
      var c :| c in conns;
      var t :| t in owners && Owner(s, t, c);
      forall d | d in conns - {c} ensures exists u | u in owners - {t} :: Owner(s, u, d) {
        var u :| u in owners && Owner(s, u, d);
      }
      ImageFits(s, owners - {t}, conns - {c});
    }
  }

  function Elements(items: seq<Connection>): set<Connection> {
    set c | c in items
  }

  lemma {:induction false} ElementsFit(items: seq<Connection>)
    ensures |Elements(items)| <= |items|
  {
    if items != [] {
      var rest := items[..|items| - 1];
      ElementsFit(rest);
      assert items == rest + [items[|items| - 1]];
      assert Elements(items) == Elements(rest) + {items[|items| - 1]};
    }
  }

  /** Every open connection has its own place. */
  lemma OpenWithinTotal(s: State)
    requires Inv(s)
    ensures |s.open| <= s.total <= s.maxSize
  {
    var held := s.open - Elements(s.idle);
    forall c | c in held ensures exists t | t in Placed(s) :: Owner(s, t, c) {
      HeldHasOwner(s, c);
    }
    ImageFits(s, Placed(s), held);
    ElementsFit(s.idle);
    UnionFits(s.open, held, Elements(s.idle));
  }

  lemma HeldHasOwner(s: State, c: Connection)
    requires NoneLost(s) && c in s.open && c !in s.idle
    ensures exists t | t in Placed(s) :: Owner(s, t, c)
  {
  }

  lemma UnionFits(all: set<Connection>, a: set<Connection>, b: set<Connection>)
    requires all <= a + b
    ensures |all| <= |a| + |b|
  {
    SubsetFits(all, a + b);
  }

  lemma {:induction false} SubsetFits(a: set<Connection>, b: set<Connection>)
    requires a <= b
    ensures |a| <= |b|
    decreases a
  {
    if a != {} {
      var c :| c in a;
      SubsetFits(a - {c}, b - {c});
    }
  }

  /** No connection is both idle and held or held twice, and none is handed out closed. */
  ghost predicate Exclusive(s: State) {
    && (forall t, c | Owner(s, t, c) :: c in s.open && c !in s.idle)
    && (forall t, u, c | Owner(s, t, c) && Owner(s, u, c) :: t == u)
    && (forall i, j | 0 <= i < j < |s.idle| :: s.idle[i] != s.idle[j])
  }

  lemma PoolIsSafe(s: State, steps: seq<Step>)
    requires Initial(s) && Runs(s, steps)
    ensures var end := EndState(s, steps);
            && |end.open| <= end.total <= end.maxSize == s.maxSize
            && Exclusive(end) && NeverFull(end)
  {
    assert Placed(s) == {};
    InvAlways(s, steps);
    SizeIsFixed(s, steps);
    var end := EndState(s, steps);
    OpenWithinTotal(end);
    assert HeldOk(end) && IdleOk(end);
  }

  lemma {:induction false} SizeIsFixed(s: State, steps: seq<Step>)
    requires Runs(s, steps)
    ensures EndState(s, steps).maxSize == s.maxSize
    decreases |steps|
  {
    if steps != [] {
      StepMoves(s, steps[0]);
      SizeIsFixed(After(s, steps[0]), steps[1..]);
    }
  }

  ghost predicate Reachable(s: State) {
    exists init, past | Initial(init) && Runs(init, past) :: EndState(init, past) == s
  }

  lemma ReachableKeepsInv(s: State)
    requires Reachable(s)
    ensures Inv(s)
  {
    var init, past :| Initial(init) && Runs(init, past) && EndState(init, past) == s;
    assert Placed(init) == {};
    InvAlways(init, past);
  }

  predicate Quiet(s: State) {
    forall t | t in s.phases :: s.phases[t].Outside?
  }

  /**
   * Between calls no place leaks: the total is what lies idle and what close() has drained, and only idle connections
   * are open.
   */
  lemma QuietPoolBalances(s: State)
    requires Reachable(s) && Quiet(s)
    ensures s.total == |s.idle| + s.drained
    ensures forall c :: c in s.open <==> c in s.idle
  {
    ReachableKeepsInv(s);
    assert Placed(s) == {};
    assert NoneLost(s) && IdleOk(s);
  }

  // ---------------------------------------------------------------- after close

  /** No release has read the closed flag before close() set it and is yet to put its connection back. */
  predicate NoLateRelease(s: State) {
    forall t | t in s.phases && s.phases[t].Releasing? :: s.phases[t].sawClosed
  }

  ghost predicate StaysEmpty(s: State) {
    forall steps | Runs(s, steps) :: EndState(s, steps).idle == []
  }

  /**
   * Once close() has emptied the queue, it stays empty in every continuation exactly when no such release is under
   * way.
   */
  lemma StaysEmptyExactly(s: State)
    requires Reachable(s) && s.closed && s.idle == []
    ensures StaysEmpty(s) <==> NoLateRelease(s)
  {
    ReachableKeepsInv(s);
    if NoLateRelease(s) {
      forall steps | Runs(s, steps) ensures EndState(s, steps).idle == [] {
        EmptyAlways(s, steps);
      }
    } else {
      var t :| t in s.phases && s.phases[t].Releasing? && !s.phases[t].sawClosed;
      RoomToPutBack(s, t);
      var steps := [PutBack(t)];
      assert Enabled(s, steps[0]) && steps[1..] == [];
      var next := After(s, steps[0]);
      assert next.idle == [s.phases[t].conn];
      assert Runs(next, steps[1..]);
      assert Runs(s, steps) && EndState(s, steps) == next;
    }
  }

  lemma {:induction false} EmptyAlways(s: State, steps: seq<Step>)
    requires s.closed && s.idle == [] && NoLateRelease(s) && Runs(s, steps)
    ensures EndState(s, steps).idle == [] && NoLateRelease(EndState(s, steps)) && EndState(s, steps).closed
    decreases |steps|
  {
    if steps != [] {
      StepKeepsEmpty(s, steps[0]);
      EmptyAlways(After(s, steps[0]), steps[1..]);
    }
  }

  lemma StepKeepsEmpty(s: State, step: Step)
    requires s.closed && s.idle == [] && NoLateRelease(s) && Enabled(s, step)
    ensures var s' := After(s, step); s'.closed && s'.idle == [] && NoLateRelease(s')
  {
  }

  /** Then everything is closed as soon as the threads are done. */
  lemma EverythingCloses(s: State, steps: seq<Step>)
    requires Reachable(s) && s.closed && s.idle == [] && NoLateRelease(s)
    requires Runs(s, steps) && Quiet(EndState(s, steps))
    ensures EndState(s, steps).open == {}
  {
    ReachableKeepsInv(s);
    EmptyAlways(s, steps);
    InvAlways(s, steps);
    var end := EndState(s, steps);
    assert NoneLost(end);
    assert forall c :: c !in end.open;
  }

  // ---------------------------------------------------------------- every late release can leak

  /** How many steps a thread may still have to make before it is outside. */
  function Toil(p: Phase): nat {
    match p
    case Outside => 0
    case Draining | Dropping | ConnectFailed => 1
    case DrainClosing(_) | Overflowing(_) | Connecting => 2
    case Releasing(_, sawClosed) => if sawClosed then 2 else 3
    case Waiting => 3
    case Holding(_) | Deciding => 4
  }

  /** The toil of all threads below `n` but `t`. */
  function Toils(s: State, n: nat, t: Thread): nat {
    if n == 0 then 0 else Toils(s, n - 1, t) + if n - 1 == t then 0 else Toil(PhaseOf(s, n - 1))
  }

  lemma {:induction false} ToilsAfterMove(s: State, s': State, u: Thread, n: nat, t: Thread)
    requires Moves(s, s', u) && u != t
    ensures Toils(s', n, t) == Toils(s, n, t) + if u < n then Toil(PhaseOf(s', u)) - Toil(PhaseOf(s, u)) else 0
  {
    if n > 0 { ToilsAfterMove(s, s', u, n - 1, t); }
  }

  /** What a thread does next, giving up a connection it is still making. */
  function NextStep(s: State, u: Thread): Step
    requires !PhaseOf(s, u).Outside?
  {
    match PhaseOf(s, u)
    case Deciding => CheckoutDecide(u)
    case Connecting => Connect(u, false)
    case ConnectFailed => GiveBackFailed(u)
    case Waiting => if s.idle != [] then Await(u) else TimeOut(u)
    case Holding(_) => ReadClosed(u)
    case Releasing(_, sawClosed) => if sawClosed then Shut(u) else PutBack(u)
    case Overflowing(_) => Shut(u)
    case Dropping => GiveBack(u)
    case Draining => DrainTake(u)
    case _ => DrainShut(u)
  }

  predicate CanGo(s: State, u: Thread) {
    !PhaseOf(s, u).Outside? && (s.lock.None? || s.lock == Some(u))
  }

  /** A thread that the lock does not hold up can move, and has less to do afterwards. */
  lemma {:induction false} NextStepGoes(s: State, u: Thread)
    requires LockOk(s) && CanGo(s, u) && (PhaseOf(s, u).Releasing? ==> |s.idle| < s.maxSize)
    ensures Enabled(s, NextStep(s, u)) && NextStep(s, u).t == u
    ensures var s' := After(s, NextStep(s, u));
            Toil(PhaseOf(s', u)) + 2 * |s'.idle| < Toil(PhaseOf(s, u)) + 2 * |s.idle|
    ensures s.closed ==> After(s, NextStep(s, u)).closed
  {
  }

  predicate OthersOutside(s: State, t: Thread) {
    forall u | u in s.phases && u != t :: s.phases[u].Outside?
  }

  predicate Below(s: State, n: nat) {
    forall u | u in s.phases :: u < n
  }

  lemma {:induction false} OneMoves(s: State, t: Thread, n: nat) returns (u: Thread)
    requires Inv(s) && Below(s, n) && PhaseOf(s, t).Releasing? && !OthersOutside(s, t)
    ensures u != t && u in s.phases && CanGo(s, u)
  {
    if s.lock.Some? {
      u := s.lock.value;
    } else {
      u :| u in s.phases && u != t && !s.phases[u].Outside?;
    }
  }

  /** Everybody but one thread can be brought outside. */
  lemma {:induction false} OthersFinish(s: State, t: Thread, n: nat) returns (steps: seq<Step>)
    requires Inv(s) && s.closed && Below(s, n) && PhaseOf(s, t).Releasing?
    ensures Runs(s, steps)
    ensures var end := EndState(s, steps);
            Inv(end) && end.closed && PhaseOf(end, t) == PhaseOf(s, t) && OthersOutside(end, t)
    decreases Toils(s, n, t) + 2 * |s.idle|
  {
    steps := [];
    if !OthersOutside(s, t) {
      var u := OneMoves(s, t, n);
      if PhaseOf(s, u).Releasing? { RoomToPutBack(s, u); }
      NextStepGoes(s, u);
      var step := NextStep(s, u);
      var next := After(s, step);
      StepMoves(s, step);
      StepKeepsInv(s, step);
      ToilsAfterMove(s, next, u, n, t);
      var rest := OthersFinish(next, t, n);
      steps := [step] + rest;
      assert steps[0] == step && steps[1..] == rest;
    }
  }

  lemma {:induction false} ThreadsBelow(threads: set<Thread>) returns (n: nat)
    ensures forall u | u in threads :: u < n
    decreases |threads|
  {
    n := 0;
    if threads != {} {
      var u :| u in threads;
      var m := ThreadsBelow(threads - {u});
      n := if u < m then m else u + 1;
      assert forall v | v in threads :: v == u || v in threads - {u};
    }
  }

  /** From any closed state with such a release, a run leads to a quiet pool with an open connection. */
  lemma {:induction false} LateReleaseLeaks(s: State) returns (steps: seq<Step>)
    requires Inv(s) && s.closed && !NoLateRelease(s)
    ensures Runs(s, steps) && EndState(s, steps).closed && Quiet(EndState(s, steps)) && EndState(s, steps).open != {}
  {
    var t :| t in s.phases && s.phases[t].Releasing? && !s.phases[t].sawClosed;
    var n := ThreadsBelow(s.phases.Keys);
    var before := OthersFinish(s, t, n);
    var end := EndState(s, before);
    RoomToPutBack(end, t);
    var last := After(end, PutBack(t));
    assert HeldOk(end) && PhaseOf(end, t).conn in end.open;
    assert [PutBack(t)][1..] == [] && Runs(last, []) && Runs(end, [PutBack(t)]) && EndState(end, [PutBack(t)]) == last;
    steps := before + [PutBack(t)];
    RunBoth(s, before, [PutBack(t)]);
  }

  /** Once the threads are done, nothing is open. */
  ghost predicate EndsClean(s: State) {
    forall steps | Runs(s, steps) && Quiet(EndState(s, steps)) :: EndState(s, steps).open == {}
  }

  /** After close() has emptied the queue, every connection ends closed exactly when no late release is under way. */
  lemma EndsCleanExactly(s: State)
    requires Reachable(s) && s.closed && s.idle == []
    ensures EndsClean(s) <==> NoLateRelease(s)
  {
    if NoLateRelease(s) {
      forall steps | Runs(s, steps) && Quiet(EndState(s, steps)) ensures EndState(s, steps).open == {} {
        EverythingCloses(s, steps);
      }
    } else {
      ReachableKeepsInv(s);
      var steps := LateReleaseLeaks(s);
    }
  }

  /** Such states are reached: a release that read the flag just before close() leaves its connection open. */
  lemma CloseCanLeak(s: State)
    requires Initial(s)
    ensures exists steps | Runs(s, steps) ::
              var end := EndState(s, steps); end.closed && Quiet(end) && end.open == {0}
  {
    var release := [CheckoutTry(0), CheckoutDecide(0), Connect(0, true), ReadClosed(0)];
    var race := [Close(1), DrainTake(1), PutBack(0)];
    LeakFirstHalf(s);
    LeakSecondHalf(s.maxSize);
    RunBoth(s, release, race);
    assert Quiet(Leaked(s.maxSize));
  }

  /** A connection is on its way back, its thread having seen the pool open. */
  function ReleaseUnderWay(size: nat): State {
    State(size, [], 1, false, None, map[0 := Releasing(0, false)], 1, {0}, 0)
  }

  function Leaked(size: nat): State {
    State(size, [0], 1, true, None, map[0 := Outside, 1 := Outside], 1, {0}, 0)
  }

  lemma LeakFirstHalf(s: State)
    requires Initial(s)
    ensures var steps := [CheckoutTry(0), CheckoutDecide(0), Connect(0, true), ReadClosed(0)];
            Runs(s, steps) && EndState(s, steps) == ReleaseUnderWay(s.maxSize)
  {
  }

  lemma LeakSecondHalf(size: nat)
    requires size > 0
    ensures var steps := [Close(1), DrainTake(1), PutBack(0)];
            Runs(ReleaseUnderWay(size), steps) && EndState(ReleaseUnderWay(size), steps) == Leaked(size)
  {
  }

  lemma {:induction false} RunBoth(s: State, first: seq<Step>, second: seq<Step>)
    requires Runs(s, first) && Runs(EndState(s, first), second)
    ensures Runs(s, first + second) && EndState(s, first + second) == EndState(EndState(s, first), second)
    decreases |first|
  {
    if first == [] {
      assert first + second == second;
    } else {
      RunBoth(After(s, first[0]), first[1..], second);
      assert (first + second)[1..] == first[1..] + second;
    }
  }

  // ---------------------------------------------------------------- checkouts

  /** The thread is inside a checkout and may yet come by a connection. */
  predicate CheckingOut(p: Phase) {
    p.Deciding? || p.Connecting? || p.ConnectFailed? || p.Waiting?
  }

  predicate NobodyComing(s: State) {
    forall t | t in s.phases :: !CheckingOut(s.phases[t])
  }

  /** Nobody has come by a connection: none was made, and whoever holds one held it before. */
  ghost predicate NothingHandedOut(s: State, s': State) {
    && s'.made == s.made
    && forall t | PhaseOf(s', t).Holding? :: PhaseOf(s, t) == PhaseOf(s', t)
  }

  lemma {:induction false} ClosedStep(s: State, step: Step)
    requires s.closed && NobodyComing(s) && Enabled(s, step)
    ensures var s' := After(s, step); s'.closed && NobodyComing(s') && NothingHandedOut(s, s')
  {
  }

  /** Once the pool is closed and no checkout is under way, no run hands out a connection again. */
  lemma {:induction false} ClosedForGood(s: State, steps: seq<Step>)
    requires s.closed && NobodyComing(s) && Runs(s, steps)
    ensures EndState(s, steps).closed && NothingHandedOut(s, EndState(s, steps))
    decreases |steps|
  {
    if steps != [] {
      ClosedStep(s, steps[0]);
      ClosedForGood(After(s, steps[0]), steps[1..]);
    }
  }

  /** While the pool is open, the connection put back last is the one handed out next. */
  lemma {:induction false} LastBackFirstOut(s: State, t: Thread, u: Thread, c: Connection)
    requires Inv(s) && !s.closed && s.lock.None? && t != u && PhaseOf(s, t) == Releasing(c, false)
    requires PhaseOf(s, u).Outside?
    ensures Runs(s, [PutBack(t), CheckoutTry(u)])
    ensures var end := EndState(s, [PutBack(t), CheckoutTry(u)]);
            PhaseOf(end, u) == Holding(c) && PhaseOf(end, t).Outside? && end.idle == s.idle
  {
    assert Enabled(s, PutBack(t));
    RoomToPutBack(s, t);
    var s1 := After(s, PutBack(t));
    assert s1.idle == s.idle + [c];
    assert Enabled(s1, CheckoutTry(u));
    var s2 := After(s1, CheckoutTry(u));
    assert s2.idle == s.idle;
    assert [PutBack(t), CheckoutTry(u)][1..] == [CheckoutTry(u)] && [CheckoutTry(u)][1..] == [];
    assert Runs(s1, [CheckoutTry(u)]) && EndState(s1, [CheckoutTry(u)]) == s2;
  }

  /** And with nothing idle, a checkout makes a connection as long as there is a place for it. */
  lemma {:induction false} CheckoutMakesRoom(s: State, t: Thread)
    requires !s.closed && s.lock.None? && PhaseOf(s, t).Outside? && s.idle == [] && s.total < s.maxSize
    ensures var steps := [CheckoutTry(t), CheckoutDecide(t), Connect(t, true)];
            Runs(s, steps) && PhaseOf(EndState(s, steps), t) == Holding(s.made)
            && EndState(s, steps).total == s.total + 1 && s.made in EndState(s, steps).open
  {
    var s1 := After(s, CheckoutTry(t));
    var s2 := After(s1, CheckoutDecide(t));
    var s3 := After(s2, Connect(t, true));
    assert [Connect(t, true)][1..] == [];
    assert Runs(s2, [Connect(t, true)]) && EndState(s2, [Connect(t, true)]) == s3;
    assert [CheckoutDecide(t), Connect(t, true)][1..] == [Connect(t, true)];
    assert Runs(s1, [CheckoutDecide(t), Connect(t, true)]);
    assert [CheckoutTry(t), CheckoutDecide(t), Connect(t, true)][1..] == [CheckoutDecide(t), Connect(t, true)];
  }
}
