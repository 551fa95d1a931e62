/**
 * The bounded connection pool as a machine of atomic steps: what runs under the pool's lock is one step or holds the
 * lock across two, and operations on the idle queue outside the lock are steps of their own.
 */
module Pool {
  import opened Wrappers

  type Connection = nat
  type Thread = nat

  datatype Phase =
    | Outside
    | Deciding                                      // in checkout, lock held, the idle queue was empty
    | Connecting                                    // a place is reserved, the connection is being made
    | ConnectFailed
    | Waiting                                       // blocked on the idle queue
    | Holding(conn: Connection)
    | Releasing(conn: Connection, sawClosed: bool)  // the closed flag has been read
    | Overflowing(conn: Connection)                 // the idle queue was full
    | Dropping                                      // its connection is closed, its place not yet given back
    | Draining                                      // in close
    | DrainClosing(conn: Connection)                // in close, about to close a connection taken off the queue

  datatype State = State(
    maxSize: nat,
    idle: seq<Connection>,                          // last in, first out
    total: int,
    closed: bool,
    lock: Option<Thread>,
    phases: map<Thread, Phase>,
    made: nat,                                      // connections are numbered as they are made
    open: set<Connection>,                          // connections made and not closed
    drained: nat)                                   // how many connections close() has closed

  predicate Initial(s: State) {
    s.maxSize > 0 && s == State(s.maxSize, [], 0, false, None, map[], 0, {}, 0)
  }

  function PhaseOf(s: State, t: Thread): Phase {
    if t in s.phases then s.phases[t] else Outside
  }

  function Move(s: State, t: Thread, p: Phase): State {
    s.(phases := s.phases[t := p])
  }

  // ---------------------------------------------------------------- steps

  datatype Step =
    | CheckoutTry(t: Thread)
    | CheckoutDecide(t: Thread)
    | Connect(t: Thread, ok: bool)
    | GiveBackFailed(t: Thread)
    | Await(t: Thread)
    | TimeOut(t: Thread)
    | ReadClosed(t: Thread)
    | PutBack(t: Thread)
    | Shut(t: Thread)
    | GiveBack(t: Thread)
    | Close(t: Thread)
    | DrainTake(t: Thread)
    | DrainShut(t: Thread)

  predicate Enabled(s: State, step: Step) {
    var p := PhaseOf(s, step.t);
    match step
    case CheckoutTry(_) => p.Outside? && s.lock.None?
    case CheckoutDecide(_) => p.Deciding?
    case Connect(_, _) => p.Connecting?
    case GiveBackFailed(_) => p.ConnectFailed? && s.lock.None?
    case Await(_) => p.Waiting? && s.idle != []
    case TimeOut(_) => p.Waiting? && s.idle == []
    case ReadClosed(_) => p.Holding? && s.lock.None?
    case PutBack(_) => p.Releasing? && !p.sawClosed
    case Shut(_) => (p.Releasing? && p.sawClosed) || p.Overflowing?
    case GiveBack(_) => p.Dropping? && s.lock.None?
    case Close(_) => p.Outside? && s.lock.None?
    case DrainTake(_) => p.Draining?
    case DrainShut(_) => p.DrainClosing?
  }

  function Top(s: State): Connection
    requires s.idle != []
  {
    s.idle[|s.idle| - 1]
  }

  function Pop(s: State): State
    requires s.idle != []
  {
    s.(idle := s.idle[..|s.idle| - 1])
  }

  /** The first half of a checkout: refuse when closed, take an idle connection, or go on to decide under the lock. */
  function AfterCheckoutTry(s: State, t: Thread): State {
    if s.closed then Move(s, t, Outside)
    else if s.idle != [] then Move(Pop(s), t, Holding(Top(s)))
    else Move(s, t, Deciding).(lock := Some(t))
  }

  function AfterCheckoutDecide(s: State, t: Thread): State {
    if s.total < s.maxSize then Move(s, t, Connecting).(lock := None, total := s.total + 1)
    else Move(s, t, Waiting).(lock := None)
  }

  function AfterConnect(s: State, t: Thread, ok: bool): State {
    if ok then Move(s, t, Holding(s.made)).(made := s.made + 1, open := s.open + {s.made})
        else Move(s, t, ConnectFailed)
  }

  function AfterPutBack(s: State, t: Thread, c: Connection): State {
    if |s.idle| < s.maxSize then Move(s, t, Outside).(idle := s.idle + [c]) else Move(s, t, Overflowing(c))
  }

  function AfterShut(s: State, t: Thread, c: Connection): State {
    Move(s, t, Dropping).(open := s.open - {c})
  }

  function AfterGiveBack(s: State, t: Thread): State {
    Move(s, t, Outside).(total := s.total - 1)
  }

  /** Draining gives no place back: the total keeps counting what close() took. */
  function AfterDrainTake(s: State, t: Thread): State {
    if s.idle == [] then Move(s, t, Outside) else Move(Pop(s), t, DrainClosing(Top(s)))
  }

  function AfterDrainShut(s: State, t: Thread, c: Connection): State {
    Move(s, t, Draining).(open := s.open - {c}, drained := s.drained + 1)
  }

  function After(s: State, step: Step): State
    requires Enabled(s, step)
  {
    match step
    case CheckoutTry(t) => AfterCheckoutTry(s, t)
    case CheckoutDecide(t) => AfterCheckoutDecide(s, t)
    case Connect(t, ok) => AfterConnect(s, t, ok)
    case GiveBackFailed(t) => AfterGiveBack(s, t)
    case Await(t) => Move(Pop(s), t, Holding(Top(s)))
    case TimeOut(t) => Move(s, t, Outside)
    case ReadClosed(t) => Move(s, t, Releasing(PhaseOf(s, t).conn, s.closed))
    case PutBack(t) => AfterPutBack(s, t, PhaseOf(s, t).conn)
    case Shut(t) => AfterShut(s, t, PhaseOf(s, t).conn)
    case GiveBack(t) => AfterGiveBack(s, t)
    case Close(t) => Move(s, t, Draining).(closed := true)
    case DrainTake(t) => AfterDrainTake(s, t)
    case DrainShut(t) => AfterDrainShut(s, t, PhaseOf(s, t).conn)
  }

  ghost predicate Runs(s: State, steps: seq<Step>)
    decreases |steps|
  {
    steps == [] || (Enabled(s, steps[0]) && Runs(After(s, steps[0]), steps[1..]))
  }

  ghost function EndState(s: State, steps: seq<Step>): State
    requires Runs(s, steps)
    decreases |steps|
  {
    if steps == [] then s else EndState(After(s, steps[0]), steps[1..])
  }

  // ---------------------------------------------------------------- who holds what

  predicate HasConnection(p: Phase) {
    p.Holding? || p.Releasing? || p.Overflowing? || p.DrainClosing?
  }

  /** Phases that occupy one of the pool's places. */
  predicate HasPlace(p: Phase) {
    HasConnection(p) || p.Connecting? || p.ConnectFailed? || p.Dropping?
  }

  predicate Owner(s: State, t: Thread, c: Connection) {
    HasConnection(PhaseOf(s, t)) && PhaseOf(s, t).conn == c
  }

  function Placed(s: State): set<Thread> {
    set t | t in s.phases && HasPlace(s.phases[t])
  }

  // ---------------------------------------------------------------- the invariant

  ghost predicate Counted(s: State) {
    s.total == |s.idle| + |Placed(s)| + s.drained && s.total <= s.maxSize
  }

  predicate IdleOk(s: State) {
    && (forall i | 0 <= i < |s.idle| :: s.idle[i] in s.open)
    && forall i, j | 0 <= i < j < |s.idle| :: s.idle[i] != s.idle[j]
  }

  predicate HeldOk(s: State) {
    && (forall t | t in s.phases && HasConnection(s.phases[t]) ::
          s.phases[t].conn in s.open && s.phases[t].conn !in s.idle)
    && forall t, u | t in s.phases && u in s.phases && t != u
                     && HasConnection(s.phases[t]) && HasConnection(s.phases[u]) ::
         s.phases[t].conn != s.phases[u].conn
  }

  /** Every open connection is idle or in somebody's hands. */
  ghost predicate NoneLost(s: State) {
    forall c | c in s.open :: c < s.made && (c in s.idle || exists t :: Owner(s, t, c))
  }

  ghost predicate Custody(s: State) {
    IdleOk(s) && HeldOk(s) && NoneLost(s)
  }

  predicate LockOk(s: State) {
    && (forall t | t in s.phases && s.phases[t].Deciding? :: s.lock == Some(t))
    && (s.lock.Some? ==> PhaseOf(s, s.lock.value).Deciding?)
  }

  predicate NeverFull(s: State) {
    forall t | t in s.phases :: !s.phases[t].Overflowing?
  }

  ghost predicate Inv(s: State) {
    Counted(s) && Custody(s) && LockOk(s) && NeverFull(s)
  }
}
