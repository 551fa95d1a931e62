/** The statistics of a reconciler run, and how they add up to what became of its candidates. */
module Tally {
  import opened Wrappers
  import opened Settlement
  import opened Rows
  import opened Reconciliation

  datatype Stats = Stats(
    scanned: nat, claimed: nat, settled: nat, failed: nat, markedUnknown: nat,
    manualReview: nat, pending: nat, skipped: nat, errors: nat)

  const NO_STATS := Stats(0, 0, 0, 0, 0, 0, 0, 0, 0)

  /** What the store answered a claim with. */
  datatype ClaimReply = NotClaimed | ClaimRaised | ClaimedAs(record: Record)

  /**
   * What one candidate met: the store's answer to the claim, the provider's reply, and whether a write was accepted.
   */
  datatype Turn = Turn(claim: ClaimReply, reply: ReconcileReply, stored: bool)

  // ---------------------------------------------------------------- what a turn amounts to

  predicate Won(turn: Turn) {
    turn.claim.ClaimedAs?
  }

  function DecisionOf(run: Run, turn: Turn): Decision
    requires Won(turn)
  {
    Decide(run, turn.claim.record, turn.reply)
  }

  /** The status this turn moved its record to, if the store accepted a write. */
  function Written(run: Run, turn: Turn): Option<Status> {
    if Won(turn) && DecisionOf(run, turn).Write? && turn.stored then Some(DecisionOf(run, turn).status) else None
  }

  /**
   * An exception outside the reconciler's own handlers: a failed claim, or a refused write for an unregistered
   * provider.
   */
  predicate Aborts(run: Run, turn: Turn) {
    || turn.claim.ClaimRaised?
    || (Won(turn) && turn.reply.NotRegistered? && DecisionOf(run, turn).Write? && !turn.stored)
  }

  predicate RaisedInProgress(turn: Turn) {
    Won(turn) && turn.reply.ReconcileRaised? && turn.claim.record.status == SettleInProgress
  }

  predicate LeftPending(run: Run, turn: Turn) {
    Won(turn) && DecisionOf(run, turn).LeavePending?
  }

  /** Provider exceptions and refused or unprovable writes; a raise on an in-progress record can count twice. */
  function ErrorsOf(run: Run, turn: Turn): nat {
    if !Won(turn) then 0
    else
      (if turn.reply.ReconcileRaised? then 1 else 0)
      + (if DecisionOf(run, turn).MissingProof? || (DecisionOf(run, turn).Write? && !turn.stored) then 1 else 0)
  }

  function Count<T>(items: seq<T>, p: T -> bool): nat {
    if items == [] then 0 else Count(items[..|items| - 1], p) + if p(items[|items| - 1]) then 1 else 0
  }

  function Sum<T>(items: seq<T>, f: T -> int): int {
    if items == [] then 0 else Sum(items[..|items| - 1], f) + f(items[|items| - 1])
  }

  function CountWrites(run: Run, turns: seq<Turn>, status: Status): nat {
    Count(turns, (turn: Turn) => Written(run, turn) == Some(status))
  }

  /** Work accounted for: what became of the claimed records. */
  function Accounted(s: Stats): nat {
    s.settled + s.failed + s.markedUnknown + s.manualReview + s.pending + s.errors
  }

  /** The counters say exactly what happened over these turns. */
  ghost predicate Tallies(run: Run, turns: seq<Turn>, s: Stats) {
    && s.claimed == Count(turns, Won)
    && s.skipped == Count(turns, (turn: Turn) => turn.claim.NotClaimed?)
    && s.settled == CountWrites(run, turns, Settled)
    && s.failed == CountWrites(run, turns, SettleFailed)
    && s.markedUnknown == CountWrites(run, turns, Unknown)
    && s.manualReview == CountWrites(run, turns, ManualReview)
    && s.pending == Count(turns, (turn: Turn) => LeftPending(run, turn))
    && s.errors == Sum(turns, (turn: Turn) => ErrorsOf(run, turn))
  }

  /** No exception left the run. */
  predicate NoAborts(run: Run, turns: seq<Turn>) {
    forall i | 0 <= i < |turns| :: !Aborts(run, turns[i])
  }

  // ---------------------------------------------------------------- one turn more

  /** The counters have moved by what this turn amounts to. */
  predicate Counts(run: Run, turn: Turn, s: Stats, after: Stats) {
    && after.scanned == s.scanned
    && after.claimed == s.claimed + (if Won(turn) then 1 else 0)
    && after.skipped == s.skipped + (if turn.claim.NotClaimed? then 1 else 0)
    && after.settled == s.settled + (if Written(run, turn) == Some(Settled) then 1 else 0)
    && after.failed == s.failed + (if Written(run, turn) == Some(SettleFailed) then 1 else 0)
    && after.markedUnknown == s.markedUnknown + (if Written(run, turn) == Some(Unknown) then 1 else 0)
    && after.manualReview == s.manualReview + (if Written(run, turn) == Some(ManualReview) then 1 else 0)
    && after.pending == s.pending + (if LeftPending(run, turn) then 1 else 0)
    && after.errors == s.errors + ErrorsOf(run, turn)
  }

  lemma TallyOneMore(run: Run, turns: seq<Turn>, turn: Turn, s: Stats, after: Stats)
    requires Tallies(run, turns, s) && Counts(run, turn, s, after)
    ensures Tallies(run, turns + [turn], after)
  {
    assert (turns + [turn])[..|turns|] == turns;
  }

  /** The counter that goes with a decision that was carried out. */
  function Counted(s: Stats, decision: Decision): Stats {
    match decision
    case LeavePending => s.(pending := s.pending + 1)
    case Write(status, _, _, _) =>
      (match status
       case Settled => s.(settled := s.settled + 1)
       case SettleFailed => s.(failed := s.failed + 1)
       case Unknown => s.(markedUnknown := s.markedUnknown + 1)
       case ManualReview => s.(manualReview := s.manualReview + 1)
       case _ => s)
    case _ => s
  }

  lemma {:induction false} ScannedIsClaimedOrSkipped(run: Run, turns: seq<Turn>)
    requires NoAborts(run, turns)
    ensures |turns| == Count(turns, Won) + Count(turns, (turn: Turn) => turn.claim.NotClaimed?)
  {
    if turns != [] {
      ScannedIsClaimedOrSkipped(run, turns[..|turns| - 1]);
      assert !Aborts(run, turns[|turns| - 1]);
    }
  }

  /** Every claimed record ends in one counter, and in two when its provider raised while it was in progress. */
  lemma {:induction false} WorkIsAccounted(run: Run, turns: seq<Turn>, s: Stats)
    requires Tallies(run, turns, s)
    requires NoAborts(run, turns)
    ensures Accounted(s) == s.claimed + Count(turns, RaisedInProgress)
  {
    if turns != [] {
      var rest, turn := turns[..|turns| - 1], turns[|turns| - 1];
      var before := Stats(0, Count(rest, Won), CountWrites(run, rest, Settled), CountWrites(run, rest, SettleFailed),
                          CountWrites(run, rest, Unknown), CountWrites(run, rest, ManualReview),
                          Count(rest, (t: Turn) => LeftPending(run, t)),
                          Count(rest, (t: Turn) => t.claim.NotClaimed?), 0);
      ErrorsNatural(run, rest);
      before := before.(errors := Sum(rest, (t: Turn) => ErrorsOf(run, t)));
      WorkIsAccounted(run, rest, before);
      assert !Aborts(run, turn);
      if Won(turn) { TurnIsAccounted(run, turn); }
    }
  }

  lemma {:induction false} ErrorsNatural(run: Run, turns: seq<Turn>)
    ensures Sum(turns, (t: Turn) => ErrorsOf(run, t)) >= 0
  {
    if turns != [] { ErrorsNatural(run, turns[..|turns| - 1]); }
  }

  lemma TurnIsAccounted(run: Run, turn: Turn)
    requires Won(turn) && !Aborts(run, turn)
    ensures (if Written(run, turn) == Some(Settled) then 1 else 0)
            + (if Written(run, turn) == Some(SettleFailed) then 1 else 0)
            + (if Written(run, turn) == Some(Unknown) then 1 else 0)
            + (if Written(run, turn) == Some(ManualReview) then 1 else 0)
            + (if LeftPending(run, turn) then 1 else 0) + ErrorsOf(run, turn)
         == 1 + if RaisedInProgress(turn) then 1 else 0
  {
  }
}
