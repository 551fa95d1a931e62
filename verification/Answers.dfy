/** Success is answered only for a SETTLED record. */
module Answers {
  import opened Wrappers
  import opened Settlement
  import opened Rows
  import opened Reconciliation
  import opened Protocol
  import opened Effects
  import opened ClaimSafety

  predicate SamePayment(a: Call, b: Call) {
    a.seller == b.seller && a.fingerprint == b.fingerprint
  }

  predicate SettledAs(row: Record, transaction: Option<string>, payer: Option<string>) {
    row.status == Settled && row.transaction == transaction && row.payer == payer
  }

  // ---------------------------------------------------------------- success is backed by a row

  ghost predicate BackedBy(s: State, id: nat, a: Answer) {
    && id in s.rows && SamePayment(s.rows[id].call, a.call)
    && SettledAs(s.rows[id], a.outcome.transaction, a.outcome.payer)
  }

  ghost predicate Backed(s: State, a: Answer) {
    exists id :: BackedBy(s, id, a)
  }

  ghost predicate AnswersBacked(s: State) {
    forall i | 0 <= i < |s.answers| && s.answers[i].outcome.success :: Backed(s, s.answers[i])
  }

  /** What a call has read about an existing row is still true of it once it is SETTLED. */
  ghost predicate ReadFaithful(s: State, k: Caller) {
    k.phase.FoundRow? ==>
      && k.phase.id in s.rows && SamePayment(s.rows[k.phase.id].call, k.call)
      && (k.phase.snapshot.status == Settled ==>
            SettledAs(s.rows[k.phase.id], k.phase.snapshot.transaction, k.phase.snapshot.payer))
  }

  ghost predicate ReadsFaithful(s: State) {
    forall c | c in s.callers :: ReadFaithful(s, s.callers[c]) && s.callers[c].began <= |s.answers|
  }

  ghost predicate AnswerInv(s: State) {
    AnswersBacked(s) && ReadsFaithful(s)
  }

  lemma BackedKept(s: State, t: State, a: Answer)
    requires Progress(s, t) && Backed(s, a)
    ensures Backed(t, a)
  {
    var id :| BackedBy(s, id, a);
    assert BackedBy(t, id, a);
  }

  lemma ReadKept(s: State, t: State, k: Caller)
    requires Progress(s, t) && ReadFaithful(s, k)
    ensures ReadFaithful(t, k)
  {
  }

  /** Any step that answers nothing. */
  lemma SilentKeepsAnswers(s: State, t: State, c: nat)
    requires AnswerInv(s) && Progress(s, t) && t.answers == s.answers && OneMoves(s, t, c)
    requires ReadFaithful(t, t.callers[c]) && t.callers[c].began <= |t.answers|
    ensures AnswerInv(t)
  {
    forall i | 0 <= i < |t.answers| && t.answers[i].outcome.success ensures Backed(t, t.answers[i]) {
      BackedKept(s, t, s.answers[i]);
    }
    forall d | d in t.callers ensures ReadFaithful(t, t.callers[d]) && t.callers[d].began <= |t.answers| {
      if d != c { ReadKept(s, t, s.callers[d]); }
    }
  }

  lemma OthersKeepAnswers(s: State, t: State)
    requires AnswerInv(s) && Progress(s, t) && t.answers == s.answers && t.callers == s.callers
    ensures AnswerInv(t)
  {
    forall i | 0 <= i < |t.answers| && t.answers[i].outcome.success ensures Backed(t, t.answers[i]) {
      BackedKept(s, t, s.answers[i]);
    }
    forall d | d in t.callers ensures ReadFaithful(t, t.callers[d]) && t.callers[d].began <= |t.answers| {
      ReadKept(s, t, s.callers[d]);
    }
  }

  /** A step that ends a call with an answer. */
  ghost predicate Answers(s: State, t: State, c: nat, source: Source, outcome: SettleOutcome) {
    && c in s.callers && OneMoves(s, t, c) && t.callers[c] == s.callers[c].(phase := Done)
    && t.answers == s.answers + [Answer(s.callers[c].call, s.callers[c].began, source, outcome)]
  }

  lemma AnsweringKeepsAnswers(s: State, t: State, c: nat, source: Source, outcome: SettleOutcome)
    requires AnswerInv(s) && Progress(s, t) && Answers(s, t, c, source, outcome)
    requires outcome.success ==> Backed(t, Answer(s.callers[c].call, s.callers[c].began, source, outcome))
    ensures AnswerInv(t)
  {
    forall i | 0 <= i < |t.answers| && t.answers[i].outcome.success ensures Backed(t, t.answers[i]) {
      if i < |s.answers| { BackedKept(s, t, s.answers[i]); }
    }
    forall d | d in t.callers ensures ReadFaithful(t, t.callers[d]) && t.callers[d].began <= |t.answers| {
      if d != c { ReadKept(s, t, s.callers[d]); }
    }
  }

  lemma CachedAnswerKeepsAnswers(s: State, c: nat, id: nat)
    requires AnswerInv(s) && CanAnswerCached(s, c, id)
    ensures AnswerInv(AfterAnswerCached(s, c, id))
  {
    var t := AfterAnswerCached(s, c, id);
    var source, outcome := Existing(id, s.rows[id]), CachedSettlement(s.rows[id]);
    if outcome.success {
      assert BackedBy(t, id, Answer(s.callers[c].call, s.callers[c].began, source, outcome));
    }
    AnsweringKeepsAnswers(s, t, c, source, outcome);
  }

  lemma DuplicateKeepsAnswers(s: State, c: nat, stamp: Time)
    requires AnswerInv(s) && CanCommitDuplicate(s, c, stamp)
    ensures AnswerInv(AfterCommitDuplicate(s, c, stamp, true))
  {
    var t := AfterCommitDuplicate(s, c, stamp, true);
    var p := s.callers[c].phase;
    var source, outcome := Existing(p.id, p.snapshot), CachedSettlement(p.snapshot);
    assert ReadFaithful(s, s.callers[c]);
    if outcome.success {
      assert BackedBy(t, p.id, Answer(s.callers[c].call, s.callers[c].began, source, outcome));
    }
    AnsweringKeepsAnswers(s, t, c, source, outcome);
  }

  lemma SettlerTouchKeepsAnswers(s: State, t: State, c: nat)
    requires AnswerInv(s) && SettlerTouch(s, t, c) && s.rows[s.callers[c].phase.id].call == s.callers[c].call
    requires t.callers[c] == s.callers[c].(phase := Done)
    ensures AnswerInv(t)
  {
    SettlerTouchProgresses(s, t, c);
    if t.answers == s.answers {
      assert ReadFaithful(s, s.callers[c]) && s.callers[c].began <= |s.answers|;
      SilentKeepsAnswers(s, t, c);
    } else {
      var source, outcome := t.answers[|s.answers|].source, t.answers[|s.answers|].outcome;
      if outcome.success {
        assert BackedBy(t, t.history.event.id, Answer(s.callers[c].call, s.callers[c].began, source, outcome));
      }
      AnsweringKeepsAnswers(s, t, c, source, outcome);
    }
  }
}
