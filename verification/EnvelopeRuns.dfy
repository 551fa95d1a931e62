/**
 * Settle calls that come from validated envelopes: the fingerprint fixes their terms, so the settlement results apply.
 */
module EnvelopeRuns {
  import opened Wrappers
  import opened Settlement
  import opened Protocol
  import opened Repetition
  import opened Answers
  import Provenance
  import Envelope
  import StoresExactly

  /** How envelopes are read, compared and hashed. */
  datatype Reading = Reading(
    read: Envelope.Reader, equal: (Envelope.Value, Envelope.Value) -> bool, hash: Envelope.Tuple -> string)

  ghost predicate Injective(r: Reading) {
    forall s, t :: r.hash(s) == r.hash(t) ==> s == t
  }

  /** The settle call that the engine makes of a validated envelope with textual scheme and network. */
  predicate MadeOf(r: Reading, e: Envelope.Envelope, call: Call) {
    && Envelope.Validate(r.read, r.equal, e).Valid? && Envelope.Textual(e.requirements)
    && Envelope.Fingerprint(r.read, r.hash, e, call.provider) == Some(call.fingerprint)
    && call.scheme == Some(Envelope.Get(e.requirements, Envelope.Scheme).text)
    && call.network == Some(Envelope.Get(e.requirements, Envelope.Network).text)
  }

  ghost predicate Made(r: Reading, call: Call) {
    exists e :: MadeOf(r, e, call)
  }

  lemma SameTerms(r: Reading, a: Call, b: Call)
    requires Injective(r) && Made(r, a) && Made(r, b) && a.fingerprint == b.fingerprint
    ensures Terms(a.provider, a.scheme, a.network) == Terms(b.provider, b.scheme, b.network)
  {
    var d :| MadeOf(r, d, a);
    var e :| MadeOf(r, e, b);
    Envelope.FingerprintFixesTerms(r.read, r.equal, r.hash, d, a.provider, e, b.provider);
  }

  /** The terms that a fingerprint stands for. */
  ghost function TermsBehind(r: Reading, fingerprint: string): Terms {
    if exists call :: Made(r, call) && call.fingerprint == fingerprint then
      var call :| Made(r, call) && call.fingerprint == fingerprint;
      Terms(call.provider, call.scheme, call.network)
    else Terms("", None, None)
  }

  lemma MadeIsFixed(r: Reading, call: Call)
    requires Injective(r) && Made(r, call)
    ensures Fixed(fingerprint => TermsBehind(r, fingerprint), call)
  {
    var other :| Made(r, other) && other.fingerprint == call.fingerprint
                 && TermsBehind(r, call.fingerprint) == Terms(other.provider, other.scheme, other.network);
    SameTerms(r, other, call);
  }

  /** Every settle call of the run comes from a validated envelope. */
  ghost predicate AllMade(r: Reading, steps: seq<Step>) {
    forall k | 0 <= k < |steps| && steps[k].Claiming? && steps[k].claim.Begin? :: Made(r, steps[k].claim.call)
  }

  /** The calls that a run makes. */
  function CallsOf(steps: seq<Step>): set<Call> {
    set k | 0 <= k < |steps| && steps[k].Claiming? && steps[k].claim.Begin? :: steps[k].claim.call
  }

  /** A success, once answered, is repeated to every later call for that seller and fingerprint. */
  lemma EnvelopeSuccessIsRepeated(r: Reading, cfg: Config, clock: Time, steps: seq<Step>, i: nat, j: nat)
    requires Injective(r) && AllMade(r, steps) && Runs(cfg, Initial(clock), steps)
    requires AnsweredLater(EndState(cfg, Initial(clock), steps), i, j)
    ensures var answers := EndState(cfg, Initial(clock), steps).answers;
            SameSuccess(answers[i].outcome, answers[j].outcome)
  {
    var calls := CallsOf(steps);
    forall x, y | x in calls && y in calls ensures Linked(x, y) {
      if x.fingerprint == y.fingerprint { SameTerms(r, x, y); }
    }
    SuccessIsRepeated(cfg, calls, clock, steps, i, j);
  }

  /** And the two stores answer such calls alike. */
  lemma EnvelopesAnswerAlike(r: Reading, calls: set<Call>)
    requires Injective(r) && forall call | call in calls :: Made(r, call)
    ensures StoresExactly.AnswerAlike(calls)
  {
    var terms := fingerprint => TermsBehind(r, fingerprint);
    forall call | call in calls ensures Fixed(terms, call) { MadeIsFixed(r, call); }
    StoresExactly.FixedTermsNeverPart(terms, calls);
    StoresExactly.AnswerAlikeExactly(calls);
  }

  // ---------------------------------------------------------------- one payment, one key

  /** Calls of one seller share a replay key exactly when their envelopes make the same payment. */
  lemma {:induction false} ReplayKeysExactly(r: Reading, d: Envelope.Envelope, x: Call, e: Envelope.Envelope, y: Call)
    requires Injective(r) && MadeOf(r, d, x) && MadeOf(r, e, y) && x.seller == y.seller
    ensures ReplayKeyOf(x) == ReplayKeyOf(y) <==> Envelope.SamePaid(r.read, d, x.provider, e, y.provider)
    ensures SamePayment(x, y) <==> Envelope.SamePaid(r.read, d, x.provider, e, y.provider)
  {
    Envelope.FingerprintExactly(r.read, r.hash, d, x.provider, e, y.provider);
    if x.fingerprint == y.fingerprint { SameTerms(r, x, y); }
  }

  /** No call is ever answered from the record of another payment, however much the two have in common. */
  lemma {:induction false} AnsweredFromItsOwnPayment(r: Reading, cfg: Config, clock: Time, steps: seq<Step>, i: nat,
                                                     d: Envelope.Envelope, e: Envelope.Envelope)
    requires Injective(r) && Runs(cfg, Initial(clock), steps) && i < |EndState(cfg, Initial(clock), steps).answers|
    requires var s := EndState(cfg, Initial(clock), steps);
             && MadeOf(r, d, s.answers[i].call) && s.answers[i].source.id in s.rows
             && MadeOf(r, e, s.rows[s.answers[i].source.id].call)
    ensures var s := EndState(cfg, Initial(clock), steps);
            Envelope.SamePaid(r.read, d, s.answers[i].call.provider, e, s.rows[s.answers[i].source.id].call.provider)
  {
    var s := EndState(cfg, Initial(clock), steps);
    Provenance.AnswersAreTrue(cfg, clock, steps, i);
    ReplayKeysExactly(r, d, s.answers[i].call, e, s.rows[s.answers[i].source.id].call);
  }
}
