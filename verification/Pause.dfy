/** Pause switches and their audit trail, held as sets in memory or as rows of a table. */
module Pause {
  import opened Wrappers

  datatype Kind = Global | Provider | Network | Seller | Settlement

  datatype Target = Target(kind: Kind, name: string)

  // ---------------------------------------------------------------- naming targets

  predicate NameChar(c: char) {
    'a' <= c <= 'z' || 'A' <= c <= 'Z' || '0' <= c <= '9' || c == '_' || c == '-' || c == '.'
  }

  predicate IsName(text: string) {
    0 < |text| <= 64 && forall i | 0 <= i < |text| :: NameChar(text[i])
  }

  function KeepNameChars(text: string): (r: string)
    ensures forall i | 0 <= i < |r| :: NameChar(r[i])
  {
    if text == "" then ""
    else KeepNameChars(text[..|text| - 1]) + if NameChar(text[|text| - 1]) then [text[|text| - 1]] else []
  }

  function SafeProviderName(text: string): (r: string)
    ensures IsName(r)
  {
    var safe := KeepNameChars(text);
    if safe == "" then "unknown" else if |safe| <= 64 then safe else safe[..64]
  }

  predicate IsDigits(text: string) {
    text != "" && forall i | 0 <= i < |text| :: '0' <= text[i] <= '9'
  }

  predicate IsNetwork(text: string) {
    |text| > 7 && text[..7] == "eip155:" && IsDigits(text[7..]) && |text[7..]| <= 20
  }

  /** The target a pause request names, or nothing where the request is refused. */
  function Normalize(kind: Kind, name: Option<string>): Option<Target> {
    match kind
    case Global => Some(Target(Global, "global"))
    case Provider => if name.None? || name.value == "" then None
        else Some(Target(Provider, SafeProviderName(name.value)))
    case Network => if name.None? || !IsNetwork(name.value) then None else Some(Target(Network, name.value))
    case _ => None
  }

  predicate Pausable(t: Target) {
    match t.kind
    case Global => t.name == "global"
    case Provider => IsName(t.name)
    case Network => IsNetwork(t.name)
    case _ => false
  }

  lemma NormalizedIsPausable(kind: Kind, name: Option<string>)
    ensures Normalize(kind, name).Some? ==> Pausable(Normalize(kind, name).value)
  {
  }

  /** A sanitised provider name is left alone when it is read back from the table. */
  lemma SafeNameIsStable(name: string)
    requires IsName(name)
    ensures SafeProviderName(name) == name
  {
    KeepsNames(name);
  }

  /** Otherwise what is left of the name is cut after 64 letters; if nothing is left it is "unknown". */
  lemma SafeNameIsPrefix(text: string)
    ensures var kept, safe := KeepNameChars(text), SafeProviderName(text);
            if kept == "" then safe == "unknown" else safe <= kept && (|safe| == 64 || safe == kept)
  {
  }

  lemma {:induction false} KeepsNames(text: string)
    requires forall i | 0 <= i < |text| :: NameChar(text[i])
    ensures KeepNameChars(text) == text
  {
    if text != "" {
      KeepsNames(text[..|text| - 1]);
      assert text == text[..|text| - 1] + [text[|text| - 1]];
    }
  }

  // ---------------------------------------------------------------- pause state

  datatype PauseState = PauseState(globalPaused: bool, providers: set<string>, networks: set<string>)

  const NOTHING_PAUSED := PauseState(false, {}, {})

  function IsPaused(p: PauseState, t: Target): bool {
    match t.kind
    case Global => p.globalPaused
    case Provider => t.name in p.providers
    case Network => t.name in p.networks
    case _ => false
  }

  function Membership(values: set<string>, value: string, enabled: bool): set<string> {
    if enabled then values + {value} else values - {value}
  }

  function WithPause(p: PauseState, t: Target, paused: bool): PauseState {
    match t.kind
    case Global => p.(globalPaused := paused)
    case Provider => p.(providers := Membership(p.providers, t.name, paused))
    case Network => p.(networks := Membership(p.networks, t.name, paused))
    case _ => p
  }

  /** The in-memory answer: is a payment through this provider on this network let through? */
  function Allows(p: PauseState, provider: string, network: Option<string>): bool {
    && !p.globalPaused
    && SafeProviderName(provider) !in p.providers
    && !(network.Some? && IsNetwork(network.value) && network.value in p.networks)
  }

  // ---------------------------------------------------------------- pause rows

  type PauseRows = map<Target, bool>

  predicate PausedRow(rows: PauseRows, t: Target) {
    t in rows && rows[t]
  }

  function WithRow(rows: PauseRows, t: Target, paused: bool): PauseRows {
    rows[t := paused]
  }

  /** The targets a payment depends on. */
  function Checked(provider: string, network: Option<string>): set<Target> {
    {Target(Global, "global"), Target(Provider, SafeProviderName(provider))}
    + if network.Some? && IsNetwork(network.value) then {Target(Network, network.value)} else {}
  }

  function RowsAllow(rows: PauseRows, provider: string, network: Option<string>): bool {
    forall t | t in Checked(provider, network) :: !PausedRow(rows, t)
  }

  /** The rows hold the pause state: a target is paused in one exactly when it is in the other. */
  ghost predicate Represents(rows: PauseRows, p: PauseState) {
    && (forall t | t in rows :: Pausable(t))
    && (forall t | Pausable(t) :: PausedRow(rows, t) <==> IsPaused(p, t))
    && (forall name | name in p.providers :: IsName(name))
    && forall name | name in p.networks :: IsNetwork(name)
  }

  // ---------------------------------------------------------------- the audit trail

  /** An audit event; `pauseSet` tells pause changes from seller and settlement events. */
  datatype AuditEvent = AuditEvent(id: nat, pauseSet: bool, target: Target, before: bool, after: bool)

  /** The pause state that a trail of events adds up to from the empty state. */
  function Replay(audit: seq<AuditEvent>): PauseState {
    if audit == [] then NOTHING_PAUSED
    else
      var e := audit[|audit| - 1];
      if e.pauseSet then WithPause(Replay(audit[..|audit| - 1]), e.target, e.after) else Replay(audit[..|audit| - 1])
  }

  /** Where the last pause event on a target left it. */
  function LeftAs(audit: seq<AuditEvent>, t: Target): bool {
    if audit == [] then false
    else
      var e := audit[|audit| - 1];
      if e.pauseSet && e.target == t then e.after else LeftAs(audit[..|audit| - 1], t)
  }

  /** Every pause event starts from where the previous one on its target left off. */
  predicate Chained(audit: seq<AuditEvent>) {
    forall i | 0 <= i < |audit| && audit[i].pauseSet :: audit[i].before == LeftAs(audit[..i], audit[i].target)
  }

  predicate PausesPausable(audit: seq<AuditEvent>) {
    forall i | 0 <= i < |audit| && audit[i].pauseSet :: Pausable(audit[i].target)
  }

  predicate Numbered(audit: seq<AuditEvent>) {
    forall i | 0 <= i < |audit| :: audit[i].id == i + 1
  }

  // ---------------------------------------------------------------- operations

  datatype Operation =
    | SetPause(kind: Kind, name: Option<string>, paused: bool)
    | Note(target: Target, before: bool, after: bool)           // a seller or settlement event

  datatype Memory = Memory(pause: PauseState, audit: seq<AuditEvent>, nextId: nat)

  datatype Tables = Tables(rows: PauseRows, audit: seq<AuditEvent>)

  const NEW_MEMORY := Memory(NOTHING_PAUSED, [], 1)
  const NEW_TABLES := Tables(map[], [])

  function PauseEvent(m: Memory, t: Target, paused: bool): AuditEvent {
    AuditEvent(m.nextId, true, t, IsPaused(m.pause, t), IsPaused(WithPause(m.pause, t, paused), t))
  }

  function MemoryPause(m: Memory, t: Target, paused: bool): Memory {
    Memory(WithPause(m.pause, t, paused), m.audit + [PauseEvent(m, t, paused)], m.nextId + 1)
  }

  function MemoryNote(m: Memory, t: Target, before: bool, after: bool): Memory {
    Memory(m.pause, m.audit + [AuditEvent(m.nextId, false, t, before, after)], m.nextId + 1)
  }

  function MemoryStep(m: Memory, op: Operation): Memory {
    match op
    case SetPause(kind, name, paused) =>
      var t := Normalize(kind, name);
      if t.None? then m else MemoryPause(m, t.value, paused)
    case Note(t, before, after) => MemoryNote(m, t, before, after)
  }

  function RowEvent(s: Tables, t: Target, paused: bool): AuditEvent {
    AuditEvent(|s.audit| + 1, true, t, PausedRow(s.rows, t), paused)
  }

  function TablesPause(s: Tables, t: Target, paused: bool): Tables {
    Tables(WithRow(s.rows, t, paused), s.audit + [RowEvent(s, t, paused)])
  }

  function TablesStep(s: Tables, op: Operation): Tables {
    match op
    case SetPause(kind, name, paused) =>
      var t := Normalize(kind, name);
      if t.None? then s else TablesPause(s, t.value, paused)
    case Note(t, before, after) => s.(audit := s.audit + [AuditEvent(|s.audit| + 1, false, t, before, after)])
  }

  function MemoryAfter(ops: seq<Operation>): Memory {
    if ops == [] then NEW_MEMORY else MemoryStep(MemoryAfter(ops[..|ops| - 1]), ops[|ops| - 1])
  }

  function TablesAfter(ops: seq<Operation>): Tables {
    if ops == [] then NEW_TABLES else TablesStep(TablesAfter(ops[..|ops| - 1]), ops[|ops| - 1])
  }

  // ---------------------------------------------------------------- the trail tells the state

  /** What every operation keeps in memory. */
  predicate MemoryOk(m: Memory) {
    && m.nextId == |m.audit| + 1 && Numbered(m.audit)
    && PausesPausable(m.audit) && Chained(m.audit) && Replay(m.audit) == m.pause
  }

  /** A pause change is visible on its own target and on no other. */
  lemma PauseIsLocal(p: PauseState, t: Target, paused: bool, u: Target)
    requires Pausable(t) && Pausable(u)
    ensures IsPaused(WithPause(p, t, paused), u) == if u == t then paused else IsPaused(p, u)
  {
  }

  lemma {:induction false} ReplayTellsLast(audit: seq<AuditEvent>, t: Target)
    requires PausesPausable(audit) && Pausable(t)
    ensures IsPaused(Replay(audit), t) == LeftAs(audit, t)
  {
    if audit != [] {
      var rest, e := audit[..|audit| - 1], audit[|audit| - 1];
      ReplayTellsLast(rest, t);
      if e.pauseSet { PauseIsLocal(Replay(rest), e.target, e.after, t); }
    }
  }

  lemma ChainedOneMore(audit: seq<AuditEvent>, e: AuditEvent)
    requires Chained(audit) && (e.pauseSet ==> e.before == LeftAs(audit, e.target))
    ensures Chained(audit + [e])
  {
    var longer := audit + [e];
    forall i | 0 <= i < |longer| && longer[i].pauseSet
      ensures longer[i].before == LeftAs(longer[..i], longer[i].target)
    {
      if i < |audit| {
        assert longer[..i] == audit[..i] && longer[i] == audit[i];
      } else {
        assert longer[..i] == audit;
      }
    }
  }

  lemma ReplayOneMore(audit: seq<AuditEvent>, e: AuditEvent)
    ensures Replay(audit + [e]) == if e.pauseSet then WithPause(Replay(audit), e.target, e.after) else Replay(audit)
  {
  }

  lemma MemoryPauseKeepsOk(m: Memory, t: Target, paused: bool)
    requires MemoryOk(m) && Pausable(t)
    ensures MemoryOk(MemoryPause(m, t, paused))
  {
    var e := PauseEvent(m, t, paused);
    ReplayTellsLast(m.audit, t);
    PauseIsLocal(m.pause, t, paused, t);
    ChainedOneMore(m.audit, e);
    ReplayOneMore(m.audit, e);
  }

  lemma MemoryNoteKeepsOk(m: Memory, t: Target, before: bool, after: bool)
    requires MemoryOk(m)
    ensures MemoryOk(MemoryNote(m, t, before, after))
  {
    var e := AuditEvent(m.nextId, false, t, before, after);
    ChainedOneMore(m.audit, e);
    ReplayOneMore(m.audit, e);
  }

  lemma MemoryStepKeepsOk(m: Memory, op: Operation)
    requires MemoryOk(m)
    ensures MemoryOk(MemoryStep(m, op))
  {
    match op
    case SetPause(kind, name, paused) =>
      NormalizedIsPausable(kind, name);
      var t := Normalize(kind, name);
      if t.Some? { MemoryPauseKeepsOk(m, t.value, paused); }
    case Note(t, before, after) =>
      MemoryNoteKeepsOk(m, t, before, after);
  }

  /** Replaying the trail from nothing gives the current pause state, and the trail is chained target by target. */
  lemma {:induction false} AuditTellsState(ops: seq<Operation>)
    ensures var m := MemoryAfter(ops); Replay(m.audit) == m.pause && Chained(m.audit) && Numbered(m.audit)
    ensures MemoryOk(MemoryAfter(ops))
  {
    if ops != [] {
      AuditTellsState(ops[..|ops| - 1]);
      MemoryStepKeepsOk(MemoryAfter(ops[..|ops| - 1]), ops[|ops| - 1]);
    }
  }

  // ---------------------------------------------------------------- rows and sets agree

  ghost predicate Agree(m: Memory, s: Tables) {
    Represents(s.rows, m.pause) && s.audit == m.audit && m.nextId == |m.audit| + 1
  }

  lemma StepKeepsAgree(m: Memory, s: Tables, op: Operation)
    requires Agree(m, s)
    ensures Agree(MemoryStep(m, op), TablesStep(s, op))
  {
  }

  lemma {:induction false} FormsAgree(ops: seq<Operation>)
    ensures Agree(MemoryAfter(ops), TablesAfter(ops))
  {
    if ops != [] {
      FormsAgree(ops[..|ops| - 1]);
      StepKeepsAgree(MemoryAfter(ops[..|ops| - 1]), TablesAfter(ops[..|ops| - 1]), ops[|ops| - 1]);
    }
  }

  lemma AnswersAgree(rows: PauseRows, p: PauseState, provider: string, network: Option<string>)
    requires Represents(rows, p)
    ensures RowsAllow(rows, provider, network) <==> Allows(p, provider, network)
  {
    var g, q := Target(Global, "global"), Target(Provider, SafeProviderName(provider));
    assert g in Checked(provider, network) && q in Checked(provider, network);
    assert PausedRow(rows, g) <==> IsPaused(p, g);
    assert PausedRow(rows, q) <==> IsPaused(p, q);
    if network.Some? && IsNetwork(network.value) {
      var n := Target(Network, network.value);
      assert n in Checked(provider, network);
      assert PausedRow(rows, n) <==> IsPaused(p, n);
    }
  }

  /**
   * After any sequence of changes the table lets through exactly the payments the sets do, with the same audit trail.
   */
  lemma SameAnswersAfterAnyChanges(ops: seq<Operation>, provider: string, network: Option<string>)
    ensures RowsAllow(TablesAfter(ops).rows, provider, network) <==> Allows(MemoryAfter(ops).pause, provider, network)
    ensures TablesAfter(ops).audit == MemoryAfter(ops).audit
  {
    FormsAgree(ops);
    AnswersAgree(TablesAfter(ops).rows, MemoryAfter(ops).pause, provider, network);
  }

  // ---------------------------------------------------------------- which requests pause which payments

  /** A pause request that reaches this target, as it was sent. */
  predicate Reaches(op: Operation, t: Target) {
    && op.SetPause? && op.kind == t.kind
    && match t.kind
       case Global => true
       case Provider => op.name.Some? && op.name.value != "" && SafeProviderName(op.name.value) == t.name
       case Network => op.name == Some(t.name) && IsNetwork(t.name)
       case _ => false
  }

  /** The last request that reached the target said so. */
  function LastSaid(ops: seq<Operation>, t: Target): bool {
    if ops == [] then false
    else if Reaches(ops[|ops| - 1], t) then ops[|ops| - 1].paused
    else LastSaid(ops[..|ops| - 1], t)
  }

  lemma {:induction false} NormalizesExactly(op: Operation, t: Target)
    requires op.SetPause? && Pausable(t)
    ensures Normalize(op.kind, op.name) == Some(t) <==> Reaches(op, t)
  {
  }

  lemma {:induction false} PausedAsLastSaid(ops: seq<Operation>, t: Target)
    requires Pausable(t)
    ensures IsPaused(MemoryAfter(ops).pause, t) == LastSaid(ops, t)
  {
    if ops != [] {
      var rest, op := ops[..|ops| - 1], ops[|ops| - 1];
      PausedAsLastSaid(rest, t);
      if op.SetPause? {
        NormalizesExactly(op, t);
        NormalizedIsPausable(op.kind, op.name);
        var u := Normalize(op.kind, op.name);
        if u.Some? { PauseIsLocal(MemoryAfter(rest).pause, u.value, op.paused, t); }
      }
    }
  }

  /**
   * After any requests a payment is let through exactly when the last request that reached everything, its provider
   * and its network each said to go on; in either form.
   */
  lemma {:induction false} LetThroughExactly(ops: seq<Operation>, provider: string, network: Option<string>)
    ensures Allows(MemoryAfter(ops).pause, provider, network) <==>
            && !LastSaid(ops, Target(Global, "global"))
            && !LastSaid(ops, Target(Provider, SafeProviderName(provider)))
            && !(network.Some? && LastSaid(ops, Target(Network, network.value)))
    ensures RowsAllow(TablesAfter(ops).rows, provider, network) <==> Allows(MemoryAfter(ops).pause, provider, network)
  {
    PausedAsLastSaid(ops, Target(Global, "global"));
    PausedAsLastSaid(ops, Target(Provider, SafeProviderName(provider)));
    if network.Some? {
      if IsNetwork(network.value) {
        PausedAsLastSaid(ops, Target(Network, network.value));
      } else {
        NeverSaid(ops, network.value);
      }
    }
    SameAnswersAfterAnyChanges(ops, provider, network);
  }

  lemma {:induction false} NeverSaid(ops: seq<Operation>, name: string)
    requires !IsNetwork(name)
    ensures !LastSaid(ops, Target(Network, name))
  {
    if ops != [] { NeverSaid(ops[..|ops| - 1], name); }
  }

  /** Sanitising works letter by letter. */
  lemma {:induction false} KeepsPartByPart(a: string, b: string)
    ensures KeepNameChars(a + b) == KeepNameChars(a) + KeepNameChars(b)
  {
    if b == "" {
      assert a + b == a;
    } else {
      KeepsPartByPart(a, b[..|b| - 1]);
      assert (a + b)[..|a + b| - 1] == a + b[..|b| - 1];
    }
  }

  // ---------------------------------------------------------------- reading the trail

  function Reversed(audit: seq<AuditEvent>): (r: seq<AuditEvent>)
    ensures |r| == |audit| && forall i | 0 <= i < |r| :: r[i] == audit[|audit| - 1 - i]
  {
    seq(|audit|, i requires 0 <= i < |audit| => audit[|audit| - 1 - i])
  }

  function TailSize(limit: int): nat {
    if limit < 0 then 0 else if limit > 100 then 100 else limit
  }

  /** The in-memory tail slices from `-n`; from `-0` that is the whole list. */
  function MemoryTail(audit: seq<AuditEvent>, limit: int): seq<AuditEvent> {
    var n := TailSize(limit);
    Reversed(if n == 0 || n >= |audit| then audit else audit[|audit| - n..])
  }

  /** The table's tail: newest first, at most `n` rows. */
  function TablesTail(audit: seq<AuditEvent>, limit: int): seq<AuditEvent> {
    var n := TailSize(limit);
    if n >= |audit| then Reversed(audit) else Reversed(audit)[..n]
  }

  /** The table's tail is the newest events, newest first: as many as asked for, up to a hundred. */
  lemma TailIsNewest(audit: seq<AuditEvent>, limit: int)
    ensures var r := TablesTail(audit, limit);
            && (|r| == |audit| || |r| == 100 || (|r| == limit && limit < 100) || (limit < 0 && |r| == 0))
            && |r| <= |audit| && |r| <= 100 && (limit >= 0 ==> |r| <= limit)
            && forall i | 0 <= i < |r| :: r[i] == audit[|audit| - 1 - i]
  {
  }

  /** The tails agree exactly when the limit is positive or there is nothing to show. */
  lemma TailsAgreeExactly(audit: seq<AuditEvent>, limit: int)
    ensures MemoryTail(audit, limit) == TablesTail(audit, limit) <==> limit > 0 || audit == []
  {
  }
}
