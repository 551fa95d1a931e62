/** The two control-plane states as objects. */
module PauseObjects {
  import opened Wrappers
  import opened Pause

  class InMemoryControlPlaneState {
    var globalPaused: bool
    var providers: set<string>
    var networks: set<string>
    var audit: seq<AuditEvent>
    var nextEventId: nat

    function Value(): Memory
      reads this
    {
      Memory(PauseState(globalPaused, providers, networks), audit, nextEventId)
    }

    constructor ()
      ensures Value() == NEW_MEMORY
    {
      globalPaused, providers, networks, audit, nextEventId := false, {}, {}, [], 1;
    }

    method IsPausedNow(t: Target) returns (paused: bool)
      ensures paused == IsPaused(Value().pause, t)
    {
      match t.kind {
        case Global => paused := globalPaused;
        case Provider => paused := t.name in providers;
        case Network => paused := t.name in networks;
        case _ => paused := false;
      }
    }

    /** Refused requests change nothing; the others change one switch and append one event. */
    method SetPauseTarget(kind: Kind, name: Option<string>, paused: bool) returns (event: Option<AuditEvent>)
      modifies this
      ensures Value() == MemoryStep(old(Value()), SetPause(kind, name, paused))
      ensures event.Some? <==> Normalize(kind, name).Some?
      ensures event.Some? ==> event.value == Value().audit[|Value().audit| - 1]
                              && event.value.target == Normalize(kind, name).value && event.value.after == paused
    {
      var target := Normalize(kind, name);
      if target.None? {
        return None;
      }
      var t := target.value;
      NormalizedIsPausable(kind, name);
      PauseIsLocal(Value().pause, t, paused, t);
      var before := IsPausedNow(t);
      match t.kind {
        case Global => globalPaused := paused;
        case Provider => providers := Membership(providers, t.name, paused);
        case Network => networks := Membership(networks, t.name, paused);
        case _ =>
      }
      var after := IsPausedNow(t);
      var recorded := AuditEvent(nextEventId, true, t, before, after);
      nextEventId := nextEventId + 1;
      audit := audit + [recorded];
      event := Some(recorded);
    }

    method AllowsPayment(provider: string, network: Option<string>) returns (allowed: bool)
      ensures allowed == Allows(Value().pause, provider, network)
    {
      if globalPaused || SafeProviderName(provider) in providers {
        return false;
      }
      allowed := !(network.Some? && IsNetwork(network.value) && network.value in networks);
    }
  }

  class PostgresControlPlaneState {
    var rows: PauseRows
    var audit: seq<AuditEvent>

    function Value(): Tables
      reads this
    {
      Tables(rows, audit)
    }

    constructor ()
      ensures Value() == NEW_TABLES
    {
      rows, audit := map[], [];
    }

    /** One transaction: make sure of the row, lock it, overwrite it, record the event. */
    method SetPauseTarget(kind: Kind, name: Option<string>, paused: bool) returns (event: Option<AuditEvent>)
      modifies this
      ensures Value() == TablesStep(old(Value()), SetPause(kind, name, paused))
      ensures event.Some? <==> Normalize(kind, name).Some?
    {
      var target := Normalize(kind, name);
      if target.None? {
        return None;
      }
      var t := target.value;
      if t !in rows {
        rows := rows[t := false];
      }
      var before := rows[t];
      rows := rows[t := paused];
      var recorded := AuditEvent(|audit| + 1, true, t, before, paused);
      audit := audit + [recorded];
      event := Some(recorded);
    }

    /** Reads the paused rows one by one, in any order, into sets. */
    method ReadPauseState(ghost p: PauseState) returns (state: PauseState)
      requires Represents(rows, p)
      ensures state == p
    {
      state := NOTHING_PAUSED;
      var todo := set t | t in rows && rows[t];
      ghost var done: set<Target> := {};
      while todo != {}
        invariant forall t :: t in todo || t in done <==> PausedRow(rows, t)
        invariant state.globalPaused <==> Target(Global, "global") in done
        invariant forall name :: name in state.providers <==> Target(Provider, name) in done
        invariant forall name :: name in state.networks <==> Target(Network, name) in done
        decreases |todo|
      {
        var t :| t in todo;
        assert Pausable(t);
        match t.kind {
          case Global =>
            state := state.(globalPaused := true);
          case Provider =>
            SafeNameIsStable(t.name);
            state := state.(providers := state.providers + {SafeProviderName(t.name)});
          case Network =>
            if IsNetwork(t.name) {
              state := state.(networks := state.networks + {t.name});
            }
          case _ =>
        }
        todo, done := todo - {t}, done + {t};
      }
      RepresentedUniquely(rows, p, state, done);
    }
  }

  /** A pause state is determined by the rows that represent it. */
  lemma RepresentedUniquely(rows: PauseRows, p: PauseState, state: PauseState, paused: set<Target>)
    requires Represents(rows, p) && forall t :: t in paused <==> PausedRow(rows, t)
    requires state.globalPaused <==> Target(Global, "global") in paused
    requires forall name :: name in state.providers <==> Target(Provider, name) in paused
    requires forall name :: name in state.networks <==> Target(Network, name) in paused
    ensures state == p
  {
  }
}
