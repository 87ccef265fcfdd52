/** The error-budget freeze and its hysteresis, fed with its own recorded state. */
module ErrorBudget {
  import opened Wrappers

  type Time = int

  /** The recorded freeze; Since is the part of it a later evaluation reads. */
  datatype Freeze = Freeze(since: Time)
  datatype Thresholds = Thresholds(freezeAt: real, resumeAt: real)

  /** onSourceError, and which of the two gates applies the verdict. */
  datatype OnSourceError = Allow | Hold
  datatype Scope = Rollout | Stage
  datatype Policy = Policy(scope: Scope, onSourceError: OnSourceError, dryRun: bool)

  /** One pass: the budget's value or an outage of its source, or a pass the gate does not apply to. */
  datatype Observation = Value(now: Time, v: real) | Outage | Ungated

  /** The thresholds of a spec; an unset resume threshold means no hysteresis, one below the freeze point is refused. */
  function ParseThresholds(freeze: Option<real>, resumeSet: bool, resume: Option<real>): (r: Option<Thresholds>)
    ensures r.Some? <==> freeze.Some? && (resumeSet ==> resume.Some? && resume.value >= freeze.value)
    ensures r.Some? ==> r.value.freezeAt == freeze.value && r.value.freezeAt <= r.value.resumeAt
    ensures r.Some? ==> r.value.resumeAt == if resumeSet then resume.value else freeze.value
  {
    if freeze.None? then None
    else if !resumeSet then Some(Thresholds(freeze.value, freeze.value))
    else if resume.None? || resume.value < freeze.value then None
    else Some(Thresholds(freeze.value, resume.value))
  }

  function Evaluate(t: Thresholds, prev: Option<Freeze>, now: Time, v: real): Option<Freeze> {
    var frozen := if prev.Some? then v < t.resumeAt else v < t.freezeAt;
    if frozen then Some(Freeze(if prev.Some? then prev.value.since else now)) else None
  }

  /** An outage under Hold keeps the rollout-wide freeze as recorded, but a held stage records none. */
  predicate OutageKeeps(p: Policy) {
    p.onSourceError.Hold? && p.scope.Rollout?
  }

  function NextFreeze(t: Thresholds, p: Policy, prev: Option<Freeze>, o: Observation): Option<Freeze> {
    match o
    case Value(now, v) => Evaluate(t, prev, now, v)
    case Outage => if OutageKeeps(p) then prev else None
    case Ungated => None
  }

  predicate Defers(t: Thresholds, p: Policy, prev: Option<Freeze>, o: Observation) {
    match o
    case Value(now, v) => !p.dryRun && Evaluate(t, prev, now, v).Some?
    case Outage => p.onSourceError.Hold?
    case Ungated => false
  }

  class BudgetStatus {
    var freeze: Option<Freeze>

    constructor ()
      ensures freeze == None
    {
      freeze := None;
    }

    /** The rollout-wide gate of one pass, writing the freeze it records. */
    method GateErrorBudget(t: Thresholds, onSourceError: OnSourceError, dryRun: bool,
            o: Observation) returns (deferred: bool)
      modifies this
      ensures var p := Policy(Rollout, onSourceError, dryRun);
        freeze == NextFreeze(t, p, old(freeze), o) && deferred == Defers(t, p, old(freeze), o)
    {
      match o {
        case Ungated =>
          freeze := None;
          return false;
        case Outage =>
          if onSourceError == Hold { return true; }
          freeze := None;
          return false;
        case Value(now, v) =>
          var next := Evaluate(t, freeze, now, v);
          if next.None? {
            freeze := None;
            return false;
          }
          freeze := next;
          return !dryRun;
      }
    }
  }

  // ---- any sequence of passes ----

  function After(t: Thresholds, p: Policy, obs: seq<Observation>): Option<Freeze> {
    if obs == [] then None else NextFreeze(t, p, After(t, p, obs[..|obs| - 1]), obs[|obs| - 1])
  }

  predicate Freezes(t: Thresholds, o: Observation) {
    o.Value? && o.v < t.freezeAt
  }

  predicate KeepsFrozen(t: Thresholds, p: Policy, o: Observation) {
    (o.Value? && o.v < t.resumeAt) || (o.Outage? && p.onSourceError == Hold && p.scope == Rollout)
  }

  /** The frozen stretch that begins at observation k lasts through the end. */
  ghost predicate FrozenSince(t: Thresholds, p: Policy, obs: seq<Observation>, k: nat) {
    k < |obs| && Freezes(t, obs[k]) && forall j: nat | k <= j < |obs| :: KeepsFrozen(t, p, obs[j])
  }

  lemma {:induction false} SinceShrinks(t: Thresholds, p: Policy, obs: seq<Observation>, o: Observation, k: nat)
    requires k < |obs|
    ensures FrozenSince(t, p, obs + [o], k) <==> FrozenSince(t, p, obs, k) && KeepsFrozen(t, p, o)
  {
    var more := obs + [o];
    assert more[|obs|] == o;
    assert forall j: nat | j < |obs| :: more[j] == obs[j];
  }

  /**
   Frozen after n passes exactly when some pass read a value below the freeze point and every one from then on
   stayed below the resume point, or was an outage that keeps the freeze; Since is when that stretch began.
   */
  lemma {:induction false} FrozenIff(t: Thresholds, p: Policy, obs: seq<Observation>)
    requires t.freezeAt <= t.resumeAt
    ensures After(t, p, obs).Some? <==> exists k: nat :: FrozenSince(t, p, obs, k)
    ensures After(t, p, obs).Some? ==> exists k: nat ::
      FrozenSince(t, p, obs, k) && obs[k].now == After(t, p, obs).value.since && After(t, p, obs[..k]).None?
  {
    if obs != [] {
      var init, o, n := obs[..|obs| - 1], obs[|obs| - 1], |obs| - 1;
      FrozenIff(t, p, init);
      assert obs == init + [o];
      forall k: nat | k < n { SinceShrinks(t, p, init, o, k); }
      forall k: nat | k <= n ensures init[..k] == obs[..k] {}
      if After(t, p, obs).Some? {
        if After(t, p, init).Some? {
          var k: nat :| FrozenSince(t, p, init, k) && init[k].now == After(t, p, init).value.since &&
            After(t, p, init[..k]).None?;
          assert FrozenSince(t, p, obs, k);
        } else {
          assert obs[..n] == init;
          assert FrozenSince(t, p, obs, n);
        }
      }
      if k: nat :| FrozenSince(t, p, obs, k) {
        if k < n { assert FrozenSince(t, p, init, k); }
      }
    }
  }

  /**
   The rollout is held back after some passes exactly by a reading that leaves it frozen, unless in a dry run, or by an
   outage under Hold, in a dry run too; nothing holds back a pass the gate does not apply to.
   */
  lemma {:induction false} DefersIff(t: Thresholds, p: Policy, obs: seq<Observation>, o: Observation)
    requires t.freezeAt <= t.resumeAt
    ensures Defers(t, p, After(t, p, obs), o) <==>
      || (o.Outage? && p.onSourceError == Hold)
      || (o.Value? && !p.dryRun && (o.v < t.freezeAt ||
           (o.v < t.resumeAt && exists k: nat :: FrozenSince(t, p, obs, k))))
  {
    FrozenIff(t, p, obs);
  }

  /** One outage under Hold in a frozen stretch: the rollout-wide gate stays frozen, a stage's own gate thaws. */
  lemma {:induction false} StageForgetsFreeze()
    ensures var t := Thresholds(10.0, 30.0);
      var obs := [Value(0, 5.0), Outage, Value(2, 20.0)];
      After(t, Policy(Rollout, Hold, false), obs) == Some(Freeze(0)) &&
        After(t, Policy(Stage, Hold, false), obs) == None
  {
    var a, b, c: Observation := Value(0, 5.0), Outage, Value(2, 20.0);
    assert [a, b, c][..2] == [a, b] && [a, b][..1] == [a] && [a][..0] == [];
    var t := Thresholds(10.0, 30.0);
    assert Evaluate(t, None, 0, 5.0) == Some(Freeze(0));
    assert After(t, Policy(Rollout, Hold, false), [a]) == Some(Freeze(0));
    assert After(t, Policy(Rollout, Hold, false), [a, b]) == Some(Freeze(0));
    assert After(t, Policy(Stage, Hold, false), [a, b]) == None;
  }
}
