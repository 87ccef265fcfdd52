/**
 The promotion gate of one stage: soak, fast-track, analysis, restart and event checks, the manual
 gate and the break-glass promote token, with all state carried in the stage's status.
 */
module Promotion {
  import opened Wrappers

  type Time = int
  type Revision = string
  type Token = string // "" when absent

  datatype Phase = Soaking | Analyzing | AwaitingManual | Blocked | Promoted
  datatype State = State(phase: Phase, since: Option<Time>, soakUntil: Option<Time>, failures: nat,
    aborted: Option<Revision>)
  datatype Analysis = Analysis(allowSourceError: bool, failureLimit: nat, dryRun: bool, rollbackOnFailure: bool)
  datatype Gate = Gate(soak: int, fastTrackAfter: Option<int>, analysis: Option<Analysis>, manual: bool)

  /** The part of a stage's status the gate reads and writes. */
  datatype Record = Record(appliedRevision: Revision, state: Option<State>, handled: Token)

  datatype Verdict = Verdict(breached: bool, sourceErr: bool)
  datatype Breach = Breach(rollback: bool)

  /** What an evaluation observes: the token addressed to the stage and the verdicts of its checks. */
  datatype Inputs = Inputs(token: Token, verdict: Verdict, fastTrackOK: bool, restart: Option<Breach>,
    event: Option<Breach>)
  datatype Decision = Decision(promoted: bool, state: Option<State>, handled: Token, rollback: bool)

  predicate PastSoak(p: Phase) {
    p.Analyzing? || p.AwaitingManual? || p.Promoted?
  }

  predicate SameRevision(prior: Record, revision: Revision) {
    prior.appliedRevision == revision && prior.state.Some?
  }

  function CarriedDeadline(prior: Record, revision: Revision): Option<Time> {
    if SameRevision(prior, revision) then prior.state.value.soakUntil else None
  }

  function PhaseSince(prior: Record, revision: Revision, phase: Phase, now: Time): Option<Time> {
    if SameRevision(prior, revision) && prior.state.value.phase == phase && prior.state.value.since.Some?
    then prior.state.value.since else Some(now)
  }

  predicate AlreadyPromoted(prior: Record, revision: Revision) {
    SameRevision(prior, revision) && prior.state.value.phase == Promoted
  }

  predicate FreshToken(prior: Record, x: Inputs) {
    x.token != "" && x.token != prior.handled
  }

  predicate FailingNow(g: Gate, x: Inputs) {
    g.analysis.Some? && (x.verdict.breached || (x.verdict.sourceErr && !g.analysis.value.allowSourceError))
  }

  function Failures(g: Gate, prior: Record, revision: Revision, x: Inputs): nat {
    if FailingNow(g, x) then (if SameRevision(prior, revision) then prior.state.value.failures else 0) + 1 else 0
  }

  /** The soak applies until a phase that comes after it has been recorded at this revision. */
  predicate SoakApplies(g: Gate, prior: Record, revision: Revision) {
    g.soak > 0 && !(SameRevision(prior, revision) && PastSoak(prior.state.value.phase))
  }

  /** Where the running soak began: resumed from its recorded deadline, or now. */
  function SoakSince(g: Gate, prior: Record, revision: Revision, now: Time): Time {
    if SameRevision(prior, revision) && prior.state.value.soakUntil.Some?
    then prior.state.value.soakUntil.value - g.soak
    else if SameRevision(prior, revision) && prior.state.value.phase == Soaking && prior.state.value.since.Some?
    then prior.state.value.since.value
    else now
  }

  predicate FastTracks(g: Gate, prior: Record, revision: Revision, now: Time, x: Inputs) {
    g.fastTrackAfter.Some? && x.fastTrackOK && SoakSince(g, prior, revision, now) + g.fastTrackAfter.value <= now
  }

  predicate HoldsForSoak(g: Gate, prior: Record, revision: Revision, now: Time, x: Inputs) {
    && SoakApplies(g, prior, revision)
    && now < SoakSince(g, prior, revision, now) + g.soak
    && !FastTracks(g, prior, revision, now, x)
  }

  /** The gate's decision for a stage just applied and verified at `revision`. */
  function GatePromotion(gate: Option<Gate>, revision: Revision, prior: Record, now: Time, x: Inputs): Decision {
    if gate.None? then Decision(true, None, prior.handled, false)
    else
      var g := gate.value;
      var failures := Failures(g, prior, revision, x);
      if AlreadyPromoted(prior, revision) then
        Decision(true, prior.state, prior.handled, false)
      else if FreshToken(prior, x) then
        Decision(true, Some(State(Promoted, Some(now), None, 0, None)), x.token, false)
      else if x.restart.Some? || x.event.Some? then
        var blocked := State(Blocked, PhaseSince(prior, revision, Blocked, now), CarriedDeadline(prior, revision), 0,
          None);
        Decision(false, Some(blocked), prior.handled, if x.restart.Some? then x.restart.value.rollback
          else x.event.value.rollback)
      else if g.analysis.Some? && failures > g.analysis.value.failureLimit && !g.analysis.value.dryRun then
        var blocked := State(Blocked, PhaseSince(prior, revision, Blocked, now), CarriedDeadline(prior, revision),
          failures, None);
        Decision(false, Some(blocked), prior.handled, g.analysis.value.rollbackOnFailure)
      else if HoldsForSoak(g, prior, revision, now, x) then
        var since := SoakSince(g, prior, revision, now);
        Decision(false, Some(State(Soaking, Some(since), Some(since + g.soak), failures, None)), prior.handled, false)
      else if FailingNow(g, x) && !g.analysis.value.dryRun then
        Decision(false, Some(State(Analyzing, PhaseSince(prior, revision, Analyzing, now), None, failures, None)),
          prior.handled, false)
      else if g.manual then
        Decision(false, Some(State(AwaitingManual, PhaseSince(prior, revision, AwaitingManual, now), None, failures,
          None)), prior.handled, false)
      else
        Decision(true, Some(State(Promoted, Some(now), None, failures, None)), prior.handled, false)
  }

  // ---- what the decision rests on ----

  /** The stage's recorded state is this revision's, in that phase. */
  predicate RecordedAs(prior: Record, revision: Revision, phase: Phase) {
    prior.appliedRevision == revision && prior.state.Some? && prior.state.value.phase == phase
  }

  /** The soak's beginning: of a recorded deadline, else of a recorded Soaking, else now. */
  predicate SoakBegan(g: Gate, revision: Revision, prior: Record, now: Time, began: Time) {
    if prior.appliedRevision == revision && prior.state.Some? && prior.state.value.soakUntil.Some? then
      prior.state.value.soakUntil == Some(began + g.soak)
    else if RecordedAs(prior, revision, Soaking) && prior.state.value.since.Some? then
      prior.state.value.since == Some(began)
    else began == now
  }

  /** Neither over, at its end or on the fast track, nor behind the stage. */
  ghost predicate SoakRuns(g: Gate, revision: Revision, prior: Record, now: Time, x: Inputs) {
    && g.soak > 0
    && !RecordedAs(prior, revision, Analyzing) && !RecordedAs(prior, revision, AwaitingManual)
    && !RecordedAs(prior, revision, Promoted)
    && exists began: Time | SoakBegan(g, revision, prior, now, began) ::
         now - began < g.soak && !(g.fastTrackAfter.Some? && x.fastTrackOK && now - began >= g.fastTrackAfter.value)
  }

  /** The analysis counts against the stage now. */
  predicate AnalysisFails(g: Gate, x: Inputs) {
    && g.analysis.Some? && !g.analysis.value.dryRun
    && (x.verdict.breached || (x.verdict.sourceErr && !g.analysis.value.allowSourceError))
  }

  lemma {:induction false} SoakRunsIff(g: Gate, revision: Revision, prior: Record, now: Time, x: Inputs)
    ensures SoakRuns(g, revision, prior, now, x) <==> HoldsForSoak(g, prior, revision, now, x)
  {
    var since := SoakSince(g, prior, revision, now);
    assert SoakBegan(g, revision, prior, now, since);
    if SoakRuns(g, revision, prior, now, x) {
      var began: Time :| SoakBegan(g, revision, prior, now, began) && now - began < g.soak &&
        !(g.fastTrackAfter.Some? && x.fastTrackOK && now - began >= g.fastTrackAfter.value);
      assert began == since;
    }
  }

  /**
   A gated stage is promoted exactly when it already is at this revision, or a fresh token says so, or nothing stands
   against it: no crashloop, no event, no failing analysis, no running soak and no manual step.
   */
  lemma {:induction false} PromotedIff(g: Gate, revision: Revision, prior: Record, now: Time, x: Inputs)
    ensures GatePromotion(Some(g), revision, prior, now, x).promoted <==>
      || RecordedAs(prior, revision, Promoted)
      || (x.token != "" && x.token != prior.handled)
      || (x.restart.None? && x.event.None? && !AnalysisFails(g, x) && !SoakRuns(g, revision, prior, now, x)
          && !g.manual)
  {
    SoakRunsIff(g, revision, prior, now, x);
  }

  /** The analysis has failed more often in a row than its limit allows. */
  predicate OverLimit(g: Gate, revision: Revision, prior: Record, x: Inputs) {
    && AnalysisFails(g, x)
    && (if prior.appliedRevision == revision && prior.state.Some? then prior.state.value.failures else 0) >=
         g.analysis.value.failureLimit
  }

  /** It dates from when the phase was first recorded at this revision. */
  predicate Since(state: State, prior: Record, revision: Revision, now: Time) {
    if RecordedAs(prior, revision, state.phase) && prior.state.value.since.Some?
    then state.since == prior.state.value.since else state.since == Some(now)
  }

  /**
   Neither promoted before nor by a token, a stage is blocked exactly by a crashloop, an event or an analysis over
   its limit, and rolled back exactly when the first of these in that order asks for it.
   */
  lemma {:induction false} BlockedIff(g: Gate, revision: Revision, prior: Record, now: Time, x: Inputs)
    requires !RecordedAs(prior, revision, Promoted) && (x.token == "" || x.token == prior.handled)
    ensures var d := GatePromotion(Some(g), revision, prior, now, x);
      && d.state.Some?
      && (d.state.value.phase == Blocked <==> x.restart.Some? || x.event.Some? || OverLimit(g, revision, prior, x))
      && (d.rollback <==>
           if x.restart.Some? then x.restart.value.rollback
           else if x.event.Some? then x.event.value.rollback
           else OverLimit(g, revision, prior, x) && g.analysis.value.rollbackOnFailure)
      && d.handled == prior.handled
      && (d.state.value.phase == Blocked ==>
           && Since(d.state.value, prior, revision, now)
           && (x.restart.Some? || x.event.Some? <==> d.state.value.failures == 0)
           && d.state.value.soakUntil ==
                if prior.appliedRevision == revision && prior.state.Some? then prior.state.value.soakUntil else None)
  {
  }

  /**
   Otherwise it soaks while its soak runs, is then held by an analysis that fails within its limit, and then by the
   manual step. A failing analysis counts up, in a dry run too, and any other evaluation starts the count over.
   */
  lemma {:induction false} HeldAs(g: Gate, revision: Revision, prior: Record, now: Time, x: Inputs)
    requires !RecordedAs(prior, revision, Promoted) && (x.token == "" || x.token == prior.handled)
    requires x.restart.None? && x.event.None? && !OverLimit(g, revision, prior, x)
    ensures var state := GatePromotion(Some(g), revision, prior, now, x).state.value;
      && state.phase == (if SoakRuns(g, revision, prior, now, x) then Soaking
                         else if AnalysisFails(g, x) then Analyzing
                         else if g.manual then AwaitingManual else Promoted)
      && (state.phase == Soaking <==> state.soakUntil.Some?)
      && (state.phase == Analyzing || state.phase == AwaitingManual ==> Since(state, prior, revision, now))
      && state.failures ==
           if g.analysis.Some? && (x.verdict.breached ||
             (x.verdict.sourceErr && !g.analysis.value.allowSourceError)) then
             (if prior.appliedRevision == revision && prior.state.Some? then prior.state.value.failures else 0) + 1
           else 0
  {
    SoakRunsIff(g, revision, prior, now, x);
  }

  // ---- what reconciles record on the stage ----

  datatype Event =
    | Evaluate(revision: Revision, now: Time, x: Inputs) // applied, verified and judged
    | Interrupt(revision: Revision)                      // applied and verified, but a check could not be read
    | Drop(revision: Revision)                           // the stage failed, or is still becoming ready
    | Unreached                                          // held before the stage, or out of its own error budget

  function Recorded(gate: Option<Gate>, prior: Record, e: Event): Record {
    match e
    case Evaluate(revision, now, x) =>
      var d := GatePromotion(gate, revision, prior, now, x);
      Record(revision, d.state, d.handled)
    case Interrupt(revision) => prior.(appliedRevision := revision)
    case Drop(revision) => Record(revision, None, "")
    case Unreached => prior
  }

  const FRESH := Record("", None, "")

  function History(gate: Option<Gate>, events: seq<Event>): Record {
    if events == [] then FRESH else Recorded(gate, History(gate, events[..|events| - 1]), events[|events| - 1])
  }

  /**
   An interruption writes the new revision beside whatever promotion state is recorded. It is harmless when
   that state is this revision's own, or has neither a running deadline nor a phase after the soak.
   */
  predicate Harmless(prior: Record, revision: Revision) {
    || prior.appliedRevision == revision
    || prior.state.None?
    || (!PastSoak(prior.state.value.phase) && prior.state.value.soakUntil.None?)
  }

  ghost predicate InterruptsHarmless(gate: Option<Gate>, events: seq<Event>) {
    forall k: nat | k < |events| && events[k].Interrupt? :: Harmless(History(gate, events[..k]), events[k].revision)
  }

  /** The event leaves the stage's promotion state to the revision that holds it. */
  predicate Keeps(e: Event, revision: Revision) {
    e.Unreached? || (e.Evaluate? && e.revision == revision) || (e.Interrupt? && e.revision == revision)
  }

  /** From event i on, the stage stays at the revision and its record is never dropped. */
  ghost predicate Unbroken(events: seq<Event>, i: nat, revision: Revision) {
    forall k: nat | i <= k < |events| :: Keeps(events[k], revision)
  }

  /** In the stretch at the revision the run ends in, event i recorded Soaking. */
  ghost predicate RecordsSoaking(gate: Gate, events: seq<Event>, i: nat, revision: Revision) {
    && i < |events| && Unbroken(events, i, revision) && events[i].Evaluate? && events[i].revision == revision
    && var s := History(Some(gate), events[..i + 1]).state;
       s.Some? && s.value.phase == Soaking
  }

  /** In that stretch, event j took a fresh token, or cut the soak short on the fast track. */
  ghost predicate Shortens(gate: Gate, events: seq<Event>, j: nat, revision: Revision) {
    && j < |events| && Unbroken(events, j, revision) && events[j].Evaluate? && events[j].revision == revision
    && var prior := History(Some(gate), events[..j]);
       FreshToken(prior, events[j].x) || FastTracks(gate, prior, revision, events[j].now, events[j].x)
  }

  /** In that stretch, evaluation j came at least the whole soak after one that recorded Soaking. */
  ghost predicate SoakedBetween(gate: Gate, events: seq<Event>, i: nat, j: nat, revision: Revision) {
    && RecordsSoaking(gate, events, i, revision)
    && i < j < |events| && events[j].Evaluate? && events[j].revision == revision
    && events[i].now + gate.soak <= events[j].now
  }

  ghost predicate Earned(gate: Gate, events: seq<Event>, revision: Revision) {
    || (exists j: nat :: Shortens(gate, events, j, revision))
    || (exists i: nat, j: nat :: SoakedBetween(gate, events, i, j, revision))
  }

  /** The deadline rests on an evaluation at the revision that recorded Soaking. */
  ghost predicate Backed(gate: Gate, events: seq<Event>, revision: Revision, deadline: Time) {
    exists i: nat :: RecordsSoaking(gate, events, i, revision) && events[i].now + gate.soak == deadline
  }

  /** What the recorded state claims about the past. */
  ghost predicate Honest(gate: Gate, events: seq<Event>) {
    var r := History(Some(gate), events);
    r.state.Some? ==>
      && (r.state.value.phase == Soaking ==> r.state.value.soakUntil.Some?)
      && (r.state.value.soakUntil.Some? ==>
           && !PastSoak(r.state.value.phase)
           && Backed(gate, events, r.appliedRevision, r.state.value.soakUntil.value))
      && (PastSoak(r.state.value.phase) ==> Earned(gate, events, r.appliedRevision))
  }

  lemma {:induction false} PastKept(gate: Gate, events: seq<Event>, e: Event, r: Revision)
    requires Keeps(e, r)
    ensures forall i: nat :: RecordsSoaking(gate, events, i, r) ==> RecordsSoaking(gate, events + [e], i, r)
    ensures forall j: nat :: Shortens(gate, events, j, r) ==> Shortens(gate, events + [e], j, r)
    ensures Earned(gate, events, r) ==> Earned(gate, events + [e], r)
    ensures forall t: Time :: Backed(gate, events, r, t) ==> Backed(gate, events + [e], r, t)
  {
    var more := events + [e];
    forall k: nat | k <= |events| ensures more[..k] == events[..k] {}
    forall i: nat | i <= |events| && Unbroken(events, i, r) ensures Unbroken(more, i, r) {}
    forall t: Time | Backed(gate, events, r, t) ensures Backed(gate, more, r, t) {
      var i: nat :| RecordsSoaking(gate, events, i, r) && events[i].now + gate.soak == t;
      assert RecordsSoaking(gate, more, i, r) && more[i] == events[i];
    }
    if Earned(gate, events, r) {
      if j: nat :| Shortens(gate, events, j, r) {
        assert Shortens(gate, more, j, r);
      } else {
        var i: nat, j: nat :| SoakedBetween(gate, events, i, j, r);
        assert SoakedBetween(gate, more, i, j, r);
      }
    }
  }

  /** An evaluation that records a phase after the soak has earned it. */
  lemma {:induction false} EvaluateEarns(gate: Gate, events: seq<Event>, e: Event)
    requires gate.soak > 0 && Honest(gate, events) && e.Evaluate?
    requires var s := GatePromotion(Some(gate), e.revision, History(Some(gate), events), e.now, e.x).state;
      s.Some? && PastSoak(s.value.phase)
    ensures Earned(gate, events + [e], e.revision)
  {
    var more, n := events + [e], |events|;
    assert more[..n] == events;
    var prior := History(Some(gate), events);
    PastKept(gate, events, e, e.revision);
    if AlreadyPromoted(prior, e.revision) {
    } else if FreshToken(prior, e.x) ||
      (SoakApplies(gate, prior, e.revision) && FastTracks(gate, prior, e.revision, e.now, e.x)) {
      assert Shortens(gate, more, n, e.revision);
    } else if SoakApplies(gate, prior, e.revision) {
      var i: nat :| RecordsSoaking(gate, events, i, e.revision) &&
        events[i].now + gate.soak == prior.state.value.soakUntil.value;
      assert SoakedBetween(gate, more, i, n, e.revision);
    }
  }

  lemma {:induction false} RecordsNow(gate: Gate, events: seq<Event>, e: Event)
    requires e.Evaluate?
    requires var s := GatePromotion(Some(gate), e.revision, History(Some(gate), events), e.now, e.x).state;
      s.Some? && s.value.phase == Soaking
    ensures RecordsSoaking(gate, events + [e], |events|, e.revision)
  {
    assert (events + [e])[..|events|] == events && (events + [e])[..|events| + 1] == events + [e];
  }

  /** A deadline that an evaluation records is the one it found, or begins with it. */
  lemma {:induction false} RecordedDeadline(gate: Gate, prior: Record, e: Event, s: State)
    requires gate.soak > 0 && e.Evaluate? && GatePromotion(Some(gate), e.revision, prior, e.now, e.x).state == Some(s)
    requires prior.state.Some? && prior.state.value.phase == Soaking ==> prior.state.value.soakUntil.Some?
    requires !PastSoak(s.phase) && s.soakUntil.Some?
    ensures if CarriedDeadline(prior, e.revision).Some? then s.soakUntil == CarriedDeadline(prior, e.revision)
            else s.phase == Soaking && s.soakUntil == Some(e.now + gate.soak)
  {
  }

  lemma {:induction false} EvaluateBacks(gate: Gate, events: seq<Event>, e: Event, s: State)
    requires gate.soak > 0 && Honest(gate, events) && e.Evaluate?
    requires GatePromotion(Some(gate), e.revision, History(Some(gate), events), e.now, e.x).state == Some(s)
    requires !PastSoak(s.phase) && s.soakUntil.Some?
    ensures Backed(gate, events + [e], e.revision, s.soakUntil.value)
  {
    var prior := History(Some(gate), events);
    RecordedDeadline(gate, prior, e, s);
    if CarriedDeadline(prior, e.revision).Some? {
      PastKept(gate, events, e, e.revision);
    } else {
      RecordsNow(gate, events, e);
      assert (events + [e])[|events|] == e;
    }
  }

  lemma {:induction false} SoakingHasDeadline(gate: Gate, prior: Record, e: Event, s: State)
    requires gate.soak > 0 && e.Evaluate? && GatePromotion(Some(gate), e.revision, prior, e.now, e.x).state == Some(s)
    requires prior.state.Some? && PastSoak(prior.state.value.phase) ==> prior.state.value.soakUntil.None?
    ensures s.phase == Soaking ==> s.soakUntil.Some?
    ensures PastSoak(s.phase) ==> s.soakUntil.None?
  {
  }

  lemma {:induction false} EvaluateHonest(gate: Gate, events: seq<Event>, e: Event)
    requires gate.soak > 0 && Honest(gate, events) && e.Evaluate?
    ensures Honest(gate, events + [e])
  {
    assert (events + [e])[..|events|] == events;
    var s := GatePromotion(Some(gate), e.revision, History(Some(gate), events), e.now, e.x).state.value;
    SoakingHasDeadline(gate, History(Some(gate), events), e, s);
    if PastSoak(s.phase) {
      EvaluateEarns(gate, events, e);
    } else if s.soakUntil.Some? {
      EvaluateBacks(gate, events, e, s);
    }
  }

  lemma {:induction false} RunHonest(gate: Gate, events: seq<Event>)
    requires gate.soak > 0 && InterruptsHarmless(Some(gate), events)
    ensures Honest(gate, events)
  {
    if events != [] {
      var init, e := events[..|events| - 1], events[|events| - 1];
      assert events == init + [e];
      forall k: nat | k < |init| ensures init[..k] == events[..k] {}
      RunHonest(gate, init);
      var r := History(Some(gate), init).appliedRevision;
      if e.Evaluate? {
        EvaluateHonest(gate, init, e);
      } else if Keeps(e, r) {
        PastKept(gate, init, e, r);
      }
    }
  }

  /** The run ends in an evaluation that promotes. */
  predicate Promotes(gate: Gate, events: seq<Event>) {
    && events != [] && events[|events| - 1].Evaluate?
    && var e := events[|events| - 1];
       GatePromotion(Some(gate), e.revision, History(Some(gate), events[..|events| - 1]), e.now, e.x).promoted
  }

  /**
   Over any run without reverts whose interruptions are harmless, a promoted stage, since it last came to its
   revision or last had its record dropped, either had a fresh token or the fast track, or an evaluation that came
   at least the whole soak after one that recorded Soaking.
   */
  lemma {:induction false} PromotionIsEarned(gate: Gate, events: seq<Event>)
    requires gate.soak > 0 && InterruptsHarmless(Some(gate), events) && Promotes(gate, events)
    ensures Earned(gate, events, events[|events| - 1].revision)
  {
    RunHonest(gate, events);
  }

  // ---- exactly which interruption breaks the promise ----

  /** However the run goes on at the revision, whatever it promotes has earned it. */
  ghost predicate StaysEarned(gate: Gate, events: seq<Event>, revision: Revision) {
    forall more: seq<Event> | (forall e <- more :: Keeps(e, revision)) && Promotes(gate, events + more) ::
      Earned(gate, events + more, revision)
  }

  /** A gate with a manual step promotes on a token only, unless the state it finds says Promoted. */
  predicate AwaitsToken(g: Gate, prior: Record) {
    g.manual && prior.state.Some? && prior.state.value.phase != Promoted
  }

  lemma {:induction false} StillAt(gate: Gate, start: seq<Event>, r: Revision, more: seq<Event>)
    requires History(Some(gate), start).appliedRevision == r && forall e <- more :: Keeps(e, r)
    ensures History(Some(gate), start + more).appliedRevision == r
  {
    if more == [] {
      assert start + more == start;
    } else {
      var init, e := more[..|more| - 1], more[|more| - 1];
      StillAt(gate, start, r, init);
      assert Keeps(e, r);
      assert start + more == (start + init) + [e] && (start + more)[..|start + init|] == start + init;
    }
  }

  lemma {:induction false} HarmlessThroughout(gate: Gate, events: seq<Event>, r: Revision, more: seq<Event>)
    requires InterruptsHarmless(Some(gate), events) && Harmless(History(Some(gate), events), r)
    requires forall e <- more :: Keeps(e, r)
    ensures InterruptsHarmless(Some(gate), events + [Interrupt(r)] + more)
  {
    var start := events + [Interrupt(r)];
    var run, n := start + more, |events|;
    assert start[..n] == events;
    forall k: nat | k < |run| && run[k].Interrupt?
      ensures Harmless(History(Some(gate), run[..k]), run[k].revision)
    {
      if k <= n {
        assert run[..k] == events[..k] && (k < n ==> run[k] == events[k]) && events[..n] == events;
      } else {
        assert run[..k] == start + more[..k - n - 1] && run[k] == more[k - n - 1];
        assert Keeps(more[k - n - 1], r);
        StillAt(gate, start, r, more[..k - n - 1]);
      }
    }
  }

  /** Behind such a gate, a recorded Promoted came from a token taken since the interruption. */
  lemma {:induction false} TokenEarns(gate: Gate, start: seq<Event>, r: Revision, more: seq<Event>)
    requires AwaitsToken(gate, History(Some(gate), start)) && History(Some(gate), start).appliedRevision == r
    requires forall e <- more :: Keeps(e, r)
    ensures var now := History(Some(gate), start + more);
      && now.appliedRevision == r && now.state.Some?
      && (now.state.value.phase == Promoted ==> Earned(gate, start + more, r))
    ensures more != [] && Promotes(gate, start + more) ==> Earned(gate, start + more, r)
  {
    if more == [] {
      assert start + more == start;
    } else {
      var init, e := more[..|more| - 1], more[|more| - 1];
      TokenEarns(gate, start, r, init);
      assert start + more == (start + init) + [e] && (start + more)[..|start + init|] == start + init;
      PastKept(gate, start + init, e, r);
      if e.Evaluate? && FreshToken(History(Some(gate), start + init), e.x) {
        assert Shortens(gate, start + more, |start + init|, r);
      }
    }
  }

  /** A stretch that began with an evaluation at the revision is still at it. */
  lemma {:induction false} StretchIsAt(gate: Gate, events: seq<Event>, i: nat, r: Revision)
    requires i < |events| && Unbroken(events, i, r) && events[i].Evaluate?
    ensures History(Some(gate), events).appliedRevision == r
  {
    var n := |events| - 1;
    assert Keeps(events[n], r);
    if i < n {
      assert Unbroken(events[..n], i, r);
      StretchIsAt(gate, events[..n], i, r);
    }
  }

  /** The stretch a promotion must be earned in begins behind the event at another revision. */
  lemma {:induction false} NoStretchYet(gate: Gate, events: seq<Event>, e: Event, e': Event, i: nat, r: Revision)
    requires History(Some(gate), events).appliedRevision != r && e.Interrupt?
    requires i < |events| + 1 && Unbroken(events + [e, e'], i, r)
    ensures !(events + [e, e'])[i].Evaluate?
  {
    var run := events + [e, e'];
    if i < |events| && run[i].Evaluate? {
      forall k: nat | i <= k < |events| ensures Keeps(events[k], r) { assert Keeps(run[k], r); }
      StretchIsAt(gate, events, i, r);
    }
  }

  const QUIET := Inputs("", Verdict(false, false), false, None, None)

  lemma {:induction false} QuietIsUnearned(gate: Gate, events: seq<Event>, r: Revision, e: Event)
    requires History(Some(gate), events).appliedRevision != r && e.Evaluate? && e.x == QUIET
    ensures !Earned(gate, events + [Interrupt(r), e], r)
  {
    var run, n := events + [Interrupt(r), e], |events| + 1;
    forall i: nat | i < n && Unbroken(run, i, r) ensures !run[i].Evaluate? {
      NoStretchYet(gate, events, Interrupt(r), e, i, r);
    }
  }

  /** What the first evaluation behind a harmful interruption does when nothing else holds it. */
  lemma {:induction false} PromotesUnearned(gate: Gate, events: seq<Event>, r: Revision) returns (e: Event)
    requires gate.soak > 0 && Honest(gate, events) && !Harmless(History(Some(gate), events), r)
    requires !AwaitsToken(gate, History(Some(gate), events))
    ensures Keeps(e, r) && Promotes(gate, events + [Interrupt(r), e])
    ensures !Earned(gate, events + [Interrupt(r), e], r)
  {
    var prior := History(Some(gate), events);
    var until := prior.state.value.soakUntil;
    e := Evaluate(r, if until.Some? then until.value else 0, QUIET);
    var run := events + [Interrupt(r), e];
    assert run[..|events| + 1] == events + [Interrupt(r)] && (events + [Interrupt(r)])[..|events|] == events;
    QuietIsUnearned(gate, events, r, e);
  }

  /**
   Behind a run whose interruptions were harmless, an interruption at r leaves every later promotion at r earned,
   however the stage goes on at r, if and only if it is harmless too, or the gate has a manual step and the state it
   finds is not Promoted.
   */
  lemma {:induction false} SoakHonouredIff(gate: Gate, events: seq<Event>, r: Revision)
    requires gate.soak > 0 && InterruptsHarmless(Some(gate), events)
    ensures var prior := History(Some(gate), events);
      StaysEarned(gate, events + [Interrupt(r)], r) <==> Harmless(prior, r) || AwaitsToken(gate, prior)
  {
    var start, prior := events + [Interrupt(r)], History(Some(gate), events);
    assert start[..|events|] == events;
    if Harmless(prior, r) {
      forall more: seq<Event> | (forall e <- more :: Keeps(e, r)) && Promotes(gate, start + more)
        ensures Earned(gate, start + more, r)
      {
        assert more == [] ==> start + more == start;
        assert more != [] ==> Keeps(more[|more| - 1], r);
        HarmlessThroughout(gate, events, r, more);
        PromotionIsEarned(gate, start + more);
      }
    } else if AwaitsToken(gate, prior) {
      forall more: seq<Event> | (forall e <- more :: Keeps(e, r)) && Promotes(gate, start + more)
        ensures Earned(gate, start + more, r)
      {
        assert more == [] ==> start + more == start;
        TokenEarns(gate, start, r, more);
      }
    } else {
      RunHonest(gate, events);
      var e := PromotesUnearned(gate, events, r);
      assert start + [e] == events + [Interrupt(r), e];
      assert forall e' <- [e] :: Keeps(e', r);
    }
  }

  // ---- a crashlooping stage ----

  /** Every evaluation of the run finds the stage crashlooping or hit by an event, and no token. */
  predicate AllBreach(events: seq<Event>) {
    forall e <- events | e.Evaluate? :: (e.x.restart.Some? || e.x.event.Some?) && e.x.token == ""
  }

  /**
   From any state but Promoted, however passes mix interruptions, failures and revisions, a stage that is found
   breaching in every evaluation is promoted in none of them.
   */
  lemma {:induction false} BreachNeverPromotes(gate: Gate, start: seq<Event>, more: seq<Event>)
    requires var s := History(Some(gate), start).state; s.Some? ==> s.value.phase != Promoted
    requires AllBreach(more)
    ensures var s := History(Some(gate), start + more).state; s.Some? ==> s.value.phase != Promoted
    ensures more != [] ==> !Promotes(gate, start + more)
  {
    if more == [] {
      assert start + more == start;
    } else {
      var init, e := more[..|more| - 1], more[|more| - 1];
      assert more == init + [e] && e in more;
      BreachNeverPromotes(gate, start, init);
      assert start + more == (start + init) + [e];
      BreachStep(gate, History(Some(gate), start + init), e);
      LastIs(gate, start + init, e);
    }
  }

  lemma {:induction false} LastIs(gate: Gate, events: seq<Event>, e: Event)
    ensures History(Some(gate), events + [e]) == Recorded(Some(gate), History(Some(gate), events), e)
    ensures Promotes(gate, events + [e]) <==>
      e.Evaluate? && GatePromotion(Some(gate), e.revision, History(Some(gate), events), e.now, e.x).promoted
  {
    assert (events + [e])[..|events|] == events;
  }

  lemma {:induction false} BreachStep(gate: Gate, prior: Record, e: Event)
    requires prior.state.Some? ==> prior.state.value.phase != Promoted
    requires e.Evaluate? ==> (e.x.restart.Some? || e.x.event.Some?) && e.x.token == ""
    ensures var s := Recorded(Some(gate), prior, e).state; s.Some? ==> s.value.phase != Promoted
    ensures e.Evaluate? ==> !GatePromotion(Some(gate), e.revision, prior, e.now, e.x).promoted
  {
    if e.Evaluate? {
      PromotedIff(gate, e.revision, prior, e.now, e.x);
      BlockedIff(gate, e.revision, prior, e.now, e.x);
    }
  }

  /** The recorded deadline of the running soak, when the stage is at that revision. */
  ghost predicate SoaksUntil(r: Record, revision: Revision, deadline: Time) {
    r.appliedRevision == revision && r.state.Some? && r.state.value.soakUntil == Some(deadline)
  }

  lemma {:induction false} DeadlineStep(gate: Gate, prior: Record, e: Event, revision: Revision, deadline: Time)
    requires SoaksUntil(prior, revision, deadline) && Keeps(e, revision)
    requires var s := Recorded(Some(gate), prior, e).state; s.Some? ==> !PastSoak(s.value.phase)
    ensures SoaksUntil(Recorded(Some(gate), prior, e), revision, deadline)
  {
  }

  lemma {:induction false} HistoryStep(gate: Gate, events: seq<Event>, k: nat)
    requires k < |events|
    ensures History(Some(gate), events[..k + 1]) == Recorded(Some(gate), History(Some(gate), events[..k]), events[k])
  {
    assert events[..k + 1][..k] == events[..k];
  }

  /** Event by event from i to k, the stage stays at the revision and no phase after the soak is recorded. */
  ghost predicate StaysBeforeSoakEnds(gate: Gate, events: seq<Event>, i: nat, k: nat, revision: Revision) {
    forall l: nat | i <= l < k && l < |events| ::
      && Keeps(events[l], revision)
      && var s := History(Some(gate), events[..l + 1]).state;
         s.Some? ==> !PastSoak(s.value.phase)
  }

  /**
   A deadline once recorded survives every soaking hold, every block, every unread check and every pass that does
   not reach the stage, until a phase after the soak is recorded.
   */
  lemma {:induction false} DeadlineKept(gate: Gate, events: seq<Event>, i: nat, k: nat, revision: Revision,
          deadline: Time)
    requires i <= k <= |events| && SoaksUntil(History(Some(gate), events[..i]), revision, deadline)
    requires StaysBeforeSoakEnds(gate, events, i, k, revision)
    ensures SoaksUntil(History(Some(gate), events[..k]), revision, deadline)
  {
    if i < k {
      DeadlineKept(gate, events, i, k - 1, revision, deadline);
      assert Keeps(events[k - 1], revision);
      DeadlineNext(gate, events, k - 1, revision, deadline);
    }
  }

  lemma {:induction false} DeadlineNext(gate: Gate, events: seq<Event>, k: nat, revision: Revision, deadline: Time)
    requires k < |events| && SoaksUntil(History(Some(gate), events[..k]), revision, deadline)
    requires Keeps(events[k], revision)
    requires var s := History(Some(gate), events[..k + 1]).state; s.Some? ==> !PastSoak(s.value.phase)
    ensures SoaksUntil(History(Some(gate), events[..k + 1]), revision, deadline)
  {
    HistoryStep(gate, events, k);
    DeadlineStep(gate, History(Some(gate), events[..k]), events[k], revision, deadline);
  }

  /**
   How many failing evaluations at the revision the run ends in; a failed stage or another revision breaks the
   streak.
   */
  function Streak(g: Gate, events: seq<Event>, revision: Revision): nat {
    if events == [] then 0
    else
      var before := Streak(g, events[..|events| - 1], revision);
      match events[|events| - 1]
      case Evaluate(r, _, x) => if r == revision && FailingNow(g, x) then before + 1 else 0
      case Interrupt(r) => if r == revision then before else 0
      case Drop(_) => 0
      case Unreached => before
  }

  /** No interruption moves the recorded state to another revision. */
  ghost predicate InterruptsInPlace(gate: Gate, events: seq<Event>) {
    forall k: nat | k < |events| && events[k].Interrupt? ::
      var r := History(Some(gate), events[..k]);
      r.state.None? || r.appliedRevision == events[k].revision
  }

  lemma {:induction false} FailuresAreConsecutive(gate: Gate, events: seq<Event>)
    requires InterruptsInPlace(gate, events)
    ensures var r := History(Some(gate), events);
      r.state.Some? && r.state.value.phase != Promoted ==>
        r.state.value.failures <= Streak(gate, events, r.appliedRevision)
  {
    if events != [] {
      var init := events[..|events| - 1];
      forall k: nat | k < |init| ensures init[..k] == events[..k] {}
      FailuresAreConsecutive(gate, init);
    }
  }

  /**
   Over any run without reverts, an evaluation blocks on its analysis only when more than failureLimit failing
   evaluations at its revision came in a row, itself the last, and never in a dry run.
   */
  lemma {:induction false} AnalysisBlockNeedsStreak(gate: Gate, events: seq<Event>)
    requires InterruptsInPlace(gate, events) && events != [] && events[|events| - 1].Evaluate?
    requires var e := events[|events| - 1];
      var d := GatePromotion(Some(gate), e.revision, History(Some(gate), events[..|events| - 1]), e.now, e.x);
      !d.promoted && d.state.value.phase == Blocked && e.x.restart.None? && e.x.event.None?
    ensures gate.analysis.Some? && !gate.analysis.value.dryRun
    ensures Streak(gate, events, events[|events| - 1].revision) > gate.analysis.value.failureLimit
  {
    FailuresAreConsecutive(gate, events);
  }

  /** Nothing but the soak is asked about: no fresh token and no fast track. */
  predicate NothingShortens(g: Gate, x: Inputs, prior: Record) {
    g.soak > 0 && !FreshToken(prior, x) && (g.fastTrackAfter.None? || !x.fastTrackOK)
  }

  /** No other gate would hold or block the stage. */
  predicate OnlySoak(g: Gate, x: Inputs, prior: Record) {
    NothingShortens(g, x, prior) && g.analysis.None? && !g.manual && x.restart.None? && x.event.None?
  }

  /** State that lets a soak be skipped: past its own soak, or with a deadline gone by. */
  predicate Overdue(prior: Record, now: Time) {
    prior.state.Some? && (PastSoak(prior.state.value.phase) ||
                          (prior.state.value.soakUntil.Some? && prior.state.value.soakUntil.value <= now))
  }

  /**
   After an interruption at a new revision, whatever gates the stage has, the next evaluation does not hold it for
   its soak exactly when the state left from the old revision is past its soak or carries a deadline gone by; when
   the soak is its only gate, that promotes it. Without the interruption the same evaluation would have soaked.
   */
  lemma {:induction false} InterruptSkipsSoakIff(g: Gate, prior: Record, revision: Revision, now: Time, x: Inputs)
    requires NothingShortens(g, x, prior) && prior.appliedRevision != revision
    requires prior.state.Some? && prior.state.value.phase == Soaking ==> prior.state.value.soakUntil.Some?
    ensures var after := Recorded(Some(g), prior, Interrupt(revision));
      && (HoldsForSoak(g, after, revision, now, x) <==> !Overdue(prior, now))
      && (OnlySoak(g, x, prior) ==> (GatePromotion(Some(g), revision, after, now, x).promoted <==> Overdue(prior, now)))
    ensures HoldsForSoak(g, prior, revision, now, x)
    ensures OnlySoak(g, x, prior) ==>
      var held := GatePromotion(Some(g), revision, prior, now, x);
      !held.promoted && held.state == Some(State(Soaking, Some(now), Some(now + g.soak), 0, None))
  {
  }

  /** A run in which revision "b" runs out the deadline of "a": promoted at 60, although its soak of 60 began at 31. */
  lemma {:induction false} InterruptShortensSoak()
    ensures var g := Gate(60, None, None, false);
      var events := [Evaluate("a", 0, QUIET), Interrupt("b"), Evaluate("b", 31, QUIET), Evaluate("b", 60, QUIET)];
      Promotes(g, events) && !Earned(g, events, "b")
  {
    var g := Gate(60, None, None, false);
    var a, i, b, b' := Evaluate("a", 0, QUIET), Interrupt("b"), Evaluate("b", 31, QUIET), Evaluate("b", 60, QUIET);
    assert [a, i, b, b'][..3] == [a, i, b] && [a, i, b][..2] == [a, i] && [a, i][..1] == [a] && [a][..0] == [];
    assert History(Some(g), [a]) == Record("a", Some(State(Soaking, Some(0), Some(60), 0, None)), "");
    assert History(Some(g), [a, i]) == Record("b", Some(State(Soaking, Some(0), Some(60), 0, None)), "");
    assert History(Some(g), [a, i, b]) == Record("b", Some(State(Soaking, Some(0), Some(60), 0, None)), "");
  }

  /** A run in which revision "b" is promoted one evaluation after an interruption, with no soak of its own. */
  lemma {:induction false} InterruptSkipsSoak()
    ensures var g := Gate(60, None, None, false);
      var events := [Evaluate("a", 0, QUIET), Evaluate("a", 60, QUIET), Interrupt("b"), Evaluate("b", 61, QUIET)];
      History(Some(g), events).state == Some(State(Promoted, Some(60), None, 0, None))
      && History(Some(g), events).appliedRevision == "b"
      && !Earned(g, events, "b")
  {
    var g := Gate(60, None, None, false);
    var a0, a1, b := Evaluate("a", 0, QUIET), Evaluate("a", 60, QUIET), Evaluate("b", 61, QUIET);
    var events := [a0, a1, Interrupt("b"), b];
    assert events[..0] == [] && events[..1] == [a0] && events[..2] == [a0, a1] &&
      events[..3] == [a0, a1, Interrupt("b")] && events[..4] == events;
    assert [a0][..0] == [] && [a0, a1][..1] == [a0] && [a0, a1, Interrupt("b")][..2] == [a0, a1];
    assert History(Some(g), [a0]) == Record("a", Some(State(Soaking, Some(0), Some(60), 0, None)), "");
    assert History(Some(g), [a0, a1]) == Record("a", Some(State(Promoted, Some(60), None, 0, None)), "");
    assert History(Some(g), events[..3]) == Record("b", Some(State(Promoted, Some(60), None, 0, None)), "");
  }
}
