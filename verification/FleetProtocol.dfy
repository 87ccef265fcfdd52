/**
 Every interleaving of one FleetRollout's passes with the passes of its member StageSets.

 A fleet pass is three kinds of step: it lists the members and decides, it sends its patches one
 by one, and it writes (or fails to write) its status. A member pass is two: it checks the
 approval gate against the annotations it read, and later it completes or fails. Anything else
 may happen in between. Two history variables record the passes begun and the passes stored.
 */
module FleetProtocol {
  import opened Wrappers
  import opened Fleet
  import opened FleetDecisions

  datatype Flight = Flight(pass: Pass, todo: seq<Patch>, next: Status)
  datatype System = System(
    members: map<MemberId, Member>,
    advancing: map<MemberId, VersionField>, // passes beyond the approval gate, and the version they roll out
    status: Status,
    flight: Option<Flight>,
    begun: seq<Pass>,
    stored: seq<Pass>)

  // ---- the member's side of the protocol ----

  /** The version a rollback-to annotation directs a member down to, when it is below the deployed one. */
  function RollbackDirective(m: Member): VersionField {
    if m.rollbackTo.Some? && m.version.Some? && m.rollbackTo.value < m.version.value then m.rollbackTo else None
  }

  function Desired(m: Member, offered: VersionField): VersionField {
    var directive := RollbackDirective(m);
    if directive.Some? then directive else offered
  }

  predicate ApprovalNeeded(m: Member, desired: VersionField, crossed: nat) {
    m.version.Some? && match m.mode
      case Always => desired != m.version
      case OnMigrations => crossed > 0
      case Never => false
  }

  predicate Held(m: Member, desired: VersionField, crossed: nat) {
    ApprovalNeeded(m, desired, crossed) && m.approved != desired
  }

  /** A member pass reaches the approval gate, wanting what its source offers or its directive says. */
  ghost predicate MemberGate(s: System, s': System, id: MemberId, offered: VersionField, crossed: nat) {
    && id in s.members && id !in s.advancing && offered.Some?
    && var m := s.members[id];
       var desired := Desired(m, offered);
       if Held(m, desired, crossed) then
         s' == s.(members := s.members[id :=
           m.(pendingVersion := desired, ready := false, observedGeneration := m.generation)])
       else
         s' == s.(members := s.members[id := m.(pendingVersion := None)], advancing := s.advancing[id := desired])
  }

  /** The pass completes, advancing the recorded version, or ends early with some readiness. */
  ghost predicate MemberFinish(s: System, s': System, id: MemberId, success: bool, ready: bool) {
    && id in s.members && id in s.advancing
    && var m := s.members[id];
       var m' := if success then m.(version := s.advancing[id], ready := true, observedGeneration := m.generation)
                 else m.(ready := ready, observedGeneration := m.generation);
       s' == s.(members := s.members[id := m'], advancing := s.advancing - {id})
  }

  /** Anything else about a member may change: its readiness, its spec, held revisions, a hand-set directive. */
  ghost predicate MemberDrift(s: System, s': System, id: MemberId, m': Member) {
    && id in s.members
    && m'.version == s.members[id].version && m'.approved == s.members[id].approved && m'.mode == s.members[id].mode
    && s' == s.(members := s.members[id := m'])
  }

  // ---- the fleet's side ----

  function Patched(members: map<MemberId, Member>, q: Patch): map<MemberId, Member> {
    if q.id !in members then members
    else match q
      case Approve(id, v) => members[id := members[id].(approved := v)]
      case RollbackTo(id, v) => members[id := members[id].(rollbackTo := v)]
  }

  ghost predicate FleetList(spec: Spec, s: System, s': System, listing: seq<MemberId>, now: Time,
          verdicts: seq<Verdict>) {
    && s.flight.None? && s'.flight.Some?
    && var f := s'.flight.value;
       && f.pass == Pass(s.status, listing, s.members, now, verdicts)
       && WellFormed(spec, f.pass) && PatchesOf(spec, f.pass, f.todo) && EntriesOf(spec, f.pass, f.next.waves)
       && s' == s.(flight := Some(f), begun := s.begun + [f.pass])
  }

  ghost predicate FleetPatch(s: System, s': System) {
    && s.flight.Some? && s.flight.value.todo != []
    && var f := s.flight.value;
       s' == s.(members := Patched(s.members, f.todo[0]), flight := Some(f.(todo := f.todo[1..])))
  }

  /** The status write; without it the pass's patches stay but its wave status is lost. */
  ghost predicate FleetEnd(s: System, s': System, wrote: bool) {
    && s.flight.Some?
    && s' == if wrote then s.(flight := None, status := s.flight.value.next, stored := s.stored + [s.flight.value.pass])
             else s.(flight := None)
  }

  datatype Step =
    | List(listing: seq<MemberId>, now: Time, verdicts: seq<Verdict>)
    | Send
    | End(wrote: bool)
    | Gate(id: MemberId, offered: VersionField, crossed: nat)
    | Finish(id: MemberId, success: bool, ready: bool)
    | Drift(id: MemberId, m: Member)

  ghost predicate Next(spec: Spec, s: System, s': System, step: Step) {
    match step
    case List(listing, now, verdicts) => FleetList(spec, s, s', listing, now, verdicts)
    case Send => FleetPatch(s, s')
    case End(wrote) => FleetEnd(s, s', wrote)
    case Gate(id, offered, crossed) => MemberGate(s, s', id, offered, crossed)
    case Finish(id, success, ready) => MemberFinish(s, s', id, success, ready)
    case Drift(id, m) => MemberDrift(s, s', id, m)
  }

  /** Deployed members under approvalMode Always, no pass under way, a rollout without status. */
  ghost predicate Init(s: System) {
    && (forall id <- s.members :: s.members[id].mode == Always && s.members[id].version.Some?)
    && s.advancing == map[] && s.flight == None && s.status.waves == [] && s.begun == [] && s.stored == []
  }

  ghost predicate IsRun(spec: Spec, run: seq<System>, steps: seq<Step>) {
    && |run| == |steps| + 1 && Init(run[0])
    && forall i: nat | i < |steps| :: Next(spec, run[i], run[i + 1], steps[i])
  }

  // ---- safety: a member changes version only behind the waves before its own ----

  /** In this pass no wave stopped the rollout, every wave before the member's first one was cleared, and v was due. */
  ghost predicate Releases(spec: Spec, p: Pass, id: MemberId, v: VersionField) {
    && |spec.waves| == |p.verdicts| && (forall w: nat | w < |spec.waves| :: !Stopped(spec, p, w))
    && id in p.members && v.Some? && v == (if spec.target.Some? then spec.target else p.members[id].pendingVersion)
    && forall w: nat | w < |spec.waves| && BeforeFirstWave(spec, id, w) :: Cleared(spec, p, w)
  }

  ghost predicate BeforeFirstWave(spec: Spec, id: MemberId, w: nat)
    requires w < |spec.waves|
  {
    forall u: nat | u <= w :: id !in spec.waves[u].selects
  }

  lemma {:induction false} ApprovalReleases(spec: Spec, p: Pass, patches: seq<Patch>, q: Patch)
    requires |spec.waves| == |p.verdicts| && PatchesOf(spec, p, patches) && q in patches && q.Approve?
    ensures Releases(spec, p, q.id, q.version)
  {
    ApprovedIff(spec, p, patches, q.id, q.version);
    assert q == Approve(q.id, q.version);
    var own: nat :| own < |spec.waves| && q.id in spec.waves[own].selects && forall u: nat | u < own ::
      Cleared(spec, p, u);
    forall w: nat | w < |spec.waves| && BeforeFirstWave(spec, q.id, w) ensures Cleared(spec, p, w) {
      assert w < own;
    }
  }

  ghost predicate Licensed(spec: Spec, first: System, begun: seq<Pass>, id: MemberId, v: VersionField)
    requires id in first.members
  {
    v == first.members[id].approved || exists p <- begun :: Releases(spec, p, id, v)
  }

  ghost predicate MemberSafe(spec: Spec, first: System, begun: seq<Pass>, id: MemberId, m: Member)
    requires id in first.members
  {
    && m.mode == Always && m.version.Some?
    && Licensed(spec, first, begun, id, m.approved)
    && (m.version == first.members[id].version || Licensed(spec, first, begun, id, m.version))
  }

  ghost predicate AdvanceSafe(spec: Spec, first: System, begun: seq<Pass>, id: MemberId, m: Member, v: VersionField)
    requires id in first.members
  {
    v.Some? && (v == m.version || Licensed(spec, first, begun, id, v))
  }

  ghost predicate FlightSafe(spec: Spec, begun: seq<Pass>, f: Flight) {
    f.pass in begun && forall q <- f.todo :: q.Approve? ==> Releases(spec, f.pass, q.id, q.version)
  }

  ghost predicate Safe(spec: Spec, first: System, s: System) {
    && s.members.Keys == first.members.Keys && s.advancing.Keys <= first.members.Keys
    && (forall id <- s.members :: MemberSafe(spec, first, s.begun, id, s.members[id]))
    && (forall id <- s.advancing :: AdvanceSafe(spec, first, s.begun, id, s.members[id], s.advancing[id]))
    && (s.flight.Some? ==> FlightSafe(spec, s.begun, s.flight.value))
  }

  lemma {:induction false} LicenseSurvives(spec: Spec, first: System, begun: seq<Pass>, more: seq<Pass>)
    requires begun <= more
    ensures forall id: MemberId, v: VersionField | id in first.members && Licensed(spec, first, begun, id, v) ::
      Licensed(spec, first, more, id, v)
  {
    forall id: MemberId, v: VersionField | id in first.members && Licensed(spec, first, begun, id, v)
      ensures Licensed(spec, first, more, id, v)
    {
      if v != first.members[id].approved {
        var p :| p in begun && Releases(spec, p, id, v);
        assert p in more;
      }
    }
  }

  lemma {:induction false} ListSafe(spec: Spec, first: System, s: System, s': System, listing: seq<MemberId>,
          now: Time, verdicts: seq<Verdict>)
    requires Safe(spec, first, s) && FleetList(spec, s, s', listing, now, verdicts)
    ensures Safe(spec, first, s')
  {
    LicenseSurvives(spec, first, s.begun, s'.begun);
    var f := s'.flight.value;
    forall q <- f.todo | q.Approve? ensures Releases(spec, f.pass, q.id, q.version) {
      ApprovalReleases(spec, f.pass, f.todo, q);
    }
  }

  lemma {:induction false} PatchSafe(spec: Spec, first: System, s: System, s': System)
    requires Safe(spec, first, s) && FleetPatch(s, s')
    ensures Safe(spec, first, s')
  {
    var f := s.flight.value;
    var q := f.todo[0];
    assert q in f.todo;
    assert FlightSafe(spec, s'.begun, s'.flight.value);
    if q.id in s.members {
      var m := s'.members[q.id];
      assert q.Approve? ==> Licensed(spec, first, s.begun, q.id, q.version);
      assert MemberSafe(spec, first, s.begun, q.id, m);
    }
  }

  /** A step that touches one member keeps safety when it keeps that member's. */
  lemma {:induction false} OneMemberSafe(spec: Spec, first: System, s: System, s': System, id: MemberId)
    requires Safe(spec, first, s) && id in s.members && s'.begun == s.begun && s'.flight == s.flight
    requires id in s'.members && s'.members == s.members[id := s'.members[id]]
    requires s'.advancing.Keys <= s.members.Keys
    requires forall x <- s'.advancing | x != id :: x in s.advancing && s'.advancing[x] == s.advancing[x]
    requires MemberSafe(spec, first, s.begun, id, s'.members[id])
    requires id in s'.advancing ==> AdvanceSafe(spec, first, s.begun, id, s'.members[id], s'.advancing[id])
    ensures Safe(spec, first, s')
  {
  }

  lemma {:induction false} GateSafe(spec: Spec, first: System, s: System, s': System, id: MemberId,
          offered: VersionField,
          crossed: nat)
    requires Safe(spec, first, s) && MemberGate(s, s', id, offered, crossed)
    ensures Safe(spec, first, s')
  {
    assert MemberSafe(spec, first, s.begun, id, s.members[id]);
    OneMemberSafe(spec, first, s, s', id);
  }

  lemma {:induction false} FinishSafe(spec: Spec, first: System, s: System, s': System, id: MemberId, success: bool,
          ready: bool)
    requires Safe(spec, first, s) && MemberFinish(s, s', id, success, ready)
    ensures Safe(spec, first, s')
  {
    assert MemberSafe(spec, first, s.begun, id, s.members[id]);
    assert AdvanceSafe(spec, first, s.begun, id, s.members[id], s.advancing[id]);
    OneMemberSafe(spec, first, s, s', id);
  }

  lemma {:induction false} DriftSafe(spec: Spec, first: System, s: System, s': System, id: MemberId, m: Member)
    requires Safe(spec, first, s) && MemberDrift(s, s', id, m)
    ensures Safe(spec, first, s')
  {
    assert MemberSafe(spec, first, s.begun, id, s.members[id]);
    OneMemberSafe(spec, first, s, s', id);
  }

  lemma {:induction false} StepSafe(spec: Spec, first: System, s: System, s': System, step: Step)
    requires Safe(spec, first, s) && Next(spec, s, s', step)
    ensures Safe(spec, first, s')
  {
    match step
    case List(listing, now, verdicts) => ListSafe(spec, first, s, s', listing, now, verdicts);
    case Send => PatchSafe(spec, first, s, s');
    case End(wrote) =>
    case Gate(id, offered, crossed) => GateSafe(spec, first, s, s', id, offered, crossed);
    case Finish(id, success, ready) => FinishSafe(spec, first, s, s', id, success, ready);
    case Drift(id, m) => DriftSafe(spec, first, s, s', id, m);
  }

  lemma {:induction false} RunSafe(spec: Spec, run: seq<System>, steps: seq<Step>, k: nat)
    requires IsRun(spec, run, steps) && k < |run|
    ensures Safe(spec, run[0], run[k])
  {
    if k > 0 {
      RunSafe(spec, run, steps, k - 1);
      StepSafe(spec, run[0], run[k - 1], run[k], steps[k - 1]);
    }
  }

  /**
   In every interleaving, a member that is at a version other than the one it was deployed at, and that
   nobody had approved beforehand, was released by an earlier pass that found every wave before its
   first wave settled, past its soak deadline, and gate-free or passing its gate.
   */
  lemma {:induction false} AdvanceNeedsEarlierWaves(spec: Spec, run: seq<System>, steps: seq<Step>, k: nat,
          id: MemberId)
    requires IsRun(spec, run, steps) && k < |run| && id in run[0].members
    ensures id in run[k].members
    ensures var v := run[k].members[id].version;
      v == run[0].members[id].version || v == run[0].members[id].approved ||
      exists p <- run[k].begun :: Releases(spec, p, id, v)
  {
    RunSafe(spec, run, steps, k);
  }

  // ---- a directed rollback ----

  /** With a pinned target every approval under way names it. */
  ghost predicate ApprovesTarget(spec: Spec, s: System) {
    s.flight.Some? ==> forall q <- s.flight.value.todo :: q.Approve? ==> q.version == spec.target
  }

  lemma {:induction false} RunApprovesTarget(spec: Spec, run: seq<System>, steps: seq<Step>, k: nat)
    requires IsRun(spec, run, steps) && k < |run| && spec.target.Some?
    ensures ApprovesTarget(spec, run[k])
  {
    if k > 0 {
      RunApprovesTarget(spec, run, steps, k - 1);
      assert Next(spec, run[k - 1], run[k], steps[k - 1]);
      if steps[k - 1].List? {
        var f := run[k].flight.value;
        forall q <- f.todo | q.Approve? ensures q.version == spec.target {
          ApprovalReleases(spec, f.pass, f.todo, q);
        }
      }
    }
  }

  /** The member is not at that version, not approved for it, and no pass of its own is under way to it. */
  predicate Departed(s: System, id: MemberId, v: VersionField) {
    && id in s.members && s.members[id].version != v && s.members[id].approved != v
    && (id in s.advancing ==> s.advancing[id] != v)
  }

  lemma {:induction false} DepartedGate(s: System, s': System, id: MemberId, offered: VersionField, crossed: nat,
          x: MemberId, v: VersionField)
    requires MemberGate(s, s', id, offered, crossed) && Departed(s, x, v)
    requires x in s.members && s.members[x].mode == Always && s.members[x].version.Some?
    ensures Departed(s', x, v)
  {
  }

  lemma {:induction false} StepAt(spec: Spec, run: seq<System>, steps: seq<Step>, k: nat)
    requires IsRun(spec, run, steps) && k < |steps|
    ensures Next(spec, run[k], run[k + 1], steps[k])
  {
  }

  lemma {:induction false} DepartedNext(spec: Spec, run: seq<System>, steps: seq<Step>, k: nat, id: MemberId)
    requires IsRun(spec, run, steps) && k < |steps|
    requires spec.target.Some? && spec.previous != spec.target && Departed(run[k], id, spec.previous)
    ensures Departed(run[k + 1], id, spec.previous)
  {
    RunSafe(spec, run, steps, k);
    RunApprovesTarget(spec, run, steps, k);
    StepAt(spec, run, steps, k);
    DepartedStep(spec, run[0], run[k], run[k + 1], steps[k], id);
  }

  lemma {:induction false} DepartedStep(spec: Spec, first: System, s: System, s': System, step: Step, id: MemberId)
    requires Safe(spec, first, s) && ApprovesTarget(spec, s) && Next(spec, s, s', step)
    requires spec.previous != spec.target && Departed(s, id, spec.previous)
    ensures Departed(s', id, spec.previous)
  {
    match step
    case Gate(x, offered, crossed) =>
      assert MemberSafe(spec, first, s.begun, id, s.members[id]);
      DepartedGate(s, s', x, offered, crossed, id, spec.previous);
    case Send => assert s.flight.value.todo[0] in s.flight.value.todo;
    case _ =>
  }

  /**
   With a pinned target and approvalMode Always, a rollback to previousVersion never takes effect: once a member
   has left previousVersion and its approval names another version, no later state of any run has it back there,
   because the only approvals ever stamped name the target.
   */
  lemma {:induction false} PinnedRollbackIsHeld(spec: Spec, run: seq<System>, steps: seq<Step>, j: nat, k: nat,
          id: MemberId)
    requires IsRun(spec, run, steps) && j <= k < |run|
    requires spec.target.Some? && spec.previous != spec.target && Departed(run[j], id, spec.previous)
    ensures Departed(run[k], id, spec.previous)
    decreases k
  {
    if j < k {
      PinnedRollbackIsHeld(spec, run, steps, j, k - 1, id);
      DepartedNext(spec, run, steps, k - 1, id);
    }
  }

  /**
   A member pass is held exactly when it changes the version under approvalMode Always, or crosses a migration under
   OnMigrations, and the version it wants is not the approved one. It wants what a rollback-to annotation names below
   the deployed version, else what its source offers; a held member keeps its version.
   */
  lemma {:induction false} GateHoldsIff(s: System, s': System, id: MemberId, offered: VersionField, crossed: nat)
    requires MemberGate(s, s', id, offered, crossed)
    ensures var m := s.members[id];
      var wanted := if m.rollbackTo.Some? && m.version.Some? && m.rollbackTo.value < m.version.value then m.rollbackTo
                    else offered;
      && (id !in s'.advancing <==>
           && m.version.Some? && m.approved != wanted
           && ((m.mode == Always && wanted != m.version) || (m.mode == OnMigrations && crossed > 0)))
      && (id in s'.advancing ==> s'.advancing[id] == wanted && s'.members[id].pendingVersion == None)
      && (id !in s'.advancing ==> s'.members[id].pendingVersion == wanted && !s'.members[id].ready)
      && s'.members[id].version == m.version && s'.members[id].approved == m.approved
  {
  }

  /**
   A pass that completes leaves the member at the version it rolled out, ready and observed; any other, where it
   was.
   */
  lemma {:induction false} FinishedIsAt(s: System, s': System, id: MemberId, success: bool, ready: bool)
    requires MemberFinish(s, s', id, success, ready)
    ensures var m, m' := s.members[id], s'.members[id];
      && m'.version == (if success then s.advancing[id] else m.version) && id !in s'.advancing
      && (success ==> m'.ready) && m'.observedGeneration == m'.generation == m.generation
      && m'.approved == m.approved && m'.rollbackTo == m.rollbackTo
  {
  }

  /** A directed rollback passes the gate exactly when the approval annotation already names its version. */
  lemma {:induction false} DirectedRollbackProceedsIff(s: System, s': System, id: MemberId, offered: VersionField,
          crossed: nat)
    requires MemberGate(s, s', id, offered, crossed)
    requires s.members[id].mode == Always && RollbackDirective(s.members[id]).Some?
    ensures id in s'.advancing <==> s.members[id].approved == s.members[id].rollbackTo
    ensures id in s'.advancing ==> s'.advancing[id] == s.members[id].rollbackTo
    ensures id !in s'.advancing ==> s'.members[id].pendingVersion == s.members[id].rollbackTo
  {
  }

  // ---- soak: a passed wave stayed settled through its whole soak ----

  ghost predicate UniqueNames(spec: Spec) {
    forall i: nat, j: nat | i < j < |spec.waves| :: spec.waves[i].name != spec.waves[j].name
  }

  /** One of the passes started the soak that ends at `deadline`; it and every later one found the wave settled. */
  ghost predicate SettledSince(spec: Spec, passes: seq<Pass>, w: nat, deadline: Time)
    requires w < |spec.waves|
  {
    exists a: nat | a < |passes| ::
      && passes[a].now + SoakOf(spec.waves[w]) == deadline
      && forall b: nat | a <= b < |passes| :: Settled(spec, passes[b], w)
  }

  /** The passes that have ended, stored or lost. */
  function Ended(s: System): seq<Pass> {
    if s.flight.Some? && s.begun != [] then s.begun[..|s.begun| - 1] else s.begun
  }

  /** The passes a soak is measured by: the stored ones, or all of them. */
  function Heard(s: System, all: bool): seq<Pass> {
    if all then Ended(s) else s.stored
  }

  ghost predicate SoakHonest(spec: Spec, s: System, all: bool, w: nat)
    requires w < |spec.waves|
  {
    && (s.flight.Some? ==>
         && s.flight.value.pass.status == s.status && s.begun == Ended(s) + [s.flight.value.pass]
         && EntriesOf(spec, s.flight.value.pass, s.flight.value.next.waves))
    && var soak := PriorSoak(s.status.waves, spec.waves[w].name);
       soak.Some? ==> SettledSince(spec, Heard(s, all), w, soak.value)
  }

  /** With unique wave names, looking an entry up by name finds the wave's own entry. */
  lemma {:induction false} PriorIsOwn(spec: Spec, p: Pass, waves: seq<WaveStatus>, n: nat, w: nat)
    requires UniqueNames(spec) && EntriesOf(spec, p, waves) && w < n <= |waves|
    ensures PriorEntry(waves[..n], spec.waves[w].name) == Some(waves[w])
  {
    assert EntryOf(spec, p, n - 1, waves[n - 1]);
    assert waves[..n][..n - 1] == waves[..n - 1];
    if w < n - 1 {
      assert spec.waves[w].name != spec.waves[n - 1].name;
      PriorIsOwn(spec, p, waves, n - 1, w);
    }
  }

  lemma {:induction false} SettledDeadline(spec: Spec, stored: seq<Pass>, p: Pass, w: nat)
    requires w < |spec.waves| && Settled(spec, p, w)
    requires var soak := PriorSoak(p.status.waves, spec.waves[w].name);
      soak.Some? ==> SettledSince(spec, stored, w, soak.value)
    ensures SettledSince(spec, stored + [p], w, Deadline(spec, p, w))
  {
    var passes := stored + [p];
    var soak := PriorSoak(p.status.waves, spec.waves[w].name);
    if soak.Some? {
      var a: nat :| a < |stored| && stored[a].now + SoakOf(spec.waves[w]) == soak.value
                    && forall b: nat | a <= b < |stored| :: Settled(spec, stored[b], w);
      assert passes[a].now + SoakOf(spec.waves[w]) == soak.value;
    } else {
      assert passes[|stored|].now + SoakOf(spec.waves[w]) == Deadline(spec, p, w);
    }
  }

  lemma {:induction false} SettledStill(spec: Spec, passes: seq<Pass>, p: Pass, w: nat, deadline: Time)
    requires w < |spec.waves| && SettledSince(spec, passes, w, deadline) && Settled(spec, p, w)
    ensures SettledSince(spec, passes + [p], w, deadline)
  {
    var a: nat :| a < |passes| && passes[a].now + SoakOf(spec.waves[w]) == deadline
                  && forall b: nat | a <= b < |passes| :: Settled(spec, passes[b], w);
    assert (passes + [p])[a] == passes[a];
  }

  /** The step ends a pass that found the wave unsettled, and loses its status. */
  ghost predicate LosesUnsettled(spec: Spec, s: System, step: Step, w: nat)
    requires w < |spec.waves|
  {
    step == End(false) && s.flight.Some? && !Settled(spec, s.flight.value.pass, w)
  }

  lemma {:induction false} StepHonest(spec: Spec, s: System, s': System, step: Step, all: bool, w: nat)
    requires UniqueNames(spec) && w < |spec.waves| && SoakHonest(spec, s, all, w) && Next(spec, s, s', step)
    requires all ==> !LosesUnsettled(spec, s, step, w)
    ensures SoakHonest(spec, s', all, w)
  {
    if step.End? {
      var f := s.flight.value;
      var soak := PriorSoak(s.status.waves, spec.waves[w].name);
      assert Heard(s', all) == if all || step.wrote then Heard(s, all) + [f.pass] else Heard(s, all);
      if step.wrote && PriorSoak(s'.status.waves, spec.waves[w].name).Some? {
        PriorIsOwn(spec, f.pass, f.next.waves, |f.next.waves|, w);
        assert f.next.waves[..|f.next.waves|] == f.next.waves;
        assert EntryOf(spec, f.pass, w, f.next.waves[w]);
        SettledDeadline(spec, Heard(s, all), f.pass, w);
      } else if !step.wrote && all && soak.Some? {
        SettledStill(spec, Heard(s, all), f.pass, w, soak.value);
      }
    } else if step.List? {
      assert Ended(s') == s.begun;
    }
  }

  lemma {:induction false} RunHonest(spec: Spec, run: seq<System>, steps: seq<Step>, k: nat, all: bool, w: nat)
    requires UniqueNames(spec) && IsRun(spec, run, steps) && k < |run| && w < |spec.waves|
    requires all ==> forall i: nat | i < k :: !LosesUnsettled(spec, run[i], steps[i], w)
    ensures SoakHonest(spec, run[k], all, w)
  {
    if k > 0 {
      RunHonest(spec, run, steps, k - 1, all, w);
      StepHonest(spec, run[k - 1], run[k], steps[k - 1], all, w);
    }
  }

  /**
   Whenever a pass under way counts a wave as passed, a stored pass (or this one) at least the wave's soak
   ago found it settled, and so did every stored pass since.
   */
  lemma {:induction false} PassedWaveStayedSettled(spec: Spec, run: seq<System>, steps: seq<Step>, k: nat, w: nat)
    requires UniqueNames(spec) && IsRun(spec, run, steps) && k < |run| && run[k].flight.Some?
    requires w < |spec.waves| == |run[k].flight.value.pass.verdicts| && Passed(spec, run[k].flight.value.pass, w)
    ensures var p := run[k].flight.value.pass;
      exists deadline: Time | deadline <= p.now :: SettledSince(spec, run[k].stored + [p], w, deadline)
  {
    RunHonest(spec, run, steps, k, false, w);
    var p := run[k].flight.value.pass;
    SettledDeadline(spec, run[k].stored, p, w);
    assert Deadline(spec, p, w) <= p.now;
  }

  /**
   Every pass since found it settled, stored or not, as long as no pass that found it unsettled lost its status. One
   that does leaves the soak running: FleetRegression.LostHaltIsForgotten.
   */
  lemma {:induction false} PassedWaveAlwaysSettled(spec: Spec, run: seq<System>, steps: seq<Step>, k: nat, w: nat)
    requires UniqueNames(spec) && IsRun(spec, run, steps) && k < |run| && run[k].flight.Some?
    requires w < |spec.waves| == |run[k].flight.value.pass.verdicts| && Passed(spec, run[k].flight.value.pass, w)
    requires forall i: nat | i < k :: !LosesUnsettled(spec, run[i], steps[i], w)
    ensures exists deadline: Time | deadline <= run[k].flight.value.pass.now ::
      SettledSince(spec, run[k].begun, w, deadline)
  {
    RunHonest(spec, run, steps, k, true, w);
    var p := run[k].flight.value.pass;
    SettledDeadline(spec, Ended(run[k]), p, w);
    assert Deadline(spec, p, w) <= p.now;
  }
}
