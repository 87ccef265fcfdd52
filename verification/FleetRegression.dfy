/**
 Two runs of the protocol. The documented regression: a member deployed at previousVersion is advanced to the pinned
 target, its wave settles and then regresses, the fleet directs the member back, and the member's own approval gate
 holds the directive. And a regression nobody remembers: the pass that halts on it loses its status, the member
 recovers, and the wave passes at the end of the soak it began before.
 */
module FleetRegression {
  import opened Wrappers
  import opened Fleet
  import opened FleetProtocol

  const SPEC := Spec(Some(2), [Wave("canary", {"m"}, Some(60), false)], true, Some(1))

  function Deployment(version: nat, approved: VersionField, rollbackTo: VersionField, ready: bool): Member {
    Member(Always, Some(version), None, approved, rollbackTo, ready, 1, 1, 0)
  }

  function Members(m: Member): map<MemberId, Member> {
    map["m" := m]
  }

  function PassAt(status: Status, m: Member, now: Time): Pass {
    Pass(status, ["m"], Members(m), now, [Unknown])
  }

  function Entry(settled: bool, soakUntil: Option<Time>): Status {
    Status([WaveStatus("canary", 1, 0, 0, settled, soakUntil, None)], InProgress, "canary")
  }

  // What the passes find, in the protocol's own terms.

  lemma {:induction false} SettledWhen(p: Pass, m: Member)
    requires p.members == Members(m)
    ensures Settled(SPEC, p, 0) <==> Adopted(SPEC, m) && Healthy(m)
  {
    if Settled(SPEC, p, 0) { assert "m" in p.members && "m" in SPEC.waves[0].selects; }
  }

  lemma {:induction false} PriorWhen(settled: bool, soakUntil: Option<Time>)
    ensures PriorSoak(Entry(settled, soakUntil).waves, "canary") == soakUntil
  {
  }

  lemma {:induction false} HaltsWhen(p: Pass)
    requires |p.verdicts| == 1
    ensures Halts(SPEC, p) <==> Regressed(SPEC, p, 0)
    ensures Regressed(SPEC, p, 0) ==> FirstHalt(SPEC, p, 0)
  {
    assert HaltsAt(SPEC, p, 0) <==> Regressed(SPEC, p, 0);
  }

  lemma {:induction false} StoresEntry(p: Pass, settled: bool, soakUntil: Option<Time>)
    requires settled == Settled(SPEC, p, 0) && soakUntil == (if settled then Some(Deadline(SPEC, p, 0)) else None)
    ensures EntriesOf(SPEC, p, Entry(settled, soakUntil).waves)
  {
  }

  /** A pass without a halt plans an approval for the member exactly while its stamp is not the target. */
  lemma {:induction false} PlansApproval(p: Pass, m: Member)
    requires p.members == Members(m) && |p.verdicts| == 1 && !Halts(SPEC, p)
    ensures PatchesOf(SPEC, p, if m.approved == Some(2) then [] else [Approve("m", Some(2))])
  {
    assert Open(SPEC, p, 0) && Approvable(SPEC, p, "m");
    assert forall id, v :: WantsApproval(SPEC, p, id, v) <==> id == "m" && v == Some(2) && m.approved != Some(2);
  }

  lemma {:induction false} PlansRollback(p: Pass, m: Member)
    requires p.members == Members(m) && |p.verdicts| == 1 && Regressed(SPEC, p, 0) && m.rollbackTo == None
    ensures PatchesOf(SPEC, p, [RollbackTo("m", Some(1))])
  {
    HaltsWhen(p);
    assert forall id :: id in p.members && id in SPEC.waves[0].selects <==> id == "m";
  }

  // ---- the run ----

  function Idle(m: Member, status: Status, begun: seq<Pass>): System {
    System(Members(m), map[], status, None, begun, begun)
  }

  function Flying(m: Member, status: Status, begun: seq<Pass>, p: Pass, todo: seq<Patch>, next: Status): System {
    System(Members(m), map[], status, Some(Flight(p, todo, next)), begun + [p], begun)
  }

  /** The first step of a fleet pass over the one member. */
  ghost predicate Lists(s: System, s': System, now: Time) {
    FleetList(SPEC, s, s', ["m"], now, [Unknown])
  }

  lemma {:induction false} ListApproves(status: Status, m: Member, begun: seq<Pass>, now: Time)
    requires status.waves == [] && m.version == Some(1) && m.approved == None
    ensures var p := PassAt(status, m, now);
      Lists(Idle(m, status, begun), Flying(m, status, begun, p, [Approve("m", Some(2))], Entry(false, None)), now)
  {
    var p := PassAt(status, m, now);
    SettledWhen(p, m);
    HaltsWhen(p);
    PlansApproval(p, m);
    StoresEntry(p, false, None);
  }

  lemma {:induction false} ListSettles(m: Member, begun: seq<Pass>, now: Time)
    requires Adopted(SPEC, m) && Healthy(m) && m.approved == Some(2)
    ensures var status := Entry(false, None);
      Lists(Idle(m, status, begun), Flying(m, status, begun, PassAt(status, m, now), [], Entry(true, Some(now + 60))),
        now)
  {
    var p := PassAt(Entry(false, None), m, now);
    SettledWhen(p, m);
    PriorWhen(false, None);
    HaltsWhen(p);
    PlansApproval(p, m);
    StoresEntry(p, true, Some(now + 60));
  }

  lemma {:induction false} ListRegresses(m: Member, begun: seq<Pass>, soaked: Time, now: Time)
    requires !m.ready && m.rollbackTo == None
    ensures var status, p := Entry(true, Some(soaked)), PassAt(Entry(true, Some(soaked)), m, now);
      Regressed(SPEC, p, 0) &&
      Lists(Idle(m, status, begun), Flying(m, status, begun, p, [RollbackTo("m", Some(1))], Entry(false, None)), now)
  {
    var p := PassAt(Entry(true, Some(soaked)), m, now);
    SettledWhen(p, m);
    PriorWhen(true, Some(soaked));
    PlansRollback(p, m);
    StoresEntry(p, false, None);
  }

  lemma {:induction false} Sends(m: Member, m': Member, status: Status, begun: seq<Pass>, p: Pass, q: Patch,
          next: Status)
    requires Patched(Members(m), q) == Members(m')
    ensures FleetPatch(Flying(m, status, begun, p, [q], next), Flying(m', status, begun, p, [], next))
  {
    assert [q][1..] == [];
  }

  lemma {:induction false} Ends(m: Member, status: Status, begun: seq<Pass>, p: Pass, next: Status)
    ensures FleetEnd(Flying(m, status, begun, p, [], next), Idle(m, next, begun + [p]), true)
  {
  }

  lemma {:induction false} PatchLands(m: Member)
    ensures Patched(Members(m), Approve("m", Some(2))) == Members(m.(approved := Some(2)))
    ensures Patched(Members(m), RollbackTo("m", Some(1))) == Members(m.(rollbackTo := Some(1)))
  {
  }

  /** The steps of a run from s to s'. */
  ghost predicate Leads(s: System, s': System, run: seq<System>, steps: seq<Step>) {
    && |run| == |steps| + 1 && run[0] == s && run[|steps|] == s'
    && forall i: nat | i < |steps| :: Next(SPEC, run[i], run[i + 1], steps[i])
  }

  lemma {:induction false} LeadsOn(s: System, t: System, u: System, run: seq<System>, steps: seq<Step>, step: Step)
    requires Leads(s, t, run, steps) && Next(SPEC, t, u, step)
    ensures Leads(s, u, run + [u], steps + [step])
  {
  }

  /** The member is approved, advances and is ready at the target. */
  lemma {:induction false} Advances(m0: Member) returns (run: seq<System>, steps: seq<Step>, seen: seq<Pass>)
    requires m0 == Deployment(1, None, None, true)
    ensures Leads(Idle(m0, Status([], Pending, ""), []),
      Idle(Deployment(2, Some(2), None, true), Entry(false, None), seen), run, steps)
  {
    var start := Status([], Pending, "");
    var p := PassAt(start, m0, 0);
    var m1 := m0.(approved := Some(2));
    var m2 := Deployment(2, Some(2), None, true);
    seen := [p];
    var s0, s1 := Idle(m0, start, []), Flying(m0, start, [], p, [Approve("m", Some(2))], Entry(false, None));
    var s2, s3 := Flying(m1, start, [], p, [], Entry(false, None)), Idle(m1, Entry(false, None), seen);
    var s4, s5 := s3.(advancing := map["m" := Some(2)]), Idle(m2, Entry(false, None), seen);
    ListApproves(start, m0, [], 0);
    PatchLands(m0);
    Sends(m0, m1, start, [], p, Approve("m", Some(2)), Entry(false, None));
    Ends(m1, start, [], p, Entry(false, None));
    assert MemberGate(s3, s4, "m", Some(2), 0);
    assert MemberFinish(s4, s5, "m", true, true);
    run, steps := [s0], [];
    LeadsOn(s0, s0, s1, run, steps, List(["m"], 0, [Unknown]));
    run, steps := run + [s1], steps + [List(["m"], 0, [Unknown])];
    LeadsOn(s0, s1, s2, run, steps, Send);
    run, steps := run + [s2], steps + [Send];
    LeadsOn(s0, s2, s3, run, steps, End(true));
    run, steps := run + [s3], steps + [End(true)];
    LeadsOn(s0, s3, s4, run, steps, Gate("m", Some(2), 0));
    run, steps := run + [s4], steps + [Gate("m", Some(2), 0)];
    LeadsOn(s0, s4, s5, run, steps, Finish("m", true, true));
    run, steps := run + [s5], steps + [Finish("m", true, true)];
  }

  /** Its wave settles, and then the member is no longer ready. */
  lemma {:induction false} Settles(s0: System, t0: System, before: seq<System>, done: seq<Step>, begun: seq<Pass>)
    returns (run: seq<System>, steps: seq<Step>, seen: seq<Pass>)
    requires t0 == Idle(Deployment(2, Some(2), None, true), Entry(false, None), begun) && Leads(s0, t0, before, done)
    ensures Leads(s0, Idle(Deployment(2, Some(2), None, false), Entry(true, Some(70)), seen), run, steps)
  {
    var m2, m3 := Deployment(2, Some(2), None, true), Deployment(2, Some(2), None, false);
    var p := PassAt(Entry(false, None), m2, 10);
    seen := begun + [p];
    var t1 := Flying(m2, Entry(false, None), begun, p, [], Entry(true, Some(70)));
    var t2, t3 := Idle(m2, Entry(true, Some(70)), seen), Idle(m3, Entry(true, Some(70)), seen);
    ListSettles(m2, begun, 10);
    Ends(m2, Entry(false, None), begun, p, Entry(true, Some(70)));
    assert MemberDrift(t2, t3, "m", m3);
    run, steps := before, done;
    LeadsOn(s0, t0, t1, run, steps, List(["m"], 10, [Unknown]));
    run, steps := run + [t1], steps + [List(["m"], 10, [Unknown])];
    LeadsOn(s0, t1, t2, run, steps, End(true));
    run, steps := run + [t2], steps + [End(true)];
    LeadsOn(s0, t2, t3, run, steps, Drift("m", m3));
    run, steps := run + [t3], steps + [Drift("m", m3)];
  }

  /** The fleet finds the wave regressed and directs the member back to previousVersion. */
  lemma {:induction false} Regresses(s0: System, t3: System, before: seq<System>, done: seq<Step>, begun: seq<Pass>)
    returns (run: seq<System>, steps: seq<Step>, halted: Pass, status: Status, seen: seq<Pass>)
    requires t3 == Idle(Deployment(2, Some(2), None, false), Entry(true, Some(70)), begun) &&
      Leads(s0, t3, before, done)
    ensures Leads(s0, Idle(Deployment(2, Some(2), Some(1), false), status, seen), run, steps)
    ensures halted in seen && Regressed(SPEC, halted, 0) &&
      halted.members == Members(Deployment(2, Some(2), None, false))
  {
    var m3, m4 := Deployment(2, Some(2), None, false), Deployment(2, Some(2), Some(1), false);
    halted := PassAt(Entry(true, Some(70)), m3, 20);
    status := Entry(false, None);
    seen := begun + [halted];
    var t4 := Flying(m3, Entry(true, Some(70)), begun, halted, [RollbackTo("m", Some(1))], status);
    var t5 := Flying(m4, Entry(true, Some(70)), begun, halted, [], status);
    var t6 := Idle(m4, status, seen);
    ListRegresses(m3, begun, 70, 20);
    PatchLands(m3);
    Sends(m3, m4, Entry(true, Some(70)), begun, halted, RollbackTo("m", Some(1)), status);
    Ends(m4, Entry(true, Some(70)), begun, halted, status);
    run, steps := before, done;
    LeadsOn(s0, t3, t4, run, steps, List(["m"], 20, [Unknown]));
    run, steps := run + [t4], steps + [List(["m"], 20, [Unknown])];
    LeadsOn(s0, t4, t5, run, steps, Send);
    run, steps := run + [t5], steps + [Send];
    LeadsOn(s0, t5, t6, run, steps, End(true));
    run, steps := run + [t6], steps + [End(true)];
  }

  /**
   The whole run. Its last step is the member's approval gate: directed back to previousVersion, where it was
   deployed before the rollout, the member stays at the target, awaiting an approval nobody will stamp.
   */
  lemma {:induction false} DirectedRollbackIsHeld() returns (run: seq<System>, steps: seq<Step>)
    ensures IsRun(SPEC, run, steps) && "m" in run[0].members && run[0].members["m"].version == SPEC.previous
    ensures var s := run[|steps|];
      && (exists p <- s.begun :: Regressed(SPEC, p, 0) && "m" in p.members && p.members["m"].version == SPEC.target)
      && "m" in s.members && s.members["m"].rollbackTo == SPEC.previous
      && s.advancing == map[] && s.members["m"].version == SPEC.target && s.members["m"].pendingVersion == SPEC.previous
  {
    var seen;
    var m0 := Deployment(1, None, None, true);
    run, steps, seen := Advances(m0);
    var s0 := Idle(m0, Status([], Pending, ""), []);
    var halted, status;
    run, steps, seen := Settles(s0, run[|steps|], run, steps, seen);
    run, steps, halted, status, seen := Regresses(s0, run[|steps|], run, steps, seen);
    var m := Deployment(2, Some(2), Some(1), false);
    var t := Idle(m, status, seen);
    var u := t.(members := t.members["m" := m.(pendingVersion := Some(1))]);
    assert MemberGate(t, u, "m", Some(2), 0);
    LeadsOn(s0, t, u, run, steps, Gate("m", Some(2), 0));
    run, steps := run + [u], steps + [Gate("m", Some(2), 0)];
    assert Init(s0);
  }

  // ---- the halt that is forgotten ----

  /** The fleet finds the wave regressed, but the pass ends before a patch or its status is written. */
  lemma {:induction false} LosesHalt(s0: System, t0: System, before: seq<System>, done: seq<Step>, begun: seq<Pass>)
    returns (run: seq<System>, steps: seq<Step>, lost: Pass)
    requires t0 == Idle(Deployment(2, Some(2), None, false), Entry(true, Some(70)), begun) &&
      Leads(s0, t0, before, done)
    ensures !Settled(SPEC, lost, 0) && lost.now == 40
    ensures Leads(s0, t0.(members := Members(Deployment(2, Some(2), None, true)), begun := begun + [lost]), run, steps)
  {
    var m2, m3 := Deployment(2, Some(2), None, true), Deployment(2, Some(2), None, false);
    lost := PassAt(Entry(true, Some(70)), m3, 40);
    var t1 := Flying(m3, Entry(true, Some(70)), begun, lost, [RollbackTo("m", Some(1))], Entry(false, None));
    var t2 := t0.(begun := begun + [lost]);
    var t3 := t2.(members := Members(m2));
    ListRegresses(m3, begun, 70, 40);
    assert FleetEnd(t1, t2, false);
    assert MemberDrift(t2, t3, "m", m2);
    run, steps := before, done;
    LeadsOn(s0, t0, t1, run, steps, List(["m"], 40, [Unknown]));
    run, steps := run + [t1], steps + [List(["m"], 40, [Unknown])];
    LeadsOn(s0, t1, t2, run, steps, End(false));
    run, steps := run + [t2], steps + [End(false)];
    LeadsOn(s0, t2, t3, run, steps, Drift("m", m2));
    run, steps := run + [t3], steps + [Drift("m", m2)];
  }

  /** At the end of the soak the wave passes. */
  lemma {:induction false} ListPasses(s: System, m: Member) returns (p: Pass, f: Flight)
    requires s.flight == None && s.members == Members(m) && s.status == Entry(true, Some(70))
    requires Adopted(SPEC, m) && Healthy(m) && m.approved == Some(2)
    ensures Lists(s, s.(flight := Some(f), begun := s.begun + [p]), 70)
    ensures f.pass == p && p.now == 70 && |p.verdicts| == 1 && Passed(SPEC, p, 0)
  {
    p := PassAt(s.status, m, 70);
    f := Flight(p, [], Entry(true, Some(70)));
    SettledWhen(p, m);
    PriorWhen(true, Some(70));
    HaltsWhen(p);
    PlansApproval(p, m);
    StoresEntry(p, true, Some(70));
  }

  lemma {:induction false} NotSettledSince(before: seq<Pass>, lost: Pass, p: Pass, deadline: Time)
    requires !Settled(SPEC, lost, 0) && p.now == 70 && deadline <= 70
    ensures !SettledSince(SPEC, before + [lost] + [p], 0, deadline)
  {
    var passes := before + [lost] + [p];
    forall a: nat | a < |passes| && passes[a].now + 60 == deadline
      ensures exists b: nat | a <= b < |passes| :: !Settled(SPEC, passes[b], 0)
    {
      assert passes[|before|] == lost && passes[|before| + 1] == p;
    }
  }

  /**
   A wave that settles at 10 with a soak of 60 regresses, and recovers. The one pass that saw it regress lost its
   status, so a pass at 70 counts the wave as passed, although it was found unsettled within every 60 before.
   */
  lemma {:induction false} LostHaltIsForgotten() returns (run: seq<System>, steps: seq<Step>, p: Pass)
    ensures IsRun(SPEC, run, steps)
    ensures var s := run[|steps|];
      && s.flight.Some? && s.flight.value.pass == p && |p.verdicts| == 1 && Passed(SPEC, p, 0)
      && forall deadline: Time | deadline <= p.now :: !SettledSince(SPEC, s.begun, 0, deadline)
  {
    var seen, lost, f;
    var m0 := Deployment(1, None, None, true);
    run, steps, seen := Advances(m0);
    var s0 := Idle(m0, Status([], Pending, ""), []);
    run, steps, seen := Settles(s0, run[|steps|], run, steps, seen);
    run, steps, lost := LosesHalt(s0, run[|steps|], run, steps, seen);
    var t := run[|steps|];
    p, f := ListPasses(t, Deployment(2, Some(2), None, true));
    var u := t.(flight := Some(f), begun := t.begun + [p]);
    LeadsOn(s0, t, u, run, steps, List(["m"], 70, [Unknown]));
    run, steps := run + [u], steps + [List(["m"], 70, [Unknown])];
    assert Init(s0);
    forall deadline: Time | deadline <= 70 ensures !SettledSince(SPEC, u.begun, 0, deadline) {
      NotSettledSince(seen, lost, p, deadline);
    }
  }
}
