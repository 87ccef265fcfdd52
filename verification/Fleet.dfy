/**
 The FleetRollout wave protocol and the approval gate of its member StageSets.

 A fleet pass lists the members, derives each wave's settle status, and stamps approvals on
 the members of every wave up to the first one that has not passed. A member pass advances
 its version only when the stamp equals the version it wants. The two controllers run
 concurrently: the protocol below interleaves a fleet pass's list, patches and status write
 with the gate check and the completion of every member's passes.
 */
module Fleet {
  import opened Wrappers

  /** A field that names a version, of a total order; None is the empty string of the source. */
  type VersionField = Option<nat>
  type MemberId = string
  type Time = int

  datatype Verdict = Passing | Failing | Unknown
  datatype Wave = Wave(name: string, selects: set<MemberId>, soak: Option<int>, gated: bool)
  datatype Spec = Spec(target: VersionField, waves: seq<Wave>, rollback: bool, previous: VersionField)

  datatype ApprovalMode = Never | OnMigrations | Always
  datatype Member = Member(
    mode: ApprovalMode, version: VersionField, pendingVersion: VersionField,
    approved: VersionField, rollbackTo: VersionField,
    ready: bool, generation: int, observedGeneration: int, heldRevisions: nat)

  datatype WaveStatus = WaveStatus(
    name: string, total: nat, atTarget: nat, ready: nat, settled: bool,
    soakUntil: Option<Time>, health: Option<Verdict>)
  datatype Phase = Pending | InProgress | Completed | Halted
  datatype Status = Status(waves: seq<WaveStatus>, phase: Phase, currentWave: string)

  /** What one pass works from: the stored status, the member list, the clock and the gate verdicts. */
  datatype Pass = Pass(status: Status, listing: seq<MemberId>, members: map<MemberId, Member>,
                       now: Time, verdicts: seq<Verdict>)

  /** A merge patch of one annotation of one member. */
  datatype Patch = Approve(id: MemberId, version: VersionField) | RollbackTo(id: MemberId, version: VersionField)

  ghost predicate WellFormed(spec: Spec, p: Pass) {
    && |p.verdicts| == |spec.waves|
    && (forall id <- p.listing :: id in p.members)
    && (forall id <- p.members :: id in p.listing)
  }

  /** A selected StageSet that matches no wave, or that another rollout selects too, fails the pass closed. */
  ghost predicate Refused(spec: Spec, p: Pass, claimed: set<MemberId>) {
    exists id <- p.listing :: id in claimed || forall w <- spec.waves :: id !in w.selects
  }

  // ---- what a pass decides, stated over the members rather than over the loops ----

  predicate Adopted(spec: Spec, m: Member) {
    if spec.target.Some? then m.version == spec.target else m.pendingVersion == None
  }

  predicate Healthy(m: Member) {
    m.ready && m.observedGeneration == m.generation && m.heldRevisions == 0
  }

  function ApprovalVersion(spec: Spec, m: Member): VersionField {
    if spec.target.Some? then spec.target else m.pendingVersion
  }

  ghost predicate Settled(spec: Spec, p: Pass, w: nat)
    requires w < |spec.waves|
  {
    forall id <- p.members :: id in spec.waves[w].selects ==>
      Adopted(spec, p.members[id]) && Healthy(p.members[id])
  }

  /** The last stored entry of that name, as a map filled in list order holds it. */
  function PriorEntry(waves: seq<WaveStatus>, name: string): (r: Option<WaveStatus>)
    ensures r.Some? ==> r.value in waves && r.value.name == name
  {
    if waves == [] then None
    else
      var last := waves[|waves| - 1];
      if last.name == name then Some(last) else PriorEntry(waves[..|waves| - 1], name)
  }

  function PriorSoak(waves: seq<WaveStatus>, name: string): Option<Time> {
    var e := PriorEntry(waves, name);
    if e.Some? then e.value.soakUntil else None
  }

  function SoakOf(wave: Wave): int {
    if wave.soak.Some? then wave.soak.value else 0
  }

  function Deadline(spec: Spec, p: Pass, w: nat): Time
    requires w < |spec.waves|
  {
    var prior := PriorSoak(p.status.waves, spec.waves[w].name);
    if prior.Some? then prior.value else p.now + SoakOf(spec.waves[w])
  }

  ghost predicate Soaked(spec: Spec, p: Pass, w: nat)
    requires w < |spec.waves|
  {
    Settled(spec, p, w) && Deadline(spec, p, w) <= p.now
  }

  ghost predicate Passed(spec: Spec, p: Pass, w: nat)
    requires w < |spec.waves| == |p.verdicts|
  {
    Soaked(spec, p, w) && (spec.waves[w].gated ==> p.verdicts[w] == Passing)
  }

  ghost predicate Regressed(spec: Spec, p: Pass, w: nat)
    requires w < |spec.waves|
  {
    PriorSoak(p.status.waves, spec.waves[w].name).Some? && !Settled(spec, p, w)
  }

  ghost predicate GateFails(spec: Spec, p: Pass, w: nat)
    requires w < |spec.waves| == |p.verdicts|
  {
    Soaked(spec, p, w) && spec.waves[w].gated && p.verdicts[w] == Failing
  }

  ghost predicate HaltsAt(spec: Spec, p: Pass, w: nat)
    requires w < |spec.waves| == |p.verdicts|
  {
    Regressed(spec, p, w) || GateFails(spec, p, w)
  }

  ghost predicate Halts(spec: Spec, p: Pass)
    requires |spec.waves| == |p.verdicts|
  {
    exists w: nat | w < |spec.waves| :: HaltsAt(spec, p, w)
  }

  /** Wave w is open: every wave before it has passed. */
  ghost predicate Open(spec: Spec, p: Pass, w: nat)
    requires w < |spec.waves| == |p.verdicts|
  {
    forall v: nat | v < w :: Passed(spec, p, v)
  }

  ghost predicate Approvable(spec: Spec, p: Pass, id: MemberId)
    requires |spec.waves| == |p.verdicts|
  {
    exists w: nat | w < |spec.waves| :: id in spec.waves[w].selects && Open(spec, p, w)
  }

  /** An approval is sent only to a listed member of an open wave whose stamp would change. */
  ghost predicate WantsApproval(spec: Spec, p: Pass, id: MemberId, v: VersionField)
    requires |spec.waves| == |p.verdicts|
  {
    && id in p.members && Approvable(spec, p, id)
    && v == ApprovalVersion(spec, p.members[id]) && v.Some? && p.members[id].approved != v
  }

  /** The entry a pass stores for wave w, gate health aside. */
  ghost predicate EntryOf(spec: Spec, p: Pass, w: nat, e: WaveStatus)
    requires w < |spec.waves|
  {
    && e.name == spec.waves[w].name
    && (e.settled <==> Settled(spec, p, w))
    && e.soakUntil == (if Settled(spec, p, w) then Some(Deadline(spec, p, w)) else None)
  }

  ghost predicate EntriesOf(spec: Spec, p: Pass, waves: seq<WaveStatus>) {
    |waves| == |spec.waves| && forall w: nat | w < |waves| :: EntryOf(spec, p, w, waves[w])
  }

  /** The listed members a wave selects, in list order. */
  function Selected(listing: seq<MemberId>, selects: set<MemberId>): seq<MemberId> {
    if listing == [] then []
    else
      var last := listing[|listing| - 1];
      Selected(listing[..|listing| - 1], selects) + if last in selects then [last] else []
  }

  function AdoptedIn(spec: Spec, ids: seq<MemberId>, members: map<MemberId, Member>): nat {
    if ids == [] then 0
    else
      var last := ids[|ids| - 1];
      AdoptedIn(spec, ids[..|ids| - 1], members) + if last in members && Adopted(spec, members[last]) then 1 else 0
  }

  function HealthyIn(ids: seq<MemberId>, members: map<MemberId, Member>): nat {
    if ids == [] then 0
    else
      var last := ids[|ids| - 1];
      HealthyIn(ids[..|ids| - 1], members) + if last in members && Healthy(members[last]) then 1 else 0
  }

  /** The counts a pass stores for wave w. */
  predicate CountsOf(spec: Spec, p: Pass, w: nat, e: WaveStatus)
    requires w < |spec.waves|
  {
    var ids := Selected(p.listing, spec.waves[w].selects);
    e.total == |ids| && e.atTarget == AdoptedIn(spec, ids, p.members) && e.ready == HealthyIn(ids, p.members)
  }

  function PriorHealth(waves: seq<WaveStatus>, name: string): Option<Verdict> {
    var e := PriorEntry(waves, name);
    if e.Some? then e.value.health else None
  }

  /** The gate health a pass stores: the verdict where the gate was asked, else what was stored before. */
  ghost predicate HealthOf(spec: Spec, p: Pass, w: nat, e: WaveStatus)
    requires w < |spec.waves| == |p.verdicts|
  {
    e.health == if Soaked(spec, p, w) && spec.waves[w].gated && forall v: nat | v < w :: !HaltsAt(spec, p, v)
                then Some(p.verdicts[w]) else PriorHealth(p.status.waves, spec.waves[w].name)
  }

  ghost predicate FirstHalt(spec: Spec, p: Pass, h: nat)
    requires |spec.waves| == |p.verdicts|
  {
    && h < |spec.waves| && HaltsAt(spec, p, h)
    && forall w: nat | w < h :: !HaltsAt(spec, p, w)
  }

  /** The patches of a complete pass: only rollbacks of the first halting wave, or only approvals. */
  ghost predicate PatchesOf(spec: Spec, p: Pass, patches: seq<Patch>)
    requires |spec.waves| == |p.verdicts|
  {
    if Halts(spec, p) then
      exists h: nat | FirstHalt(spec, p, h) ::
        forall q: Patch :: q in patches <==>
          && spec.rollback && spec.previous.Some? && q.RollbackTo? && q.version == spec.previous
          && q.id in p.members && q.id in spec.waves[h].selects && p.members[q.id].rollbackTo != spec.previous
    else
      forall q: Patch :: q in patches <==> q.Approve? && WantsApproval(spec, p, q.id, q.version)
  }

  /** The phase and current wave a pass that met no error stores. */
  ghost predicate OutcomeOf(spec: Spec, p: Pass, s: Status)
    requires |spec.waves| == |p.verdicts|
  {
    if Halts(spec, p) then
      s.phase == Halted && exists h: nat | FirstHalt(spec, p, h) :: s.currentWave == spec.waves[h].name
    else if forall w: nat | w < |spec.waves| :: Passed(spec, p, w) then
      s.phase == Completed && s.currentWave == ""
    else
      s.phase == InProgress
      && exists w: nat | w < |spec.waves| ::
        Open(spec, p, w) && !Passed(spec, p, w) && s.currentWave == spec.waves[w].name
  }

  // ---- the pass itself, as the controller's loops compute it ----

  method AssignedTo(listing: seq<MemberId>, wave: Wave) returns (ids: seq<MemberId>)
    ensures ids == Selected(listing, wave.selects)
    ensures forall id :: id in ids <==> id in listing && id in wave.selects
  {
    ids := [];
    for i := 0 to |listing|
      invariant ids == Selected(listing[..i], wave.selects)
      invariant forall id :: id in ids <==> id in listing[..i] && id in wave.selects
    {
      assert listing[..i + 1][..i] == listing[..i];
      if listing[i] in wave.selects { ids := ids + [listing[i]]; }
    }
    assert listing[..|listing|] == listing;
  }

  /** Counts a wave's adopted and ready members; both counts are full exactly when every member is both. */
  method ComputeWaveStatus(spec: Spec, name: string, ids: seq<MemberId>, members: map<MemberId, Member>)
    returns (ws: WaveStatus)
    requires forall id <- ids :: id in members
    ensures ws.name == name && ws.total == |ids| && ws.soakUntil == None && ws.health == None
    ensures ws.atTarget == AdoptedIn(spec, ids, members) && ws.ready == HealthyIn(ids, members)
    ensures ws.settled <==> forall id <- ids :: Adopted(spec, members[id]) && Healthy(members[id])
  {
    var at, rd := 0, 0;
    for i := 0 to |ids|
      invariant 0 <= at <= i && at == AdoptedIn(spec, ids[..i], members)
      invariant 0 <= rd <= i && rd == HealthyIn(ids[..i], members)
      invariant at == i <==> forall j | 0 <= j < i :: Adopted(spec, members[ids[j]])
      invariant rd == i <==> forall j | 0 <= j < i :: Healthy(members[ids[j]])
    {
      assert ids[..i + 1][..i] == ids[..i];
      if Adopted(spec, members[ids[i]]) { at := at + 1; }
      if Healthy(members[ids[i]]) { rd := rd + 1; }
    }
    assert ids[..|ids|] == ids;
    ws := WaveStatus(name, |ids|, at, rd, at == |ids| && rd == |ids|, None, None);
  }

  /** The members of each wave, as the pass partitions them. */
  ghost predicate Partitioned(spec: Spec, p: Pass, perWave: seq<seq<MemberId>>) {
    && |perWave| == |spec.waves|
    && forall w: nat | w < |perWave| :: Assigned(spec, p, w, perWave[w])
  }

  ghost predicate Assigned(spec: Spec, p: Pass, w: nat, ids: seq<MemberId>)
    requires w < |spec.waves|
  {
    && ids == Selected(p.listing, spec.waves[w].selects)
    && forall id :: id in ids <==> id in p.members && id in spec.waves[w].selects
  }

  /** Pass 1: every wave's settle status, with the soak deadline carried or started. */
  method ComputeEntries(spec: Spec, p: Pass, perWave: seq<seq<MemberId>>) returns (waves: seq<WaveStatus>)
    requires WellFormed(spec, p) && Partitioned(spec, p, perWave)
    ensures Walked(spec, p, waves, 0)
  {
    waves := [];
    for w := 0 to |spec.waves|
      invariant |waves| == w
      invariant forall v: nat | v < w :: EntryOf(spec, p, v, waves[v]) && CountsOf(spec, p, v, waves[v])
      invariant forall v: nat | v < w :: waves[v].health == PriorHealth(p.status.waves, spec.waves[v].name)
    {
      assert Assigned(spec, p, w, perWave[w]);
      var ws := ComputeWaveStatus(spec, spec.waves[w].name, perWave[w], p.members);
      assert ws.settled <==> Settled(spec, p, w);
      var prev := PriorEntry(p.status.waves, ws.name);
      if prev.Some? { ws := ws.(health := prev.value.health); }
      if ws.settled {
        if prev.Some? && prev.value.soakUntil.Some? {
          ws := ws.(soakUntil := prev.value.soakUntil);
        } else {
          ws := ws.(soakUntil := Some(p.now + SoakOf(spec.waves[w])));
        }
      }
      waves := waves + [ws];
    }
  }

  /** A whole status entry list: settle status, soak deadlines, counts and gate health. */
  ghost predicate Stored(spec: Spec, p: Pass, waves: seq<WaveStatus>)
    requires |spec.waves| == |p.verdicts|
  {
    && EntriesOf(spec, p, waves)
    && forall w: nat | w < |waves| :: CountsOf(spec, p, w, waves[w]) && HealthOf(spec, p, w, waves[w])
  }

  /** The same, before the gates of wave n and later ones were asked, with no wave before n halting. */
  ghost predicate Walked(spec: Spec, p: Pass, waves: seq<WaveStatus>, n: nat)
    requires |spec.waves| == |p.verdicts|
  {
    && EntriesOf(spec, p, waves)
    && (forall w: nat | w < |waves| :: CountsOf(spec, p, w, waves[w]))
    && (forall w: nat | w < n && w < |waves| :: !HaltsAt(spec, p, w) && HealthOf(spec, p, w, waves[w]))
    && (forall w: nat | n <= w < |waves| :: waves[w].health == PriorHealth(p.status.waves, spec.waves[w].name))
  }

  /** The tests the walk makes on an entry decide what the wave's members and history say. */
  lemma {:induction false} EntryDecides(spec: Spec, p: Pass, w: nat, e: WaveStatus)
    requires w < |spec.waves| && EntryOf(spec, p, w, e)
    ensures PriorSoak(p.status.waves, e.name).Some? && !e.settled <==> Regressed(spec, p, w)
    ensures e.settled ==> e.soakUntil.Some?
    ensures e.settled && e.soakUntil.value <= p.now <==> Soaked(spec, p, w)
  {
  }

  /** The entries once wave w's gate is asked, when it is. */
  ghost function Asked(spec: Spec, p: Pass, waves: seq<WaveStatus>, w: nat): seq<WaveStatus>
    requires w < |spec.waves| == |p.verdicts| && w < |waves|
  {
    if Soaked(spec, p, w) && spec.waves[w].gated then waves[w := waves[w].(health := Some(p.verdicts[w]))] else waves
  }

  lemma {:induction false} AskedKeeps(spec: Spec, p: Pass, waves: seq<WaveStatus>, w: nat)
    requires |spec.waves| == |p.verdicts| && Walked(spec, p, waves, w) && w < |waves|
    ensures EntriesOf(spec, p, Asked(spec, p, waves, w))
    ensures forall v: nat | v < |waves| :: CountsOf(spec, p, v, Asked(spec, p, waves, w)[v])
  {
    var now := Asked(spec, p, waves, w);
    forall v: nat | v < |waves| ensures EntryOf(spec, p, v, now[v]) && CountsOf(spec, p, v, now[v]) {
      assert EntryOf(spec, p, v, waves[v]) && CountsOf(spec, p, v, waves[v]);
    }
  }

  lemma {:induction false} AskedHealth(spec: Spec, p: Pass, waves: seq<WaveStatus>, w: nat, v: nat)
    requires |spec.waves| == |p.verdicts| && Walked(spec, p, waves, w) && w < |waves| && v < |waves|
    ensures v <= w || HaltsAt(spec, p, w) ==> HealthOf(spec, p, v, Asked(spec, p, waves, w)[v])
    ensures v > w ==> Asked(spec, p, waves, w)[v] == waves[v]
  {
    if v < w { assert HealthOf(spec, p, v, waves[v]); }
  }

  lemma {:induction false} WalkOn(spec: Spec, p: Pass, waves: seq<WaveStatus>, w: nat)
    requires |spec.waves| == |p.verdicts| && Walked(spec, p, waves, w) && w < |waves|
    ensures EntryOf(spec, p, w, waves[w])
    ensures HaltsAt(spec, p, w) ==> FirstHalt(spec, p, w) && Stored(spec, p, Asked(spec, p, waves, w))
    ensures !HaltsAt(spec, p, w) ==> Walked(spec, p, Asked(spec, p, waves, w), w + 1)
  {
    AskedKeeps(spec, p, waves, w);
    forall v: nat | v < |waves| { AskedHealth(spec, p, waves, w, v); }
  }

  /** n is the first wave not passed, or the count of the waves walked when all of those passed. */
  ghost predicate FirstUnpassed(spec: Spec, p: Pass, walked: nat, n: nat)
    requires walked <= |spec.waves| == |p.verdicts|
  {
    && n <= |spec.waves|
    && (forall v: nat | v < n && v < walked :: Passed(spec, p, v))
    && (n < walked ==> !Passed(spec, p, n))
    && (n >= walked ==> n == |spec.waves|)
  }

  lemma {:induction false} UnpassedOn(spec: Spec, p: Pass, w: nat, n: nat)
    requires w < |spec.waves| == |p.verdicts| && FirstUnpassed(spec, p, w, n)
    ensures FirstUnpassed(spec, p, w + 1, if n == |spec.waves| && !Passed(spec, p, w) then w else n)
  {
  }

  /** Pass 2: walks every wave, stopping at the first that halts, and finds the first not yet passed. */
  method WalkWaves(spec: Spec, p: Pass, entries: seq<WaveStatus>)
    returns (waves: seq<WaveStatus>, halt: Option<nat>, firstOpen: nat)
    requires WellFormed(spec, p) && Walked(spec, p, entries, 0)
    ensures Stored(spec, p, waves)
    ensures halt.Some? <==> Halts(spec, p)
    ensures halt.Some? ==> FirstHalt(spec, p, halt.value)
    ensures halt.None? ==> FirstUnpassed(spec, p, |spec.waves|, firstOpen)
  {
    waves := entries;
    halt := None;
    firstOpen := |spec.waves|;
    for w := 0 to |spec.waves|
      invariant Walked(spec, p, waves, w) && |waves| == |spec.waves|
      invariant FirstUnpassed(spec, p, w, firstOpen)
    {
      WalkOn(spec, p, waves, w);
      EntryDecides(spec, p, w, waves[w]);
      UnpassedOn(spec, p, w, firstOpen);
      if PriorSoak(p.status.waves, waves[w].name).Some? && !waves[w].settled {
        halt := Some(w);
        return;
      }
      var passed := false;
      if waves[w].settled && waves[w].soakUntil.value <= p.now {
        if !spec.waves[w].gated {
          passed := true;
        } else {
          waves := waves[w := waves[w].(health := Some(p.verdicts[w]))];
          match p.verdicts[w]
          case Unknown =>
          case Passing => passed := true;
          case Failing =>
            halt := Some(w);
            return;
        }
      }
      assert passed <==> Passed(spec, p, w);
      if firstOpen == |spec.waves| && !passed { firstOpen := w; }
    }
  }

  /** The approvals of waves 0 through the first not yet passed. */
  method CollectApprovals(spec: Spec, p: Pass, perWave: seq<seq<MemberId>>, firstOpen: nat)
    returns (patches: seq<Patch>)
    requires WellFormed(spec, p) && Partitioned(spec, p, perWave)
    requires FirstUnpassed(spec, p, |spec.waves|, firstOpen)
    ensures forall q: Patch :: q in patches <==> q.Approve? && WantsApproval(spec, p, q.id, q.version)
  {
    patches := [];
    var stop := if firstOpen < |spec.waves| then firstOpen + 1 else |spec.waves|;
    for w := 0 to stop
      invariant forall q: Patch :: q in patches <==>
        q.Approve? && WantsApproval(spec, p, q.id, q.version) && exists v: nat | v < w :: q.id in spec.waves[v].selects
    {
      assert Open(spec, p, w) && Assigned(spec, p, w, perWave[w]);
      for i := 0 to |perWave[w]|
        invariant forall q: Patch :: q in patches <==>
          && q.Approve? && WantsApproval(spec, p, q.id, q.version)
          && (q.id in perWave[w][..i] || exists v: nat | v < w :: q.id in spec.waves[v].selects)
      {
        var id := perWave[w][i];
        assert id in perWave[w];
        var v := ApprovalVersion(spec, p.members[id]);
        assert Approvable(spec, p, id);
        if v.Some? && p.members[id].approved != v { patches := patches + [Approve(id, v)]; }
        assert perWave[w][..i + 1] == perWave[w][..i] + [id];
      }
      assert perWave[w][..|perWave[w]|] == perWave[w];
    }
    forall id | Approvable(spec, p, id) ensures exists v: nat | v < stop :: id in spec.waves[v].selects {
      var w: nat :| w < |spec.waves| && id in spec.waves[w].selects && Open(spec, p, w);
      assert w < stop;
    }
  }

  class FleetRollout {
    const spec: Spec
    var status: Status

    constructor (spec: Spec)
      ensures this.spec == spec && status == Status([], Pending, "")
    {
      this.spec := spec;
      status := Status([], Pending, "");
    }

    /**
     One reconcile. A spec is unusable when a selector does not parse or a gate needs a secret; `landed` patches
     reach the API server before one fails, all of them when none fails.
     */
    method Reconcile(usable: bool, listing: seq<MemberId>, members: map<MemberId, Member>, claimed: set<MemberId>,
                     now: Time, verdicts: seq<Verdict>, landed: nat)
      returns (ghost planned: seq<Patch>, sent: seq<Patch>, err: bool)
      requires WellFormed(spec, Pass(status, listing, members, now, verdicts))
      modifies this`status
      ensures var p := Pass(old(status), listing, members, now, verdicts);
        if !usable || Refused(spec, p, claimed) then
          status == old(status) && sent == [] && !err
        else
          && Stored(spec, p, status.waves)
          && PatchesOf(spec, p, planned)
          && (err <==> landed < |planned|)
          && sent == (if err then planned[..landed] else planned)
          && (err ==> status.phase == old(status.phase) && status.currentWave == old(status.currentWave))
          && (!err ==> OutcomeOf(spec, p, status))
    {
      var p := Pass(status, listing, members, now, verdicts);
      planned, sent, err := [], [], false;
      var refused := Refuses(listing, claimed);
      if refused || !usable { return; }
      var perWave := Partition(listing, p);
      var entries := ComputeEntries(spec, p, perWave);
      var waves, halt, firstOpen := WalkWaves(spec, p, entries);
      var patches: seq<Patch> := [];
      var phase, current := Halted, "";
      if halt.Some? {
        assert Assigned(spec, p, halt.value, perWave[halt.value]);
        current := spec.waves[halt.value].name;
        if spec.rollback && spec.previous.Some? {
          patches := CollectRollbacks(perWave[halt.value], members);
        }
      } else {
        patches := CollectApprovals(spec, p, perWave, firstOpen);
        if firstOpen == |spec.waves| {
          phase := Completed;
        } else {
          phase, current := InProgress, spec.waves[firstOpen].name;
          assert Open(spec, p, firstOpen) && !Passed(spec, p, firstOpen);
        }
      }
      planned := patches;
      err := landed < |patches|;
      sent := if err then patches[..landed] else patches;
      status := if err then status.(waves := waves) else Status(waves, phase, current);
    }

    method Refuses(listing: seq<MemberId>, claimed: set<MemberId>) returns (refused: bool)
      ensures refused <==> exists id <- listing :: id in claimed || forall w <- spec.waves :: id !in w.selects
    {
      for i := 0 to |listing|
        invariant forall j: nat | j < i :: listing[j] !in claimed && exists w <- spec.waves :: listing[j] in w.selects
      {
        var matched := MatchesSomeWave(listing[i]);
        if listing[i] in claimed || !matched {
          assert listing[i] in listing;
          return true;
        }
      }
      return false;
    }

    method Partition(listing: seq<MemberId>, ghost p: Pass) returns (perWave: seq<seq<MemberId>>)
      requires WellFormed(spec, p) && p.listing == listing
      ensures Partitioned(spec, p, perWave)
    {
      perWave := [];
      for w := 0 to |spec.waves|
        invariant |perWave| == w
        invariant forall v: nat | v < w :: Assigned(spec, p, v, perWave[v])
      {
        var ids := AssignedTo(listing, spec.waves[w]);
        perWave := perWave + [ids];
      }
    }

    method MatchesSomeWave(id: MemberId) returns (matched: bool)
      ensures matched <==> exists w <- spec.waves :: id in w.selects
    {
      matched := false;
      for w := 0 to |spec.waves|
        invariant matched <==> exists v: nat | v < w :: id in spec.waves[v].selects
      {
        if id in spec.waves[w].selects { matched := true; }
      }
    }

    method CollectRollbacks(ids: seq<MemberId>, members: map<MemberId, Member>) returns (patches: seq<Patch>)
      requires forall id <- ids :: id in members
      ensures forall q: Patch :: q in patches <==>
        q.RollbackTo? && q.version == spec.previous && q.id in ids && members[q.id].rollbackTo != spec.previous
    {
      patches := [];
      for i := 0 to |ids|
        invariant forall q: Patch :: q in patches <==>
          q.RollbackTo? && q.version == spec.previous && q.id in ids[..i] && members[q.id].rollbackTo != spec.previous
      {
        assert ids[..i + 1] == ids[..i] + [ids[i]];
        if members[ids[i]].rollbackTo != spec.previous { patches := patches + [RollbackTo(ids[i], spec.previous)]; }
      }
      assert ids[..|ids|] == ids;
    }
  }
}
