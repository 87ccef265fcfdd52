/**
 What a fleet pass decides, read off the members, the stored status and the verdicts it was given: which waves are
 behind it, which one halts it, and which members it approves or directs back.
 */
module FleetDecisions {
  import opened Wrappers
  import opened Fleet

  /** Every member the wave selects is at the target and reports it healthy. */
  ghost predicate AllThere(spec: Spec, p: Pass, w: nat)
    requires w < |spec.waves|
  {
    forall id <- p.members | id in spec.waves[w].selects ::
      var m := p.members[id];
      && (spec.target.Some? ==> m.version == spec.target) && (spec.target.None? ==> m.pendingVersion == None)
      && m.ready && m.observedGeneration == m.generation && m.heldRevisions == 0
  }

  /** The recorded soak has run out, or none is recorded and the wave has none. */
  predicate SoakOver(spec: Spec, p: Pass, w: nat)
    requires w < |spec.waves|
  {
    match PriorSoak(p.status.waves, spec.waves[w].name)
    case Some(deadline) => deadline <= p.now
    case None => spec.waves[w].soak.None? || spec.waves[w].soak.value <= 0
  }

  /** The rollout may go on behind the wave: an unknown verdict does not do. */
  ghost predicate Cleared(spec: Spec, p: Pass, w: nat)
    requires w < |spec.waves| == |p.verdicts|
  {
    AllThere(spec, p, w) && SoakOver(spec, p, w) && (spec.waves[w].gated ==> p.verdicts[w] == Passing)
  }

  /** The wave was settled and no longer is, or its gate says that it fails; an unknown verdict does neither. */
  ghost predicate Stopped(spec: Spec, p: Pass, w: nat)
    requires w < |spec.waves| == |p.verdicts|
  {
    || (PriorSoak(p.status.waves, spec.waves[w].name).Some? && !AllThere(spec, p, w))
    || (AllThere(spec, p, w) && SoakOver(spec, p, w) && spec.waves[w].gated && p.verdicts[w] == Failing)
  }

  lemma {:induction false} SettledIff(spec: Spec, p: Pass, w: nat)
    requires w < |spec.waves|
    ensures Settled(spec, p, w) <==> AllThere(spec, p, w)
  {
    forall id <- p.members | id in spec.waves[w].selects
      ensures Adopted(spec, p.members[id]) && Healthy(p.members[id]) <==>
        var m := p.members[id];
        && (spec.target.Some? ==> m.version == spec.target) && (spec.target.None? ==> m.pendingVersion == None)
        && m.ready && m.observedGeneration == m.generation && m.heldRevisions == 0
    {
    }
  }

  /** What the walk over the waves takes for passed is cleared, and what it halts at is stopped. */
  lemma {:induction false} WaveDecidedIff(spec: Spec, p: Pass, w: nat)
    requires w < |spec.waves| == |p.verdicts|
    ensures Passed(spec, p, w) <==> Cleared(spec, p, w)
    ensures HaltsAt(spec, p, w) <==> Stopped(spec, p, w)
    ensures !(Cleared(spec, p, w) && Stopped(spec, p, w))
  {
    SettledIff(spec, p, w);
  }

  /**
   A pass approves a member for a version exactly when no wave stops it, the member is in some wave all of whose
   predecessors are cleared, the version is the target, or without one what the member awaits, and it is not yet
   stamped.
   */
  lemma {:induction false} ApprovedIff(spec: Spec, p: Pass, patches: seq<Patch>, id: MemberId, v: VersionField)
    requires |spec.waves| == |p.verdicts| && PatchesOf(spec, p, patches)
    ensures Approve(id, v) in patches <==>
      && (forall w: nat | w < |spec.waves| :: !Stopped(spec, p, w))
      && id in p.members && v.Some? && p.members[id].approved != v
      && v == (if spec.target.Some? then spec.target else p.members[id].pendingVersion)
      && exists w: nat | w < |spec.waves| :: id in spec.waves[w].selects && forall u: nat | u < w :: Cleared(spec, p, u)
  {
    forall w: nat | w < |spec.waves| { WaveDecidedIff(spec, p, w); }
    forall w: nat | w < |spec.waves| ensures Open(spec, p, w) <==> forall u: nat | u < w :: Cleared(spec, p, u) {}
    assert Halts(spec, p) <==> !(forall w: nat | w < |spec.waves| :: !Stopped(spec, p, w));
  }

  /** It directs a member back exactly when the first wave that stops it selects the member. */
  lemma {:induction false} DirectedIff(spec: Spec, p: Pass, patches: seq<Patch>, id: MemberId, v: VersionField)
    requires |spec.waves| == |p.verdicts| && PatchesOf(spec, p, patches)
    ensures RollbackTo(id, v) in patches <==>
      && spec.rollback && spec.previous.Some? && v == spec.previous
      && id in p.members && p.members[id].rollbackTo != v
      && exists w: nat | w < |spec.waves| ::
           id in spec.waves[w].selects && Stopped(spec, p, w) && forall u: nat | u < w :: !Stopped(spec, p, u)
  {
    forall w: nat | w < |spec.waves| { WaveDecidedIff(spec, p, w); }
    forall w: nat | w < |spec.waves|
      ensures FirstHalt(spec, p, w) <==> Stopped(spec, p, w) && forall u: nat | u < w :: !Stopped(spec, p, u)
    {
    }
    if Halts(spec, p) {
      var h := TheFirst(spec, p, patches);
    }
  }

  lemma {:induction false} TheFirst(spec: Spec, p: Pass, patches: seq<Patch>) returns (h: nat)
    requires |spec.waves| == |p.verdicts| && PatchesOf(spec, p, patches) && Halts(spec, p)
    ensures FirstHalt(spec, p, h)
    ensures forall q: Patch :: q in patches <==>
      && spec.rollback && spec.previous.Some? && q.RollbackTo? && q.version == spec.previous
      && q.id in p.members && q.id in spec.waves[h].selects && p.members[q.id].rollbackTo != spec.previous
    ensures forall w: nat | FirstHalt(spec, p, w) :: w == h
  {
    h :| FirstHalt(spec, p, h) &&
      forall q: Patch :: q in patches <==>
        && spec.rollback && spec.previous.Some? && q.RollbackTo? && q.version == spec.previous
        && q.id in p.members && q.id in spec.waves[h].selects && p.members[q.id].rollbackTo != spec.previous;
    forall w: nat | FirstHalt(spec, p, w) ensures w == h {
      OnlyFirst(spec, p, w, h);
    }
  }

  lemma {:induction false} OnlyFirst(spec: Spec, p: Pass, w: nat, h: nat)
    requires |spec.waves| == |p.verdicts| && FirstHalt(spec, p, w) && FirstHalt(spec, p, h)
    ensures w == h
  {
  }

  /**
   An approval for a member says, of every wave before the member's first one: its gate answered and passes, and all
   of its members are at the target, ready, observed and hold no revision back.
   */
  lemma {:induction false} ApprovalNeedsHealthyWaves(spec: Spec, p: Pass, patches: seq<Patch>, q: Patch, w: nat)
    requires |spec.waves| == |p.verdicts| && PatchesOf(spec, p, patches) && q in patches && q.Approve?
    requires w < |spec.waves| && forall u: nat | u <= w :: q.id !in spec.waves[u].selects
    ensures spec.waves[w].gated ==> p.verdicts[w] == Passing
    ensures forall id <- p.members | id in spec.waves[w].selects ::
      var m := p.members[id];
      && (if spec.target.Some? then m.version == spec.target else m.pendingVersion == None)
      && m.ready && m.observedGeneration == m.generation && m.heldRevisions == 0
  {
    ApprovedIff(spec, p, patches, q.id, q.version);
    assert q == Approve(q.id, q.version);
    var own: nat :| own < |spec.waves| && q.id in spec.waves[own].selects && forall u: nat | u < own ::
      Cleared(spec, p, u);
    assert w < own;
    assert Cleared(spec, p, w);
  }

  /**
   A gate that cannot be read neither advances nor halts the rollout: no member whose waves all come later is
   approved, and the wave stops the pass only by having lost a member.
   */
  lemma {:induction false} UnknownGateHolds(spec: Spec, p: Pass, patches: seq<Patch>, w: nat)
    requires |spec.waves| == |p.verdicts| && PatchesOf(spec, p, patches)
    requires w < |spec.waves| && spec.waves[w].gated && p.verdicts[w] == Unknown
    ensures forall q <- patches | q.Approve? :: exists u: nat | u <= w :: q.id in spec.waves[u].selects
    ensures HaltsAt(spec, p, w) ==> exists id <- p.members | id in spec.waves[w].selects ::
      var m := p.members[id];
      || (if spec.target.Some? then m.version != spec.target else m.pendingVersion != None)
      || !m.ready || m.observedGeneration != m.generation || m.heldRevisions != 0
  {
    forall q <- patches | q.Approve? ensures exists u: nat | u <= w :: q.id in spec.waves[u].selects {
      if forall u: nat | u <= w :: q.id !in spec.waves[u].selects { ApprovalNeedsHealthyWaves(spec, p, patches, q, w); }
    }
    WaveDecidedIff(spec, p, w);
  }

  /** The phase and the current wave a pass stores say what it decided. */
  lemma {:induction false} PhaseIs(spec: Spec, p: Pass, s: Status)
    requires |spec.waves| == |p.verdicts| && OutcomeOf(spec, p, s)
    ensures s.phase == Halted <==> exists w: nat | w < |spec.waves| :: Stopped(spec, p, w)
    ensures s.phase == Completed <==> forall w: nat | w < |spec.waves| :: Cleared(spec, p, w) && !Stopped(spec, p, w)
    ensures s.phase == InProgress ==> exists w: nat | w < |spec.waves| ::
      s.currentWave == spec.waves[w].name && !Cleared(spec, p, w) && forall u: nat | u < w :: Cleared(spec, p, u)
  {
    forall w: nat | w < |spec.waves| { WaveDecidedIff(spec, p, w); }
  }

  // ---- the counts ----

  lemma {:induction false} SelectedIs(listing: seq<MemberId>, selects: set<MemberId>)
    requires forall i, j | 0 <= i < j < |listing| :: listing[i] != listing[j]
    ensures var ids := Selected(listing, selects);
      && (forall id :: id in ids <==> id in listing && id in selects)
      && (forall i, j | 0 <= i < j < |ids| :: ids[i] != ids[j])
  {
    if listing != [] {
      var init, last := listing[..|listing| - 1], listing[|listing| - 1];
      SelectedIs(init, selects);
      assert listing == init + [last];
    }
  }

  ghost function AdoptedSet(spec: Spec, ids: seq<MemberId>, members: map<MemberId, Member>): set<MemberId> {
    set id | id in ids && id in members && Adopted(spec, members[id])
  }

  ghost function HealthySet(ids: seq<MemberId>, members: map<MemberId, Member>): set<MemberId> {
    set id | id in ids && id in members && Healthy(members[id])
  }

  lemma {:induction false} AdoptedOnce(spec: Spec, ids: seq<MemberId>, members: map<MemberId, Member>)
    requires forall i, j | 0 <= i < j < |ids| :: ids[i] != ids[j]
    ensures AdoptedIn(spec, ids, members) == |AdoptedSet(spec, ids, members)|
  {
    if ids != [] {
      var init, last := ids[..|ids| - 1], ids[|ids| - 1];
      AdoptedOnce(spec, init, members);
      assert forall id :: id in ids <==> id in init || id == last by { assert ids == init + [last]; }
      var at := AdoptedSet(spec, init, members);
      assert last !in at;
      assert AdoptedSet(spec, ids, members) == if last in members && Adopted(spec, members[last])
        then at + {last} else at;
    }
  }

  lemma {:induction false} HealthyOnce(ids: seq<MemberId>, members: map<MemberId, Member>)
    requires forall i, j | 0 <= i < j < |ids| :: ids[i] != ids[j]
    ensures HealthyIn(ids, members) == |HealthySet(ids, members)|
  {
    if ids != [] {
      var init, last := ids[..|ids| - 1], ids[|ids| - 1];
      HealthyOnce(init, members);
      assert forall id :: id in ids <==> id in init || id == last by { assert ids == init + [last]; }
      var ready := HealthySet(init, members);
      assert last !in ready;
      assert HealthySet(ids, members) == if last in members && Healthy(members[last]) then ready + {last} else ready;
    }
  }

  /**
   The counts a pass stores for a wave are the numbers of its members, of those at the target, or without one awaiting
   nothing, and of those that are ready, observed and hold no revision back.
   */
  lemma {:induction false} CountsAre(spec: Spec, p: Pass, w: nat, e: WaveStatus)
    requires w < |spec.waves| && WellFormed(spec, p) && CountsOf(spec, p, w, e)
    requires forall i, j | 0 <= i < j < |p.listing| :: p.listing[i] != p.listing[j]
    ensures e.atTarget == |set id | id in p.members && id in spec.waves[w].selects &&
      (if spec.target.Some? then p.members[id].version == spec.target else p.members[id].pendingVersion == None)|
    ensures e.ready == |set id | id in p.members && id in spec.waves[w].selects &&
      p.members[id].ready && p.members[id].observedGeneration == p.members[id].generation &&
      p.members[id].heldRevisions == 0|
  {
    var ids := Selected(p.listing, spec.waves[w].selects);
    SelectedIs(p.listing, spec.waves[w].selects);
    AdoptedOnce(spec, ids, p.members);
    HealthyOnce(ids, p.members);
    assert AdoptedSet(spec, ids, p.members) ==
      set id | id in p.members && id in spec.waves[w].selects &&
        (if spec.target.Some? then p.members[id].version == spec.target else p.members[id].pendingVersion == None);
    assert HealthySet(ids, p.members) ==
      set id | id in p.members && id in spec.waves[w].selects &&
        p.members[id].ready && p.members[id].observedGeneration == p.members[id].generation &&
        p.members[id].heldRevisions == 0;
  }
}
