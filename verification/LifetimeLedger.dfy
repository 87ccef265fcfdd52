/**
 The once-per-lifetime action ledger: completions that survive the StageSet, the witnesses some of them
 are anchored to, and the baseline assertions an operator adds.
 */
module LifetimeLedger {
  import opened Wrappers

  datatype Scope = Revision | Version | Lifetime

  /** A pre or post action with its effective scope and the object, if any, that witnesses its completion. */
  datatype Action = Action(name: string, scope: Scope, anchor: Option<string>)
  datatype Stage = Stage(name: string, pre: seq<Action>, post: seq<Action>, onFailure: seq<string>)

  datatype Origin = Executed | Baselined
  datatype Witness = Witness(ref: string, uid: string)
  datatype Completion = Completion(stage: string, action: string, origin: Origin, anchor: Option<Witness>)
  datatype Ref = Ref(stage: string, action: string)

  /** What reading a witness object answers; an unlisted one is not found. */
  datatype Reading = Present(uid: string) | Unreadable
  type World = map<string, Reading>

  datatype AnchorState = AnchorOK | AnchorGone | AnchorUnreadable

  function ClassifyAnchor(c: Completion, w: World): AnchorState {
    if c.anchor.None? then AnchorOK
    else if c.anchor.value.ref !in w then AnchorGone
    else match w[c.anchor.value.ref]
      case Unreadable => AnchorUnreadable
      case Present(uid) => if uid != c.anchor.value.uid then AnchorGone else AnchorOK
  }

  /** The recorded effect is confirmed gone: the witness is absent, or another object has its name. */
  predicate Gone(c: Completion, w: World) {
    ClassifyAnchor(c, w) == AnchorGone
  }

  /**
   The completion holds: it needs no witness, or the witness cannot be read, or it is the recorded object. An outage
   never counts against it.
   */
  predicate Stands(c: Completion, w: World) {
    c.anchor.Some? ==>
      var known := c.anchor.value;
      known.ref in w && (w[known.ref] == Unreadable || w[known.ref] == Present(known.uid))
  }

  lemma {:induction false} GoneIff(c: Completion, w: World)
    ensures Gone(c, w) <==> !Stands(c, w)
  {
  }

  predicate IsFor(c: Completion, stage: string, action: string) {
    c.stage == stage && c.action == action
  }

  predicate IsCompleted(cs: seq<Completion>, stage: string, action: string) {
    exists c <- cs :: IsFor(c, stage, action)
  }

  /** At most one completion per stage and action. */
  ghost predicate Unique(cs: seq<Completion>) {
    forall i, j | 0 <= i < j < |cs| :: !IsFor(cs[i], cs[j].stage, cs[j].action)
  }

  predicate IsLifetimeAction(specs: seq<Stage>, stage: string, action: string) {
    exists s <- specs :: s.name == stage && exists a <- s.pre + s.post :: a.name == action && a.scope == Lifetime
  }

  // ---- the ledger's operations ----

  function Added(cs: seq<Completion>, c: Completion): seq<Completion> {
    if IsCompleted(cs, c.stage, c.action) then cs else cs + [c]
  }

  function PromotedOne(specs: seq<Stage>, cs: seq<Completion>, r: Ref): seq<Completion> {
    if IsLifetimeAction(specs, r.stage, r.action) then Added(cs, Completion(r.stage, r.action, Baselined, None)) else cs
  }

  function Promoted(specs: seq<Stage>, cs: seq<Completion>, baseline: seq<Ref>): seq<Completion> {
    if baseline == [] then cs
    else PromotedOne(specs, Promoted(specs, cs, baseline[..|baseline| - 1]), baseline[|baseline| - 1])
  }

  /** The entries without this stage's completions that the world shows gone. */
  function Invalidated(cs: seq<Completion>, stage: string, w: World): seq<Completion> {
    if cs == [] then []
    else
      var last := cs[|cs| - 1];
      Invalidated(cs[..|cs| - 1], stage, w) + if last.stage == stage && Gone(last, w) then [] else [last]
  }

  /** Some completion of the action is, or is not, gone. */
  predicate Counts(cs: seq<Completion>, stage: string, action: string, w: World, gone: bool) {
    exists c <- cs :: IsFor(c, stage, action) && Gone(c, w) == gone
  }

  lemma {:induction false} CountsAppend(cs: seq<Completion>, c: Completion, stage: string, action: string, w: World)
    ensures forall gone :: Counts(cs + [c], stage, action, w, gone) <==>
      Counts(cs, stage, action, w, gone) || (IsFor(c, stage, action) && Gone(c, w) == gone)
  {
    assert forall x :: x in cs + [c] <==> x in cs || x == c;
  }

  function WitnessOf(anchor: Option<string>, w: World): Option<Witness> {
    if anchor.Some? && anchor.value in w && w[anchor.value].Present?
    then Some(Witness(anchor.value, w[anchor.value].uid)) else None
  }

  datatype Gate = Gate(done: seq<string>, invalidated: seq<string>, unreadable: seq<string>)

  function GateOf(cs: seq<Completion>, stage: string, w: World): Gate {
    if cs == [] then Gate([], [], [])
    else
      var g, c := GateOf(cs[..|cs| - 1], stage, w), cs[|cs| - 1];
      if c.stage != stage then g
      else match ClassifyAnchor(c, w)
        case AnchorOK => g.(done := g.done + [c.action])
        case AnchorUnreadable => g.(done := g.done + [c.action], unreadable := g.unreadable + [c.action])
        case AnchorGone => g.(invalidated := g.invalidated + [c.action])
  }

  lemma {:induction false} GateCounts(cs: seq<Completion>, stage: string, w: World, a: string)
    ensures var g := GateOf(cs, stage, w);
      && (a in g.done <==> Counts(cs, stage, a, w, false))
      && (a in g.invalidated <==> Counts(cs, stage, a, w, true))
  {
    if cs != [] {
      GateCounts(cs[..|cs| - 1], stage, w, a);
      CountsAppend(cs[..|cs| - 1], cs[|cs| - 1], stage, a, w);
      assert cs == cs[..|cs| - 1] + [cs[|cs| - 1]];
    }
  }

  lemma {:induction false} UnreadableIff(cs: seq<Completion>, stage: string, w: World, a: string)
    ensures a in GateOf(cs, stage, w).unreadable <==>
      exists c <- cs :: IsFor(c, stage, a) && ClassifyAnchor(c, w) == AnchorUnreadable
  {
    if cs != [] {
      var init, last := cs[..|cs| - 1], cs[|cs| - 1];
      UnreadableIff(init, stage, w, a);
      assert forall c :: c in cs <==> c in init || c == last by { assert cs == init + [last]; }
    }
  }

  /**
   Done are the actions with a completion whose witness it does not need, cannot read or finds as recorded;
   invalidated those with one whose witness is absent or another object; unreadable, and still done, those with one
   whose witness it cannot read.
   */
  lemma {:induction false} GateReads(cs: seq<Completion>, stage: string, w: World, a: string)
    ensures a in GateOf(cs, stage, w).done <==> exists c <- cs ::
      && IsFor(c, stage, a)
      && (c.anchor.None? || (c.anchor.value.ref in w &&
                             w[c.anchor.value.ref] in {Unreadable, Present(c.anchor.value.uid)}))
    ensures a in GateOf(cs, stage, w).invalidated <==> exists c <- cs ::
      && IsFor(c, stage, a) && c.anchor.Some?
      && (c.anchor.value.ref in w ==>
           w[c.anchor.value.ref].Present? && w[c.anchor.value.ref].uid != c.anchor.value.uid)
    ensures a in GateOf(cs, stage, w).unreadable <==> exists c <- cs ::
      IsFor(c, stage, a) && c.anchor.Some? && c.anchor.value.ref in w && w[c.anchor.value.ref].Unreadable?
  {
    GateCounts(cs, stage, w, a);
    UnreadableIff(cs, stage, w, a);
    forall c { GoneIff(c, w); }
  }

  class StageLedger {
    var completed: seq<Completion>

    constructor (completed: seq<Completion>)
      ensures this.completed == completed
    {
      this.completed := completed;
    }

    method Has(stage: string, action: string) returns (r: bool)
      ensures r == IsCompleted(completed, stage, action)
    {
      for i := 0 to |completed|
        invariant forall j | 0 <= j < i :: !IsFor(completed[j], stage, action)
      {
        if IsFor(completed[i], stage, action) { return true; }
      }
      return false;
    }

    /**
     Adds each resolvable baseline entry that is not recorded; what is recorded stays as it is. It is stored if
     anything changed, or the condition that lists the unresolvable entries did; nothing is when that update fails.
     */
    method PromoteBaseline(specs: seq<Stage>, baseline: seq<Ref>, condition: bool, updated: bool)
      returns (unresolved: seq<Ref>, ok: bool)
      modifies this
      ensures ok <==> updated || (Promoted(specs, old(completed), baseline) == old(completed) && !condition)
      ensures completed == if ok then Promoted(specs, old(completed), baseline) else old(completed)
      ensures forall r :: r in unresolved <==> r in baseline && !IsLifetimeAction(specs, r.stage, r.action)
    {
      ghost var start := completed;
      var promoted, changed := completed, condition;
      unresolved := [];
      for i := 0 to |baseline|
        invariant completed == start && promoted == Promoted(specs, start, baseline[..i])
        invariant |start| <= |promoted| && (changed <==> condition || |promoted| > |start|)
        invariant !changed ==> promoted == start
        invariant forall r :: r in unresolved <==> r in baseline[..i] && !IsLifetimeAction(specs, r.stage, r.action)
      {
        var ref := baseline[i];
        assert baseline[..i + 1][..i] == baseline[..i];
        assert forall r :: r in baseline[..i + 1] <==> r in baseline[..i] || r == ref;
        if !IsLifetimeAction(specs, ref.stage, ref.action) {
          unresolved := unresolved + [ref];
          continue;
        }
        if IsCompleted(promoted, ref.stage, ref.action) { continue; }
        promoted, changed := promoted + [Completion(ref.stage, ref.action, Baselined, None)], true;
      }
      assert baseline[..|baseline|] == baseline;
      ok := updated || !changed;
      if ok { completed := promoted; }
    }

    /**
     Records a completion with its witness's UID; it fails, and nothing is stored, when an anchored action's witness
     cannot be read or the API server does not take the update.
     */
    method RecordCompletion(stage: string, action: string, anchor: Option<string>, w: World, updated: bool)
      returns (ok: bool)
      modifies this
      ensures ok <==> IsCompleted(old(completed), stage, action) ||
                      (updated && (anchor.None? || (anchor.value in w && w[anchor.value].Present?)))
      ensures !ok ==> completed == old(completed)
      ensures ok && IsCompleted(old(completed), stage, action) ==> completed == old(completed)
      ensures ok && !IsCompleted(old(completed), stage, action) ==> exists c ::
        && completed == old(completed) + [c] && IsFor(c, stage, action) && c.origin == Executed
        && c.anchor == (if anchor.None? then None else Some(Witness(anchor.value, w[anchor.value].uid)))
    {
      var already := Has(stage, action);
      if already { return true; }
      if anchor.Some? && (anchor.value !in w || w[anchor.value].Unreadable?) { return false; }
      if !updated { return false; }
      completed := completed + [Completion(stage, action, Executed, WitnessOf(anchor, w))];
      return true;
    }

    /** Classifies every completion of a stage against its witness; reads, and changes nothing. */
    method EvaluateGate(stage: string, w: World) returns (g: Gate)
      ensures g == GateOf(completed, stage, w)
    {
      g := Gate([], [], []);
      for i := 0 to |completed|
        invariant g == GateOf(completed[..i], stage, w)
      {
        var c := completed[i];
        assert completed[..i + 1][..i] == completed[..i];
        if c.stage != stage { continue; }
        match ClassifyAnchor(c, w)
        case AnchorOK => g := g.(done := g.done + [c.action]);
        case AnchorUnreadable => g := g.(done := g.done + [c.action], unreadable := g.unreadable + [c.action]);
        case AnchorGone => g := g.(invalidated := g.invalidated + [c.action]);
      }
      assert completed[..|completed|] == completed;
    }

    /** Drops a stage's named completions. */
    method DropCompletions(stage: string, actions: seq<string>) returns (changed: bool)
      modifies this
      ensures changed <==> exists c <- old(completed) :: c.stage == stage && c.action in actions
      ensures completed == Dropped(old(completed), stage, actions)
    {
      var kept: seq<Completion> := [];
      changed := false;
      for i := 0 to |completed|
        invariant completed == old(completed) && kept == Dropped(completed[..i], stage, actions)
        invariant changed <==> exists c <- completed[..i] :: c.stage == stage && c.action in actions
      {
        var c := completed[i];
        assert completed[..i + 1] == completed[..i] + [c];
        assert completed[..i + 1][..i] == completed[..i];
        if c.stage == stage && c.action in actions {
          changed := true;
        } else {
          kept := kept + [c];
        }
      }
      assert completed[..|completed|] == completed;
      completed := kept;
    }

    /**
     A stage's gate as the reconcile applies it: skip what is done, forget what is gone. When the update that
     forgets fails, so does the stage, and everything is kept.
     */
    method EnterStage(stage: string, w: World, updated: bool) returns (done: seq<string>, ok: bool)
      requires Unique(completed)
      modifies this
      ensures ok <==> updated || forall c <- old(completed) | c.stage == stage :: Stands(c, w)
      ensures completed == if ok then Invalidated(old(completed), stage, w) else old(completed)
      ensures ok ==> forall c :: c in completed <==> c in old(completed) && (c.stage == stage ==> Stands(c, w))
      ensures forall a :: a in done <==> exists c <- old(completed) :: IsFor(c, stage, a) && Stands(c, w)
    {
      var stored := completed;
      var g := EvaluateGate(stage, w);
      forall a: string { GateCounts(completed, stage, w, a); }
      forall c { GoneIff(c, w); }
      InvalidatedKeeps(stored, stage, w);
      var changed := DropCompletions(stage, g.invalidated);
      DroppedIsInvalidated(stored, stage, w, g.invalidated);
      assert changed <==> exists c <- stored :: c.stage == stage && Gone(c, w) by {
        forall c <- stored | c.stage == stage && c.action in g.invalidated
          ensures exists d <- stored :: d.stage == stage && Gone(d, w)
        {
          var d :| d in stored && IsFor(d, stage, c.action) && Gone(d, w);
        }
        assert forall c <- stored | c.stage == stage && Gone(c, w) :: IsFor(c, stage, c.action);
      }
      if changed && !updated {
        completed := stored;
        return g.done, false;
      }
      return g.done, true;
    }
  }

  function Dropped(cs: seq<Completion>, stage: string, actions: seq<string>): seq<Completion> {
    if cs == [] then []
    else
      var last := cs[|cs| - 1];
      Dropped(cs[..|cs| - 1], stage, actions) + if last.stage == stage && last.action in actions then [] else [last]
  }

  /** With unique completions, dropping the invalidated names drops exactly the completions that are gone. */
  lemma {:induction false} DroppedIsInvalidated(cs: seq<Completion>, stage: string, w: World, names: seq<string>)
    requires Unique(cs)
    requires forall a :: a in names <==> Counts(cs, stage, a, w, true)
    ensures Dropped(cs, stage, names) == Invalidated(cs, stage, w)
  {
    DroppedPrefix(cs, stage, w, names, |cs|);
    assert cs[..|cs|] == cs;
  }

  lemma {:induction false} DroppedPrefix(cs: seq<Completion>, stage: string, w: World, names: seq<string>, n: nat)
    requires Unique(cs) && n <= |cs|
    requires forall a :: a in names <==> Counts(cs, stage, a, w, true)
    ensures Dropped(cs[..n], stage, names) == Invalidated(cs[..n], stage, w)
  {
    if n > 0 {
      DroppedPrefix(cs, stage, w, names, n - 1);
      assert cs[..n][..n - 1] == cs[..n - 1];
      var c := cs[n - 1];
      if c.stage == stage && c.action in names {
        var d :| d in cs && IsFor(d, stage, c.action) && Gone(d, w);
        var i :| 0 <= i < |cs| && cs[i] == d;
        assert i == n - 1;
      }
    }
  }

  // ---- every sequence of operations ----

  datatype Op =
    | Promote(baseline: seq<Ref>)
    | Enter(stage: string, w: World)
    | Record(c: Completion)

  function Applied(specs: seq<Stage>, cs: seq<Completion>, op: Op): seq<Completion> {
    match op
    case Promote(baseline) => Promoted(specs, cs, baseline)
    case Enter(stage, w) => Invalidated(cs, stage, w)
    case Record(c) => Added(cs, c)
  }

  function After(specs: seq<Stage>, start: seq<Completion>, ops: seq<Op>): seq<Completion> {
    if ops == [] then start else Applied(specs, After(specs, start, ops[..|ops| - 1]), ops[|ops| - 1])
  }

  lemma {:induction false} OnlyOne(cs: seq<Completion>, c: Completion, d: Completion)
    requires Unique(cs) && c in cs && d in cs && IsFor(d, c.stage, c.action)
    ensures c == d
  {
    var i :| 0 <= i < |cs| && cs[i] == c;
    var j :| 0 <= j < |cs| && cs[j] == d;
  }

  lemma {:induction false} AddedUnique(cs: seq<Completion>, c: Completion)
    requires Unique(cs)
    ensures Unique(Added(cs, c)) && cs <= Added(cs, c)
    ensures IsCompleted(Added(cs, c), c.stage, c.action)
  {
    if !IsCompleted(cs, c.stage, c.action) {
      assert forall i | 0 <= i < |cs| :: cs[i] in cs;
      assert (cs + [c])[|cs|] == c && IsFor(c, c.stage, c.action);
    }
  }

  lemma {:induction false} OldOrNew(cs: seq<Completion>, r: seq<Completion>, d: Completion)
    requires cs <= r && d in r
    ensures d in cs || exists i | |cs| <= i < |r| :: r[i] == d
  {
    var k :| 0 <= k < |r| && r[k] == d;
    if k < |cs| { assert cs[k] == d; }
  }

  /**
   Promoting a baseline keeps every entry where and as it was, completes exactly the resolvable entries that
   were missing, and adds them as baselined.
   */
  lemma {:induction false} PromoteOnlyAdds(specs: seq<Stage>, cs: seq<Completion>, baseline: seq<Ref>, stage: string,
          action: string)
    requires Unique(cs)
    ensures var r := Promoted(specs, cs, baseline);
      && Unique(r) && cs <= r
      && (forall i | |cs| <= i < |r| :: r[i].origin == Baselined && r[i].anchor == None)
      && (IsCompleted(r, stage, action) <==>
           IsCompleted(cs, stage, action) || (Ref(stage, action) in baseline && IsLifetimeAction(specs, stage, action)))
  {
    if baseline != [] {
      var init, last := baseline[..|baseline| - 1], baseline[|baseline| - 1];
      PromoteOnlyAdds(specs, cs, init, stage, action);
      assert baseline == init + [last];
      var before := Promoted(specs, cs, init);
      var c := Completion(last.stage, last.action, Baselined, None);
      AddedUnique(before, c);
      if IsLifetimeAction(specs, last.stage, last.action) {
        AddedCompletes(before, c, stage, action);
      }
    }
  }

  lemma {:induction false} AddedCompletes(cs: seq<Completion>, c: Completion, stage: string, action: string)
    ensures IsCompleted(Added(cs, c), stage, action) <==> IsCompleted(cs, stage, action) || IsFor(c, stage, action)
  {
    if !IsCompleted(cs, c.stage, c.action) {
      assert forall x :: x in cs + [c] <==> x in cs || x == c;
    }
  }

  lemma {:induction false} InvalidatedKeeps(cs: seq<Completion>, stage: string, w: World)
    requires Unique(cs)
    ensures Unique(Invalidated(cs, stage, w))
    ensures forall c :: c in Invalidated(cs, stage, w) <==> c in cs && !(c.stage == stage && Gone(c, w))
  {
    if cs != [] {
      var init, last := cs[..|cs| - 1], cs[|cs| - 1];
      InvalidatedKeeps(init, stage, w);
      assert cs == init + [last];
      var kept := Invalidated(init, stage, w);
      forall i | 0 <= i < |kept| ensures !IsFor(kept[i], last.stage, last.action) {
        assert kept[i] in init;
      }
    }
  }

  /** The ledger holds at most one completion per stage and action after any sequence of operations. */
  lemma {:induction false} AlwaysUnique(specs: seq<Stage>, start: seq<Completion>, ops: seq<Op>)
    requires Unique(start)
    ensures Unique(After(specs, start, ops))
  {
    if ops != [] {
      var cs := After(specs, start, ops[..|ops| - 1]);
      AlwaysUnique(specs, start, ops[..|ops| - 1]);
      match ops[|ops| - 1]
      case Promote(baseline) => PromoteOnlyAdds(specs, cs, baseline, "", "");
      case Enter(stage, w) => InvalidatedKeeps(cs, stage, w);
      case Record(c) => AddedUnique(cs, c);
    }
  }

  /** At every stage entry from step i on this completion stands. */
  ghost predicate Witnessed(c: Completion, ops: seq<Op>, i: nat) {
    forall k: nat | i <= k < |ops| && ops[k].Enter? && ops[k].stage == c.stage :: Stands(c, ops[k].w)
  }

  /**
   A recorded completion stays, unchanged, for as long as every entry of its stage finds it unanchored,
   witnessed or unreadable; so every such entry counts its action as done.
   */
  lemma {:induction false} WitnessedCompletionStays(specs: seq<Stage>, start: seq<Completion>, ops: seq<Op>,
          c: Completion, i: nat)
    requires Unique(start) && i <= |ops| && c in After(specs, start, ops[..i]) && Witnessed(c, ops, i)
    ensures c in After(specs, start, ops)
    decreases |ops|
  {
    if i == |ops| {
      assert ops[..i] == ops;
    } else {
      var init := ops[..|ops| - 1];
      assert init[..i] == ops[..i];
      forall k: nat | i <= k < |init| && init[k].Enter? && init[k].stage == c.stage ensures Stands(c, init[k].w) {
        assert init[k] == ops[k];
      }
      WitnessedCompletionStays(specs, start, init, c, i);
      AlwaysUnique(specs, start, init);
      var cs := After(specs, start, init);
      match ops[|ops| - 1]
      case Promote(baseline) => PromoteOnlyAdds(specs, cs, baseline, "", "");
      case Enter(stage, w) =>
        GoneIff(c, w);
        InvalidatedKeeps(cs, stage, w);
      case Record(d) => AddedUnique(cs, d);
    }
  }

  /**
   A completion found gone is forgotten so that its action runs again; but when that run does not record it and
   the baseline still names it, the next promotion completes it without a run and without a witness.
   */
  lemma {:induction false} BaselineCoversFailedRerun(specs: seq<Stage>, cs: seq<Completion>, c: Completion, w: World,
          baseline: seq<Ref>)
    requires Unique(cs) && c in cs && Gone(c, w)
    requires Ref(c.stage, c.action) in baseline && IsLifetimeAction(specs, c.stage, c.action)
    ensures var entered := Invalidated(cs, c.stage, w);
      && !IsCompleted(entered, c.stage, c.action)
      && Completion(c.stage, c.action, Baselined, None) in Promoted(specs, entered, baseline)
  {
    InvalidatedKeeps(cs, c.stage, w);
    var entered := Invalidated(cs, c.stage, w);
    forall d <- cs | IsFor(d, c.stage, c.action) ensures d == c { OnlyOne(cs, c, d); }
    PromoteOnlyAdds(specs, entered, baseline, c.stage, c.action);
    var r := Promoted(specs, entered, baseline);
    var d :| d in r && IsFor(d, c.stage, c.action);
    OldOrNew(entered, r, d);
  }
}
