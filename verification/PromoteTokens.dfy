/**
 The break-glass promote token across whole StageSet passes: stages run in order until one holds, and
 the statuses of the stages a pass never reached survive through the status merge.
 */
module PromoteTokens {
  import opened Wrappers
  import opened Promotion

  datatype Entry = Entry(name: string, record: Record)
  /** `rollsBack` says whether a gate of the stage is set up to roll it back. */
  datatype StageSpec = StageSpec(name: string, gate: Option<Gate>, rollsBack: bool)

  /** The promote annotation "<stage>@<token>", absent or malformed as None. */
  datatype Annotation = Annotation(stage: string, token: Token)

  // ---- status lookup and merge ----

  /** The entry of that name, as a map filled in list order holds it. */
  function Find(entries: seq<Entry>, name: string): Option<Record> {
    if entries == [] then None
    else if entries[|entries| - 1].name == name then Some(entries[|entries| - 1].record)
    else Find(entries[..|entries| - 1], name)
  }

  predicate Named(specs: seq<StageSpec>, name: string) {
    exists s <- specs :: s.name == name
  }

  predicate UniqueStages(specs: seq<StageSpec>) {
    forall i, j | 0 <= i < j < |specs| :: specs[i].name != specs[j].name
  }

  lemma {:induction false} FindLast(entries: seq<Entry>, e: Entry, name: string)
    ensures Find(entries + [e], name) == if e.name == name then Some(e.record) else Find(entries, name)
  {
    assert (entries + [e])[..|entries|] == entries;
  }

  function MergedAt(specs: seq<StageSpec>, stored: seq<Entry>, processed: seq<Entry>, name: string): Option<Record> {
    if !Named(specs, name) then None
    else if Find(processed, name).Some? then Find(processed, name)
    else Find(stored, name)
  }

  ghost predicate IsMerge(specs: seq<StageSpec>, stored: seq<Entry>, processed: seq<Entry>, merged: seq<Entry>) {
    forall name: string :: Find(merged, name) == MergedAt(specs, stored, processed, name)
  }

  /** The spec's stages that have an entry made this pass or stored, in spec order. */
  function Present(specs: seq<StageSpec>, stored: seq<Entry>, processed: seq<Entry>): seq<string> {
    if specs == [] then []
    else
      var name := specs[|specs| - 1].name;
      Present(specs[..|specs| - 1], stored, processed)
        + if Find(processed, name).Some? || Find(stored, name).Some? then [name] else []
  }

  function NamesOf(entries: seq<Entry>): seq<string> {
    seq(|entries|, i requires 0 <= i < |entries| => entries[i].name)
  }

  /** What the merge adds for one stage. */
  function Contribution(stored: seq<Entry>, processed: seq<Entry>, name: string): seq<Entry> {
    var now, old' := Find(processed, name), Find(stored, name);
    if now.Some? then [Entry(name, now.value)] else if old'.Some? then [Entry(name, old'.value)] else []
  }

  lemma {:induction false} MergeStep(specs: seq<StageSpec>, i: nat, stored: seq<Entry>, processed: seq<Entry>,
          merged: seq<Entry>)
    requires i < |specs| && UniqueStages(specs) && IsMerge(specs[..i], stored, processed, merged)
    ensures IsMerge(specs[..i + 1], stored, processed, merged + Contribution(stored, processed, specs[i].name))
  {
    var name := specs[i].name;
    var more := Contribution(stored, processed, name);
    assert specs[..i + 1] == specs[..i] + [specs[i]];
    assert forall s <- specs[..i] :: s.name != name;
    forall n: string ensures Find(merged + more, n) == MergedAt(specs[..i + 1], stored, processed, n) {
      assert Named(specs[..i + 1], n) <==> Named(specs[..i], n) || n == name;
      if more != [] { FindLast(merged, more[0], n); } else { assert merged + more == merged; }
    }
  }

  lemma {:induction false} PresentStep(specs: seq<StageSpec>, i: nat, stored: seq<Entry>, processed: seq<Entry>,
          merged: seq<Entry>)
    requires i < |specs| && NamesOf(merged) == Present(specs[..i], stored, processed)
    ensures NamesOf(merged + Contribution(stored, processed, specs[i].name)) ==
      Present(specs[..i + 1], stored, processed)
  {
    assert specs[..i + 1][..i] == specs[..i];
  }

  /** Entries made this pass win, stages not reached keep theirs, stages no longer in the spec drop; in spec order. */
  method MergeStageStatuses(specs: seq<StageSpec>, stored: seq<Entry>,
          processed: seq<Entry>) returns (merged: seq<Entry>)
    requires UniqueStages(specs)
    ensures IsMerge(specs, stored, processed, merged)
    ensures NamesOf(merged) == Present(specs, stored, processed)
  {
    merged := [];
    for i := 0 to |specs|
      invariant IsMerge(specs[..i], stored, processed, merged)
      invariant NamesOf(merged) == Present(specs[..i], stored, processed)
    {
      var name := specs[i].name;
      MergeStep(specs, i, stored, processed, merged);
      PresentStep(specs, i, stored, processed, merged);
      var now, old' := Find(processed, name), Find(stored, name);
      if now.Some? {
        merged := merged + [Entry(name, now.value)];
        continue;
      }
      if old'.Some? {
        merged := merged + [Entry(name, old'.value)];
      } else {
        assert merged + [] == merged;
      }
    }
    assert specs[..|specs|] == specs;
  }

  // ---- one pass ----

  /** What meets the pass at one stage. `reverted` is the revision a rollback restored, when one did. */
  datatype Encounter =
    | Judged(revision: Revision, now: Time, x: Inputs, reverted: Option<Revision>)
    | Interrupted(revision: Revision)
    | Dropped(revision: Revision) // failed, or applied and still becoming ready: a record without promotion fields
    | BudgetHold

  /** `stored` says whether the pass's status reaches the API server; an error behind the stage loop loses it. */
  datatype Pass = Pass(annotation: Option<Annotation>, stages: seq<Encounter>, stored: bool)

  function TokenFor(a: Option<Annotation>, stage: string): Token {
    if a.Some? && a.value.stage == stage then a.value.token else ""
  }

  /**
   Reverted away from this very revision by a gate that may still do so, and no fresh token to lift the abort: the
   stage is not even applied.
   */
  predicate Aborted(spec: StageSpec, prior: Record, e: Encounter, token: Token) {
    && spec.rollsBack && !e.BudgetHold? && prior.state.Some? && prior.state.value.phase == Blocked
    && prior.state.value.aborted == Some(e.revision)
    && !(token != "" && token != prior.handled)
  }

  datatype StageResult = StageResult(record: Record, goesOn: bool, fired: bool)

  function RunStage(spec: StageSpec, prior: Record, e: Encounter, token: Token): StageResult {
    if Aborted(spec, prior, e, token) then StageResult(prior, false, false)
    else match e
      case Judged(revision, now, x, reverted) =>
        var d := GatePromotion(spec.gate, revision, prior, now, x.(token := token));
        var fired := spec.gate.Some? && !AlreadyPromoted(prior, revision) && token != "" && token != prior.handled;
        if d.rollback && reverted.Some? && d.state.Some? then
          StageResult(Record(reverted.value, Some(d.state.value.(aborted := Some(revision))), d.handled), d.promoted,
            fired)
        else StageResult(Record(revision, d.state, d.handled), d.promoted, fired)
      case Interrupted(revision) => StageResult(prior.(appliedRevision := revision), false, false)
      case Dropped(revision) => StageResult(Record(revision, None, ""), false, false)
      case BudgetHold => StageResult(prior, false, false)
  }

  function PriorRecord(stored: seq<Entry>, name: string): Record {
    var r := Find(stored, name);
    if r.Some? then r.value else FRESH
  }

  datatype LoopResult = LoopResult(processed: seq<Entry>, fired: set<Annotation>)

  /** The stage loop over the first n stages: it stops behind the first that does not go on. */
  function RunStages(specs: seq<StageSpec>, stored: seq<Entry>, p: Pass, n: nat): (r: (LoopResult, bool))
    requires n <= |specs| <= |p.stages|
  {
    if n == 0 then (LoopResult([], {}), true)
    else
      var (before, on) := RunStages(specs, stored, p, n - 1);
      if !on then (before, false)
      else
        var spec := specs[n - 1];
        var token := TokenFor(p.annotation, spec.name);
        var s := RunStage(spec, PriorRecord(stored, spec.name), p.stages[n - 1], token);
        (LoopResult(before.processed + [Entry(spec.name, s.record)],
                    before.fired + if s.fired then {Annotation(spec.name, token)} else {}), s.goesOn)
  }

  /**
   The status behind a pass: every stage's entry on success, the merge when it held, what it was when the write is
   lost.
   */
  ghost predicate Stores(specs: seq<StageSpec>, stored: seq<Entry>, p: Pass, after: seq<Entry>)
    requires |specs| <= |p.stages|
  {
    var (loop, on) := RunStages(specs, stored, p, |specs|);
    if !p.stored then after == stored
    else if on then after == loop.processed
    else IsMerge(specs, stored, loop.processed, after)
  }

  function Fired(specs: seq<StageSpec>, stored: seq<Entry>, p: Pass): set<Annotation>
    requires |specs| <= |p.stages|
  {
    RunStages(specs, stored, p, |specs|).0.fired
  }

  /** The pass gets as far as stage n. */
  predicate Reaches(specs: seq<StageSpec>, stored: seq<Entry>, p: Pass, n: nat)
    requires |specs| <= |p.stages|
  {
    n < |specs| && RunStages(specs, stored, p, n).1
  }

  predicate DropsAt(specs: seq<StageSpec>, stored: seq<Entry>, p: Pass, k: nat)
    requires k < |specs| <= |p.stages|
  {
    && p.stages[k].Dropped?
    && !Aborted(specs[k], PriorRecord(stored, specs[k].name), p.stages[k], TokenFor(p.annotation, specs[k].name))
  }

  /** Among its first n stages the pass drops the record of the stage of that name. */
  ghost predicate DropsAmong(specs: seq<StageSpec>, stored: seq<Entry>, p: Pass, n: nat, name: string)
    requires n <= |specs| <= |p.stages|
  {
    exists k: nat | k < n :: specs[k].name == name && Reaches(specs, stored, p, k) && DropsAt(specs, stored, p, k)
  }

  ghost predicate Drops(specs: seq<StageSpec>, stored: seq<Entry>, p: Pass, name: string)
    requires |specs| <= |p.stages|
  {
    DropsAmong(specs, stored, p, |specs|, name)
  }

  /** A stage's handled token moves only to a token that fires, and it does; a dropped stage's is forgotten. */
  lemma {:induction false} StageHandles(spec: StageSpec, prior: Record, e: Encounter, token: Token)
    ensures var s := RunStage(spec, prior, e, token);
      if e.Dropped? && !Aborted(spec, prior, e, token) then s.record.handled == "" && !s.fired
      else if s.fired then token != "" && token != prior.handled && s.record.handled == token
      else s.record.handled == prior.handled
  {
  }

  /** A token that fires promotes its stage at the judged revision, whatever else stands against it. */
  lemma {:induction false} FiringPromotes(spec: StageSpec, prior: Record, e: Encounter, token: Token)
    ensures var s := RunStage(spec, prior, e, token);
      s.fired ==> s.goesOn && e.Judged? && RecordedAs(s.record, e.revision, Promoted)
  {
  }

  /**
   A stage goes on exactly when it is judged, not held back from the revision it was reverted from, and its gate, if
   any, promotes it. An interruption changes only the revision of its record, a budget hold nothing.
   */
  lemma {:induction false} GoesOnIff(spec: StageSpec, prior: Record, e: Encounter, token: Token)
    ensures var s := RunStage(spec, prior, e, token);
      && (s.goesOn <==>
           && e.Judged? && !Aborted(spec, prior, e, token)
           && (spec.gate.Some? ==> GatePromotion(spec.gate, e.revision, prior, e.now, e.x.(token := token)).promoted))
      && (Aborted(spec, prior, e, token) || e.BudgetHold? ==> s.record == prior)
      && (e.Interrupted? && !Aborted(spec, prior, e, token) ==>
        s.record == Record(e.revision, prior.state, prior.handled))
      && (e.Judged? && s.goesOn ==> s.record.appliedRevision == e.revision)
  {
  }

  /** A pass reaches a stage exactly when every stage before it goes on. */
  lemma {:induction false} ReachesIff(specs: seq<StageSpec>, stored: seq<Entry>, p: Pass, n: nat)
    requires n < |specs| <= |p.stages|
    ensures Reaches(specs, stored, p, n) <==> forall k: nat | k < n ::
      RunStage(specs[k], PriorRecord(stored, specs[k].name), p.stages[k], TokenFor(p.annotation, specs[k].name)).goesOn
  {
    if n > 0 { ReachesIff(specs, stored, p, n - 1); }
  }

  ghost predicate Handles(before: Token, after: Token, p: Pass, name: string, fired: set<Annotation>, dropped: bool) {
    && (forall a <- fired | a.stage == name ::
         p.annotation == Some(a) && a.token != "" && a.token != before && after == a.token && !dropped)
    && (dropped ==> after == "")
    && (!dropped ==> after == before || Annotation(name, after) in fired)
  }

  lemma {:induction false} LoopHandles(specs: seq<StageSpec>, stored: seq<Entry>, p: Pass, n: nat, name: string)
    requires n <= |specs| <= |p.stages| && UniqueStages(specs)
    ensures var (r, on) := RunStages(specs, stored, p, n);
      && (Find(r.processed, name).None? ==>
        (forall a <- r.fired :: a.stage != name) && !DropsAmong(specs, stored, p, n, name))
      && (Find(r.processed, name).Some? ==>
        Handles(PriorRecord(stored, name).handled, Find(r.processed, name).value.handled, p, name, r.fired,
                DropsAmong(specs, stored, p, n, name)))
      && (Find(r.processed, name).Some? ==> Named(specs[..n], name))
      && (on && Named(specs[..n], name) ==> Find(r.processed, name).Some?)
  {
    if n > 0 {
      LoopHandles(specs, stored, p, n - 1, name);
      DropsStep(specs, stored, p, n, name);
      var spec := specs[n - 1];
      var (before, on) := RunStages(specs, stored, p, n - 1);
      assert specs[..n] == specs[..n - 1] + [spec];
      if on {
        var token := TokenFor(p.annotation, spec.name);
        var s := RunStage(spec, PriorRecord(stored, spec.name), p.stages[n - 1], token);
        StageHandles(spec, PriorRecord(stored, spec.name), p.stages[n - 1], token);
        FindLast(before.processed, Entry(spec.name, s.record), name);
        if spec.name == name {
          assert forall x <- specs[..n - 1] :: x.name != name;
        }
      }
    }
  }

  lemma {:induction false} DropsStep(specs: seq<StageSpec>, stored: seq<Entry>, p: Pass, n: nat, name: string)
    requires 0 < n <= |specs| <= |p.stages|
    ensures DropsAmong(specs, stored, p, n, name) <==>
      || DropsAmong(specs, stored, p, n - 1, name)
      || (specs[n - 1].name == name && Reaches(specs, stored, p, n - 1) && DropsAt(specs, stored, p, n - 1))
  {
  }

  /** Through the merge, every stage's handled token moves only by a token that fires, or is dropped with its record. */
  lemma {:induction false} PassHandles(specs: seq<StageSpec>, stored: seq<Entry>, p: Pass, after: seq<Entry>,
          name: string)
    requires UniqueStages(specs) && |specs| <= |p.stages| && Stores(specs, stored, p, after) && Named(specs, name) &&
      p.stored
    ensures Handles(PriorRecord(stored, name).handled, PriorRecord(after, name).handled, p, name,
                    Fired(specs, stored, p), Drops(specs, stored, p, name))
  {
    LoopHandles(specs, stored, p, |specs|, name);
    assert specs[..|specs|] == specs;
  }

  /** Only a token that is not the one handled last fires. */
  lemma {:induction false} FiredFresh(specs: seq<StageSpec>, stored: seq<Entry>, p: Pass, a: Annotation)
    requires UniqueStages(specs) && |specs| <= |p.stages| && a in Fired(specs, stored, p)
    ensures p.annotation == Some(a) && a.token != "" && a.token != PriorRecord(stored, a.stage).handled
  {
    LoopHandles(specs, stored, p, |specs|, a.stage);
  }

  lemma {:induction false} FiredGrows(specs: seq<StageSpec>, stored: seq<Entry>, p: Pass, n: nat, m: nat)
    requires n <= m <= |specs| <= |p.stages|
    ensures RunStages(specs, stored, p, n).0.fired <= RunStages(specs, stored, p, m).0.fired
  {
    if n < m { FiredGrows(specs, stored, p, n, m - 1); }
  }

  /**
   The annotation is in place, and the pass judges its stage, which has a gate and is not promoted at that revision
   yet.
   */
  ghost predicate Judges(specs: seq<StageSpec>, stored: seq<Entry>, p: Pass, a: Annotation)
    requires |specs| <= |p.stages|
  {
    p.annotation == Some(a) && a.token != "" &&
    exists n: nat | Reaches(specs, stored, p, n) ::
      && specs[n].name == a.stage && specs[n].gate.Some? && p.stages[n].Judged?
      && !AlreadyPromoted(PriorRecord(stored, a.stage), p.stages[n].revision)
  }

  /** Then the token fires unless it is the one handled last. */
  lemma {:induction false} FreshFires(specs: seq<StageSpec>, stored: seq<Entry>, p: Pass, a: Annotation)
    requires |specs| <= |p.stages| && Judges(specs, stored, p, a) && PriorRecord(stored, a.stage).handled != a.token
    ensures a in Fired(specs, stored, p)
  {
    var n: nat :| Reaches(specs, stored, p, n) && specs[n].name == a.stage && specs[n].gate.Some? && p.stages[n].Judged?
                  && !AlreadyPromoted(PriorRecord(stored, a.stage), p.stages[n].revision);
    assert a in RunStages(specs, stored, p, n + 1).0.fired;
    FiredGrows(specs, stored, p, n + 1, |specs|);
  }

  // ---- a revision that was reverted ----

  /**
   A blocked stage that is rolled back, where there is something to restore, records the restored revision beside a
   Blocked state that names the one it was reverted from; it neither goes on nor takes a token.
   */
  lemma {:induction false} RevertRecords(spec: StageSpec, prior: Record, revision: Revision, now: Time, x: Inputs,
          to: Revision, token: Token)
    requires spec.gate.Some? && !RecordedAs(prior, revision, Promoted) && (token == "" || token == prior.handled)
    requires prior.state.Some? ==> prior.state.value.aborted != Some(revision)
    requires if x.restart.Some? then x.restart.value.rollback
             else if x.event.Some? then x.event.value.rollback
             else OverLimit(spec.gate.value, revision, prior, x) && spec.gate.value.analysis.value.rollbackOnFailure
    ensures var s := RunStage(spec, prior, Judged(revision, now, x, Some(to)), token);
      && !s.goesOn && !s.fired && s.record.appliedRevision == to && s.record.handled == prior.handled
      && s.record.state.Some? && s.record.state.value.phase == Blocked
      && s.record.state.value.aborted == Some(revision)
    ensures var s := RunStage(spec, prior, Judged(revision, now, x, None), token);
      && !s.goesOn && s.record.appliedRevision == revision
      && s.record.state.Some? && s.record.state.value.phase == Blocked && s.record.state.value.aborted == None
  {
    BlockedIff(spec.gate.value, revision, prior, now, x.(token := token));
  }

  /** A stage meets the encounters one after the other, each with the token its pass addresses to it. */
  function StageAfter(spec: StageSpec, prior: Record, met: seq<(Encounter, Token)>): StageResult {
    if met == [] then StageResult(prior, false, false)
    else
      var last := met[|met| - 1];
      RunStage(spec, StageAfter(spec, prior, met[..|met| - 1]).record, last.0, last.1)
  }

  /**
   A reverted stage stays where it is through every pass that brings the same revision without a fresh token: its
   record does not change, and no pass goes on behind it, as long as some gate may roll it back. A fresh token
   promotes it at once.
   */
  lemma {:induction false} RevertedStays(spec: StageSpec, prior: Record, revision: Revision,
          met: seq<(Encounter, Token)>)
    requires prior.state.Some? && prior.state.value.phase == Blocked && prior.state.value.aborted == Some(revision)
    requires spec.rollsBack && forall m <- met ::
      (m.0.BudgetHold? || m.0.revision == revision) && (m.1 == "" || m.1 == prior.handled)
    ensures StageAfter(spec, prior, met) == StageResult(prior, false, false)
    ensures forall now: Time, x: Inputs, to: Option<Revision>, token: Token
      | spec.gate.Some? && token != "" && token != prior.handled ::
      var s := RunStage(spec, prior, Judged(revision, now, x, to), token);
      s.goesOn && s.fired && s.record.handled == token && s.record.state.Some? && s.record.state.value.phase == Promoted
  {
    if met != [] {
      var init, last := met[..|met| - 1], met[|met| - 1];
      assert last in met;
      RevertedStays(spec, prior, revision, init);
    }
  }

  // ---- runs ----

  ghost predicate IsRun(specs: seq<StageSpec>, statuses: seq<seq<Entry>>, passes: seq<Pass>) {
    && |statuses| == |passes| + 1
    && forall i: nat | i < |passes| ::
         |specs| <= |passes[i].stages| && Stores(specs, statuses[i], passes[i], statuses[i + 1])
  }

  /** A token once replaced by another one for the same stage does not come back. */
  ghost predicate NeverReused(passes: seq<Pass>) {
    forall i: nat, j: nat, k: nat, a: Annotation, b: Annotation |
      && i < j < k < |passes| && passes[i].annotation == Some(a) && passes[j].annotation == Some(b)
      && a.stage == b.stage && a.token != b.token ::
      passes[k].annotation != Some(a)
  }

  /** Pass i's status was lost, or some stored pass between i and k drops the stage's record. */
  ghost predicate Forgets(specs: seq<StageSpec>, statuses: seq<seq<Entry>>, passes: seq<Pass>, name: string, i: nat,
          k: nat)
    requires IsRun(specs, statuses, passes) && k <= |passes|
  {
    (i < |passes| && !passes[i].stored) || exists j: nat | i < j < k ::
      passes[j].stored && Drops(specs, statuses[j], passes[j], name)
  }

  /** The token advances its stage in some pass behind i up to k. */
  ghost predicate FiresAgain(specs: seq<StageSpec>, statuses: seq<seq<Entry>>, passes: seq<Pass>, a: Annotation,
          i: nat, k: nat)
    requires IsRun(specs, statuses, passes) && k < |passes|
  {
    exists l: nat | i < l <= k :: a in Fired(specs, statuses[l], passes[l])
  }

  ghost predicate Replaced(passes: seq<Pass>, a: Annotation, i: nat, k: nat)
    requires k <= |passes|
  {
    exists j: nat, b: Annotation ::
      i < j < k && passes[j].annotation == Some(b) && b.stage == a.stage && b.token != a.token
  }

  lemma {:induction false} FiredNamed(specs: seq<StageSpec>, stored: seq<Entry>, p: Pass, n: nat, a: Annotation)
    requires n <= |specs| <= |p.stages| && a in RunStages(specs, stored, p, n).0.fired
    ensures Named(specs, a.stage)
  {
    if n > 0 && a in RunStages(specs, stored, p, n - 1).0.fired {
      FiredNamed(specs, stored, p, n - 1, a);
    } else {
      assert specs[n - 1] in specs;
    }
  }

  lemma {:induction false} HandledStays(specs: seq<StageSpec>, statuses: seq<seq<Entry>>, passes: seq<Pass>,
          a: Annotation,
          i: nat, k: nat)
    requires UniqueStages(specs) && IsRun(specs, statuses, passes) && Named(specs, a.stage)
    requires i < k <= |passes| && !Forgets(specs, statuses, passes, a.stage, i, k)
    requires PriorRecord(statuses[i + 1], a.stage).handled == a.token
    ensures PriorRecord(statuses[k], a.stage).handled == a.token || Replaced(passes, a, i, k)
    decreases k
  {
    if k > i + 1 {
      HandledStays(specs, statuses, passes, a, i, k - 1);
      if passes[k - 1].stored { PassHandles(specs, statuses[k - 1], passes[k - 1], statuses[k], a.stage); }
      var after := PriorRecord(statuses[k], a.stage).handled;
      if PriorRecord(statuses[k - 1], a.stage).handled == a.token && after != a.token {
        assert passes[k - 1].annotation == Some(Annotation(a.stage, after));
      }
    }
  }

  /**
   Across any run of passes, a promote token that is never reused advances its stage a second time only when the
   status of the pass it fired in was lost, or behind a pass that dropped the stage's record: one in which the
   stage failed, or was still becoming ready.
   */
  lemma {:induction false} TokenFiresAtMostOnce(specs: seq<StageSpec>, statuses: seq<seq<Entry>>, passes: seq<Pass>,
          a: Annotation, i: nat, k: nat)
    requires UniqueStages(specs) && IsRun(specs, statuses, passes) && NeverReused(passes) && i < k < |passes|
    requires a in Fired(specs, statuses[i], passes[i]) && !Forgets(specs, statuses, passes, a.stage, i, k)
    ensures a !in Fired(specs, statuses[k], passes[k])
  {
    FiredNamed(specs, statuses[i], passes[i], |specs|, a);
    PassHandles(specs, statuses[i], passes[i], statuses[i + 1], a.stage);
    HandledStays(specs, statuses, passes, a, i, k);
    if a in Fired(specs, statuses[k], passes[k]) { FiredFresh(specs, statuses[k], passes[k], a); }
  }

  /** A token that is not the one handled last stays so until it fires. */
  lemma {:induction false} FreshStays(specs: seq<StageSpec>, statuses: seq<seq<Entry>>, passes: seq<Pass>,
          a: Annotation,
          j: nat, k: nat)
    requires UniqueStages(specs) && IsRun(specs, statuses, passes) && Named(specs, a.stage) && a.token != ""
    requires j <= k < |passes| && PriorRecord(statuses[j], a.stage).handled != a.token
    requires forall l: nat | j <= l < k :: a !in Fired(specs, statuses[l], passes[l])
    ensures PriorRecord(statuses[k], a.stage).handled != a.token
    decreases k
  {
    if k > j {
      FreshStays(specs, statuses, passes, a, j, k - 1);
      if passes[k - 1].stored { PassHandles(specs, statuses[k - 1], passes[k - 1], statuses[k], a.stage); }
    }
  }

  lemma {:induction false} ForgottenFires(specs: seq<StageSpec>, statuses: seq<seq<Entry>>, passes: seq<Pass>,
          a: Annotation, i: nat, k: nat)
    requires UniqueStages(specs) && IsRun(specs, statuses, passes) && i < k < |passes|
    requires a in Fired(specs, statuses[i], passes[i]) && Judges(specs, statuses[k], passes[k], a)
    requires Forgets(specs, statuses, passes, a.stage, i, k)
    ensures FiresAgain(specs, statuses, passes, a, i, k)
  {
    FiredNamed(specs, statuses[i], passes[i], |specs|, a);
    FiredFresh(specs, statuses[i], passes[i], a);
    var j: nat := i;
    if passes[i].stored {
      j :| i < j < k && passes[j].stored && Drops(specs, statuses[j], passes[j], a.stage);
      PassHandles(specs, statuses[j], passes[j], statuses[j + 1], a.stage);
    }
    if forall l: nat | i < l < k :: a !in Fired(specs, statuses[l], passes[l]) {
      FreshStays(specs, statuses, passes, a, j + 1, k);
      FreshFires(specs, statuses[k], passes[k], a);
    }
  }

  /**
   A token that fired at i, with its annotation still in place when a later pass k judges the stage at a revision it
   is not promoted at, fires again by then if and only if pass i's status was lost or some pass in between dropped
   the stage's record.
   */
  lemma {:induction false} TokenRefiresIff(specs: seq<StageSpec>, statuses: seq<seq<Entry>>, passes: seq<Pass>,
          a: Annotation, i: nat, k: nat)
    requires UniqueStages(specs) && IsRun(specs, statuses, passes) && NeverReused(passes) && i < k < |passes|
    requires a in Fired(specs, statuses[i], passes[i]) && Judges(specs, statuses[k], passes[k], a)
    ensures FiresAgain(specs, statuses, passes, a, i, k) <==> Forgets(specs, statuses, passes, a.stage, i, k)
  {
    if Forgets(specs, statuses, passes, a.stage, i, k) {
      ForgottenFires(specs, statuses, passes, a, i, k);
    } else {
      forall l: nat | i < l <= k ensures a !in Fired(specs, statuses[l], passes[l]) {
        TokenFiresAtMostOnce(specs, statuses, passes, a, i, l);
      }
    }
  }

  // ---- a token that fires twice ----

  /** A lone stage with a soak of one minute, and the token "t" addressed to it throughout. */
  const ONE_STAGE := [StageSpec("app", Some(Gate(60, None, None, false)), false)]
  const PROMOTE := Annotation("app", "t")
  const QUIET := Inputs("", Verdict(false, false), false, None, None)

  function PassOf(e: Encounter): Pass {
    Pass(Some(PROMOTE), [e], true)
  }

  lemma {:induction false} OneStagePass(stored: seq<Entry>, e: Encounter, after: seq<Entry>)
    requires var s := RunStage(ONE_STAGE[0], PriorRecord(stored, "app"), e, "t");
      after == [Entry("app", s.record)]
    ensures Stores(ONE_STAGE, stored, PassOf(e), after)
    ensures PROMOTE in Fired(ONE_STAGE, stored, PassOf(e)) <==>
      RunStage(ONE_STAGE[0], PriorRecord(stored, "app"), e, "t").fired
    ensures |after| == 1 && PriorRecord(after, "app") == after[0].record
  {
    var s := RunStage(ONE_STAGE[0], PriorRecord(stored, "app"), e, "t");
    var p := PassOf(e);
    assert RunStages(ONE_STAGE, stored, p, 0) == (LoopResult([], {}), true);
    assert RunStages(ONE_STAGE, stored, p, 1) ==
      (LoopResult([] + after, {} + if s.fired then {PROMOTE} else {}), s.goesOn);
    FindLast([], after[0], "app");
    assert [] + after == after && [] + [after[0]] == after;
    forall name: string ensures Find(after, name) == MergedAt(ONE_STAGE, stored, after, name) {
      FindLast([], after[0], name);
      assert Named(ONE_STAGE, name) <==> ONE_STAGE[0].name == name;
    }
  }

  /**
   A promote token ends the soak of revision "a". Revision "b" is slow to become ready in its first pass, and the
   annotation, still in place, promotes it in the next one without any soak.
   */
  lemma {:induction false} SlowRolloutRefires() returns (statuses: seq<seq<Entry>>, passes: seq<Pass>)
    ensures IsRun(ONE_STAGE, statuses, passes) && |passes| == 3 && statuses[0] == []
    ensures passes == [PassOf(Judged("a", 0, QUIET, None)), PassOf(Dropped("b")), PassOf(Judged("b", 5, QUIET, None))]
    ensures PROMOTE in Fired(ONE_STAGE, statuses[0], passes[0]) && PROMOTE in Fired(ONE_STAGE, statuses[2], passes[2])
  {
    var first := Record("a", Some(State(Promoted, Some(0), None, 0, None)), "t");
    var last := Record("b", Some(State(Promoted, Some(5), None, 0, None)), "t");
    var a, b, c := Judged("a", 0, QUIET, None), Dropped("b"), Judged("b", 5, QUIET, None);
    passes := [PassOf(a), PassOf(b), PassOf(c)];
    statuses := [[], [Entry("app", first)], [Entry("app", Record("b", None, ""))], [Entry("app", last)]];
    OneStagePass([], a, statuses[1]);
    OneStagePass(statuses[1], b, statuses[2]);
    OneStagePass(statuses[2], c, statuses[3]);
  }
}
