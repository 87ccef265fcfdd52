/**
 The three ledgers that gate a stage's actions, the passes that carry them from one reconcile to the
 next, and the preview that predicts what the next pass will skip.
 */
module ActionLedgers {
  import opened Wrappers
  import opened Strings
  import opened LifetimeLedger

  /** The ledger part of a stage's persisted status; the default value stands for a stage without one. */
  datatype StageStatus = StageStatus(executed: seq<string>, ledgerRevision: string, versioned: seq<string>,
    ledgerVersion: string)

  const NO_STATUS := StageStatus([], "", [], "")

  /** What the pass resolved: the pinned revision and, on a versioned StageSet, the desired and deployed versions. */
  datatype Plan = Plan(revision: string, versioned: bool, desired: string, current: string)

  /** The first adoption of a versioned StageSet records the version without running anything for it. */
  predicate Baselines(p: Plan) {
    p.versioned && p.current == ""
  }

  function Actions(stage: Stage): seq<Action> {
    stage.pre + stage.post
  }

  function Names(acts: seq<Action>): seq<string> {
    seq(|acts|, i requires 0 <= i < |acts| => acts[i].name)
  }

  /** Action names are unique over a stage's pre, post and onFailure actions. */
  predicate UniqueNames(stage: Stage) {
    Distinct(Names(Actions(stage)) + stage.onFailure)
  }

  /** The last pre or post action of that name, as a map filled in list order holds it; None for any other name. */
  function LastNamed(acts: seq<Action>, name: string): Option<Action> {
    if acts == [] then None
    else if acts[|acts| - 1].name == name then Some(acts[|acts| - 1])
    else LastNamed(acts[..|acts| - 1], name)
  }

  function ScopeOf(stage: Stage, name: string): Option<Scope> {
    var a := LastNamed(Actions(stage), name);
    if a.Some? then Some(a.value.scope) else None
  }

  function AnchorOf(stage: Stage, name: string): Option<string> {
    var a := LastNamed(Actions(stage), name);
    if a.Some? then a.value.anchor else None
  }

  lemma {:induction false} NamedOnce(acts: seq<Action>, a: Action)
    requires Distinct(Names(acts)) && a in acts
    ensures LastNamed(acts, a.name) == Some(a)
  {
    var init, last := acts[..|acts| - 1], acts[|acts| - 1];
    assert acts == init + [last];
    var i :| 0 <= i < |acts| && acts[i] == a;
    assert Names(acts)[i] == a.name && Names(acts)[|acts| - 1] == last.name;
    if i < |acts| - 1 {
      forall k, l | 0 <= k < l < |init| ensures Names(init)[k] != Names(init)[l] {
        assert Names(acts)[k] == Names(init)[k] && Names(acts)[l] == Names(init)[l];
      }
      assert init[i] == a;
      NamedOnce(init, a);
    }
  }

  lemma {:induction false} NamedFound(acts: seq<Action>, name: string)
    ensures LastNamed(acts, name).Some? <==> name in Names(acts)
    ensures LastNamed(acts, name).Some? ==>
      LastNamed(acts, name).value in acts && LastNamed(acts, name).value.name == name
  {
    if acts != [] {
      var init, last := acts[..|acts| - 1], acts[|acts| - 1];
      NamedFound(init, name);
      assert acts == init + [last];
      assert Names(acts) == Names(init) + [last.name];
    }
  }

  // ---- the ledger of one pass through a stage ----

  datatype Ledger = Ledger(revision: string, executed: seq<string>, version: string, versioned: seq<string>,
    lifetimeDone: seq<string>)

  predicate Done(l: Ledger, name: string) {
    name in l.executed || name in l.versioned || name in l.lifetimeDone
  }

  function VersionScopedNames(acts: seq<Action>): seq<string> {
    if acts == [] then []
    else
      var last := acts[|acts| - 1];
      VersionScopedNames(acts[..|acts| - 1]) + if last.scope == Version then [last.name] else []
  }

  lemma {:induction false} VersionScopedIs(acts: seq<Action>, name: string)
    ensures name in VersionScopedNames(acts) <==> exists a <- acts :: a.name == name && a.scope == Version
  {
    if acts != [] {
      VersionScopedIs(acts[..|acts| - 1], name);
      assert acts == acts[..|acts| - 1] + [acts[|acts| - 1]];
    }
  }

  /** Each ledger carries forward only under its own key; a baseline counts every Version-scoped action as done. */
  function Assembled(stage: Stage, prior: StageStatus, p: Plan, lifetimeDone: seq<string>): Ledger {
    Ledger(p.revision,
           if prior.ledgerRevision == p.revision then prior.executed else [],
           if p.versioned then p.desired else "",
           (if p.versioned && prior.ledgerVersion == p.desired then prior.versioned else [])
             + (if Baselines(p) then VersionScopedNames(Actions(stage)) else []),
           lifetimeDone)
  }

  function Stamp(l: Ledger): StageStatus {
    StageStatus(l.executed, l.revision, l.versioned, l.version)
  }

  /** The mutable ledger the stage loop threads through a stage. */
  class ActionLedger {
    var revision: string
    var executed: seq<string>
    var version: string
    var versioned: seq<string>
    var lifetimeDone: seq<string>

    ghost function View(): Ledger
      reads this
    {
      Ledger(revision, executed, version, versioned, lifetimeDone)
    }

    constructor (stage: Stage, prior: StageStatus, p: Plan, lifetimeDone: seq<string>)
      ensures View() == Assembled(stage, prior, p, lifetimeDone)
    {
      revision, version, executed, versioned := p.revision, "", [], [];
      this.lifetimeDone := lifetimeDone;
      if p.versioned { version := p.desired; }
      if prior.ledgerRevision == p.revision { executed := prior.executed; }
      if p.versioned && prior.ledgerVersion == p.desired { versioned := prior.versioned; }
      if Baselines(p) { versioned := versioned + VersionScopedNames(Actions(stage)); }
    }

    method DoneSet() returns (done: set<string>)
      ensures forall n :: n in done <==> Done(View(), n)
    {
      done := {};
      for i := 0 to |executed|
        invariant forall n :: n in done <==> n in executed[..i]
      {
        assert executed[..i + 1] == executed[..i] + [executed[i]];
        done := done + {executed[i]};
      }
      assert executed[..|executed|] == executed;
      for i := 0 to |versioned|
        invariant forall n :: n in done <==> n in executed || n in versioned[..i]
      {
        assert versioned[..i + 1] == versioned[..i] + [versioned[i]];
        done := done + {versioned[i]};
      }
      assert versioned[..|versioned|] == versioned;
      for i := 0 to |lifetimeDone|
        invariant forall n :: n in done <==> n in executed || n in versioned || n in lifetimeDone[..i]
      {
        assert lifetimeDone[..i + 1] == lifetimeDone[..i] + [lifetimeDone[i]];
        done := done + {lifetimeDone[i]};
      }
      assert lifetimeDone[..|lifetimeDone|] == lifetimeDone;
    }

    /**
     Routes a completed action into the ledger its scope selects; a Lifetime completion goes to the StageLedger
     instead.
     */
    method Record(stage: Stage, name: string)
      modifies this
      ensures View() == RecordedIn(stage, old(View()), name)
    {
      match ScopeOf(stage, name)
      case Some(Lifetime) =>
      case Some(Version) => versioned := versioned + [name];
      case _ => executed := executed + [name];
    }
  }

  function RecordedIn(stage: Stage, l: Ledger, name: string): Ledger {
    match ScopeOf(stage, name)
    case Some(Lifetime) => l
    case Some(Version) => l.(versioned := l.versioned + [name])
    case _ => l.(executed := l.executed + [name])
  }

  // ---- one pass through a stage ----

  /** The stage's persisted status and the StageLedger's completions. */
  datatype State = State(status: StageStatus, completions: seq<Completion>)

  /**
   Whether a pass gets to the stage's actions. It may fail before the stage loop, which stamps the first stage with
   empty ledgers; end without a word on this stage, with the baseline promoted or not; or fail at the stage before
   any of its actions, with the gone completions forgotten (a failing migration) or not (no connection, or a failing
   update of the StageLedger).
   */
  datatype Reach = Enters | Wiped | Elsewhere(promoted: bool) | Barred(forgotten: bool)

  /**
   How far a pass gets there. Of the pre-actions still to do `preOk` succeed and are recorded; if one then fails the
   pass ends there. Otherwise the stage is applied, which may fail; then the post-actions run likewise. On a
   failure behind the pre-actions up to `failureOk` onFailure actions run. `lost` says that the failing action
   took effect but its Lifetime completion could not be recorded. `ends` holds the witnesses read on recording.
   `stored` says whether the stage's status reaches the API server; completions are stored as they are recorded.
   */
  datatype Pass = Pass(
    plan: Plan, baseline: seq<Ref>, world: World,
    preOk: nat, applied: bool, postOk: nat, failureOk: nat,
    lost: bool, ends: World, stored: bool, reach: Reach)

  function Undone(names: seq<string>, l: Ledger): seq<string> {
    if names == [] then [] else (if Done(l, names[0]) then [] else [names[0]]) + Undone(names[1..], l)
  }

  datatype Progress = Progress(l: Ledger, cs: seq<Completion>, ran: seq<string>, ok: bool)

  function RecordOne(stage: Stage, ends: World, g: Progress, name: string): Progress {
    if ScopeOf(stage, name) == Some(Lifetime) then
      var c := Completion(stage.name, name, Executed, WitnessOf(AnchorOf(stage, name), ends));
      g.(cs := Added(g.cs, c), ran := g.ran + [name])
    else g.(l := RecordedIn(stage, g.l, name), ran := g.ran + [name])
  }

  function RecordAll(stage: Stage, ends: World, g: Progress, names: seq<string>): Progress {
    if names == [] then g
    else RecordOne(stage, ends, RecordAll(stage, ends, g, names[..|names| - 1]), names[|names| - 1])
  }

  /** Runs a list against the ledger as it stands: `n` of the actions not done succeed before one fails. */
  function RunList(stage: Stage, ends: World, g: Progress, names: seq<string>, n: nat, lost: bool): Progress {
    var todo := Undone(names, g.l);
    if |todo| <= n then RecordAll(stage, ends, g, todo)
    else
      var r := RecordAll(stage, ends, g, todo[..n]);
      r.(ok := false, ran := r.ran + if lost && ScopeOf(stage, todo[n]) == Some(Lifetime) then [todo[n]] else [])
  }

  /** The actions done as the pass enters the stage, after promoting the baseline and reading the witnesses. */
  function Entered(specs: seq<Stage>, stage: Stage, s: State, p: Pass): Progress {
    var cs := Promoted(specs, s.completions, p.baseline);
    var done := GateOf(cs, stage.name, p.world).done;
    Progress(Assembled(stage, s.status, p.plan, done), Invalidated(cs, stage.name, p.world), [], true)
  }

  function OnFailure(stage: Stage, g: Progress, p: Pass): Progress {
    RunList(stage, p.ends, g, stage.onFailure, p.failureOk, false)
  }

  function RunStage(specs: seq<Stage>, stage: Stage, s: State, p: Pass): Progress {
    var pre := RunList(stage, p.ends, Entered(specs, stage, s, p), Names(stage.pre), p.preOk, p.lost);
    if !pre.ok then pre
    else if !p.applied then OnFailure(stage, pre, p)
    else
      var post := RunList(stage, p.ends, pre, Names(stage.post), p.postOk, p.lost);
      if post.ok then post else OnFailure(stage, post, p)
  }

  /** A stored pass that reaches the stage leaves the ledgers it carried and filled; a lost one only completions. */
  function After(specs: seq<Stage>, stage: Stage, s: State, p: Pass): State {
    match p.reach
    case Enters =>
      var g := RunStage(specs, stage, s, p);
      State(if p.stored then Stamp(g.l) else s.status, g.cs)
    case Wiped => State(if p.stored then NO_STATUS else s.status, s.completions)
    case Elsewhere(promoted) =>
      s.(completions := if promoted then Promoted(specs, s.completions, p.baseline) else s.completions)
    case Barred(forgotten) =>
      var g := Entered(specs, stage, s, p);
      State(if p.stored then Stamp(g.l) else s.status,
            if forgotten then g.cs else Promoted(specs, s.completions, p.baseline))
  }

  function Ran(specs: seq<Stage>, stage: Stage, s: State, p: Pass): seq<string> {
    if p.reach.Enters? then RunStage(specs, stage, s, p).ran else []
  }

  // ---- what running a list does ----

  lemma {:induction false} UndoneIs(names: seq<string>, l: Ledger, x: string)
    ensures x in Undone(names, l) <==> x in names && !Done(l, x)
  {
    if names != [] {
      UndoneIs(names[1..], l, x);
      assert names == [names[0]] + names[1..];
    }
  }

  lemma {:induction false} UndoneDistinct(names: seq<string>, l: Ledger)
    requires Distinct(names)
    ensures Distinct(Undone(names, l))
  {
    if names != [] {
      forall i, j | 0 <= i < j < |names[1..]| ensures names[1..][i] != names[1..][j] {
        assert names[1..][i] == names[i + 1] && names[1..][j] == names[j + 1];
      }
      UndoneDistinct(names[1..], l);
      var rest := Undone(names[1..], l);
      forall i | 0 <= i < |rest| ensures rest[i] != names[0] {
        UndoneIs(names[1..], l, rest[i]);
        var k :| 0 <= k < |names[1..]| && names[1..][k] == rest[i];
        assert names[k + 1] == rest[i];
      }
    }
  }

  /** The later ledger knows everything the earlier one did, under the same keys. */
  predicate Extends(l: Ledger, l': Ledger) {
    l'.revision == l.revision && l'.version == l.version && l'.lifetimeDone == l.lifetimeDone
    && l.executed <= l'.executed && l.versioned <= l'.versioned
  }

  /** x is in the run ledger its scope selects. */
  predicate InOwnLedger(stage: Stage, l: Ledger, x: string) {
    match ScopeOf(stage, x)
    case Some(Lifetime) => true
    case Some(Version) => x in l.versioned
    case _ => x in l.executed
  }

  lemma {:induction false} ExtendsBoth(stage: Stage, a: Ledger, b: Ledger, c: Ledger, names: seq<string>)
    requires Extends(a, b) && Extends(b, c) && forall x <- names :: InOwnLedger(stage, b, x)
    ensures Extends(a, c) && forall x <- names :: InOwnLedger(stage, c, x)
  {
  }

  lemma {:induction false} RecordOneKeeps(stage: Stage, ends: World, g: Progress, x: string)
    ensures var r := RecordOne(stage, ends, g, x);
      r.ok == g.ok && r.ran == g.ran + [x] && Extends(g.l, r.l) && InOwnLedger(stage, r.l, x)
  {
  }

  lemma {:induction false} RecordAllKeeps(stage: Stage, ends: World, g: Progress, names: seq<string>)
    ensures var r := RecordAll(stage, ends, g, names);
      && r.ok == g.ok && r.ran == g.ran + names && Extends(g.l, r.l)
      && (forall x <- names :: InOwnLedger(stage, r.l, x))
  {
    if names != [] {
      var init, last := names[..|names| - 1], names[|names| - 1];
      var before := RecordAll(stage, ends, g, init);
      RecordAllKeeps(stage, ends, g, init);
      RecordOneKeeps(stage, ends, before, last);
      assert names == init + [last];
      assert before.ran + [last] == g.ran + names;
      ExtendsBoth(stage, g.l, before.l, RecordAll(stage, ends, g, names).l, init);
    }
  }

  /** A list runs the first few of the actions still to do, in order. */
  lemma {:induction false} RunListIs(stage: Stage, ends: World, g: Progress, names: seq<string>, n: nat, lost: bool)
    returns (k: nat)
    ensures var todo := Undone(names, g.l);
      var r := RunList(stage, ends, g, names, n, lost);
      && k <= |todo| && r.ran == g.ran + todo[..k] && Extends(g.l, r.l)
      && forall x <- todo[..k] :: InOwnLedger(stage, r.l, x)
  {
    var todo := Undone(names, g.l);
    if |todo| <= n {
      k := |todo|;
      assert todo[..k] == todo;
      RecordAllKeeps(stage, ends, g, todo);
    } else {
      RecordAllKeeps(stage, ends, g, todo[..n]);
      k := if lost && ScopeOf(stage, todo[n]) == Some(Lifetime) then n + 1 else n;
      assert todo[..n + 1] == todo[..n] + [todo[n]];
    }
  }

  lemma {:induction false} PrefixDistinct(s: seq<string>, k: nat)
    requires Distinct(s) && k <= |s|
    ensures Distinct(s[..k])
  {
  }

  /** A list ran only actions that were not done, each at most once, and its run ledgers know each of them. */
  lemma {:induction false} RunListKeeps(stage: Stage, ends: World, g: Progress, names: seq<string>, n: nat, lost: bool)
    requires Distinct(names)
    ensures var r := RunList(stage, ends, g, names, n, lost);
      && Extends(g.l, r.l) && g.ran <= r.ran
      && Distinct(r.ran[|g.ran|..])
      && (forall x <- r.ran[|g.ran|..] :: x in names && !Done(g.l, x) && InOwnLedger(stage, r.l, x))
  {
    var todo := Undone(names, g.l);
    var k := RunListIs(stage, ends, g, names, n, lost);
    UndoneDistinct(names, g.l);
    PrefixDistinct(todo, k);
    assert (g.ran + todo[..k])[|g.ran|..] == todo[..k];
    forall x <- todo[..k] ensures x in names && !Done(g.l, x) { UndoneIs(names, g.l, x); }
  }

  /** What a whole pass ran: no action that was done on entry, and every one is in its ledger afterwards. */
  ghost predicate PassRan(specs: seq<Stage>, stage: Stage, s: State, p: Pass, g: Progress) {
    && Extends(Entered(specs, stage, s, p).l, g.l)
    && Distinct(g.ran)
    && forall x <- g.ran :: !Done(Entered(specs, stage, s, p).l, x) && InOwnLedger(stage, g.l, x)
  }

  lemma {:induction false} NamesApart(stage: Stage)
    requires UniqueNames(stage)
    ensures Distinct(Names(stage.pre)) && Distinct(Names(stage.post)) && Distinct(stage.onFailure)
    ensures forall x <- Names(stage.pre) :: x !in Names(stage.post) && x !in stage.onFailure
    ensures forall x <- Names(stage.post) :: x !in stage.onFailure
    ensures Distinct(Names(Actions(stage)))
    ensures forall x <- stage.onFailure :: ScopeOf(stage, x) == None
  {
    var pre, post, fail := Names(stage.pre), Names(stage.post), stage.onFailure;
    var all := Names(Actions(stage)) + fail;
    assert Names(Actions(stage)) == pre + post;
    assert forall i | 0 <= i < |pre| :: all[i] == pre[i];
    assert forall i | 0 <= i < |post| :: all[|pre| + i] == post[i];
    assert forall i | 0 <= i < |fail| :: all[|pre| + |post| + i] == fail[i];
    assert forall i | 0 <= i < |pre + post| :: all[i] == (pre + post)[i];
    forall x <- fail ensures ScopeOf(stage, x) == None {
      NamedFound(Actions(stage), x);
    }
  }

  lemma {:induction false} ListsCompose(stage: Stage, a: Ledger, ran: seq<string>, b: Ledger, more: seq<string>,
          names: seq<string>, others: seq<string>, start: Ledger)
    requires Extends(start, a) && Extends(a, b) && ran <= more && Distinct(ran) && Distinct(more[|ran|..])
    requires forall x <- ran :: x in names && !Done(start, x) && InOwnLedger(stage, a, x)
    requires forall x <- more[|ran|..] :: x in others && !Done(a, x) && InOwnLedger(stage, b, x)
    requires forall x <- names :: x !in others
    ensures Extends(start, b) && Distinct(more)
    ensures forall x <- more :: (x in names || x in others) && !Done(start, x) && InOwnLedger(stage, b, x)
  {
    assert more == ran + more[|ran|..];
    assert forall x <- ran :: InOwnLedger(stage, b, x);
    forall x <- more ensures (x in names || x in others) && !Done(start, x) && InOwnLedger(stage, b, x) {
      if x !in ran { assert x in more[|ran|..]; }
    }
    forall i, j | 0 <= i < j < |more| ensures more[i] != more[j] {
      if j < |ran| {
        assert more[i] == ran[i] && more[j] == ran[j];
      } else if i < |ran| {
        assert more[i] == ran[i] && more[i] in ran;
        assert more[j] == more[|ran|..][j - |ran|] && more[j] in more[|ran|..];
      } else {
        assert more[i] == more[|ran|..][i - |ran|] && more[j] == more[|ran|..][j - |ran|];
      }
    }
  }

  lemma {:induction false} RunStageRan(specs: seq<Stage>, stage: Stage, s: State, p: Pass)
    requires UniqueNames(stage)
    ensures PassRan(specs, stage, s, p, RunStage(specs, stage, s, p))
  {
    NamesApart(stage);
    var g0 := Entered(specs, stage, s, p);
    var names := Names(stage.pre);
    RunListKeeps(stage, p.ends, g0, names, p.preOk, p.lost);
    var pre := RunList(stage, p.ends, g0, names, p.preOk, p.lost);
    assert pre.ran[|g0.ran|..] == pre.ran;
    if pre.ok && !p.applied {
      RunListKeeps(stage, p.ends, pre, stage.onFailure, p.failureOk, false);
      var g := OnFailure(stage, pre, p);
      ListsCompose(stage, g0.l, [], pre.l, pre.ran, [], names, g0.l);
      ListsCompose(stage, pre.l, pre.ran, g.l, g.ran, names, stage.onFailure, g0.l);
    } else if pre.ok {
      RunListKeeps(stage, p.ends, pre, Names(stage.post), p.postOk, p.lost);
      var post := RunList(stage, p.ends, pre, Names(stage.post), p.postOk, p.lost);
      ListsCompose(stage, pre.l, pre.ran, post.l, post.ran, names, Names(stage.post), g0.l);
      if !post.ok {
        RunListKeeps(stage, p.ends, post, stage.onFailure, p.failureOk, false);
        var g := OnFailure(stage, post, p);
        ListsCompose(stage, post.l, post.ran, g.l, g.ran, names + Names(stage.post), stage.onFailure, g0.l);
      }
    }
  }

  // ---- runs of passes through one stage ----

  ghost predicate IsRun(specs: seq<Stage>, stage: Stage, states: seq<State>, passes: seq<Pass>) {
    && |states| == |passes| + 1
    && forall i: nat | i < |passes| :: states[i + 1] == After(specs, stage, states[i], passes[i])
  }

  /** Both plans enter the stage at one revision, or at one version for a Version-scoped action. */
  predicate SameKey(stage: Stage, x: string, a: Plan, b: Plan) {
    if ScopeOf(stage, x) == Some(Version) then a.versioned && b.versioned && a.desired == b.desired
    else a.revision == b.revision
  }

  /** So do all the passes i..j that get to the stage. */
  predicate Stretch(stage: Stage, x: string, passes: seq<Pass>, i: nat, j: nat)
    requires i <= j < |passes|
  {
    forall k: nat | i <= k <= j && Arrives(passes[k]) :: SameKey(stage, x, passes[i].plan, passes[k].plan)
  }

  predicate Arrives(p: Pass) {
    p.reach.Enters? || p.reach.Barred?
  }

  /** The status holds x under the key of the pass that ran it. */
  predicate Held(stage: Stage, st: StageStatus, p: Plan, x: string) {
    if ScopeOf(stage, x) == Some(Version)
    then x in st.versioned && st.ledgerVersion == (if p.versioned then p.desired else "")
    else x in st.executed && st.ledgerRevision == p.revision
  }

  /** The pass stores empty ledgers for the stage. */
  predicate Wipes(p: Pass) {
    p.stored && p.reach.Wiped?
  }

  lemma {:induction false} StampHolds(stage: Stage, start: Ledger, l: Ledger, p: Plan, x: string)
    requires Extends(start, l) && start.revision == p.revision &&
      start.version == (if p.versioned then p.desired else "")
    requires InOwnLedger(stage, l, x) && ScopeOf(stage, x) != Some(Lifetime)
    ensures Held(stage, Stamp(l), p, x)
  {
  }

  lemma {:induction false} RanIsHeld(specs: seq<Stage>, stage: Stage, s: State, p: Pass, x: string)
    requires UniqueNames(stage) && p.stored && x in Ran(specs, stage, s, p) && ScopeOf(stage, x) != Some(Lifetime)
    ensures Held(stage, After(specs, stage, s, p).status, p.plan, x)
  {
    var g := RunStage(specs, stage, s, p);
    assert PassRan(specs, stage, s, p, g) by { RunStageRan(specs, stage, s, p); }
    StampHolds(stage, Entered(specs, stage, s, p).l, g.l, p.plan, x);
  }

  /** What is held under the key of a pass is done for it, and still held behind it. */
  lemma {:induction false} HeldCarries(specs: seq<Stage>, stage: Stage, s: State, p: Pass, plan: Plan, x: string)
    requires UniqueNames(stage) && ScopeOf(stage, x) != Some(Lifetime) && Held(stage, s.status, plan, x)
    requires (Arrives(p) ==> SameKey(stage, x, plan, p.plan)) && !Wipes(p)
    requires ScopeOf(stage, x) == Some(Version) ==> plan.versioned
    ensures x !in Ran(specs, stage, s, p)
    ensures Held(stage, After(specs, stage, s, p).status, plan, x)
  {
    if Arrives(p) {
      assert Done(Entered(specs, stage, s, p).l, x);
      RunStageRan(specs, stage, s, p);
    }
  }

  lemma {:induction false} KeyAgrees(stage: Stage, x: string, passes: seq<Pass>, i: nat, j: nat)
    requires i <= j < |passes| && passes[i].reach.Enters? && Stretch(stage, x, passes, i, j)
    ensures Arrives(passes[j]) ==> SameKey(stage, x, passes[i].plan, passes[j].plan)
    ensures ScopeOf(stage, x) == Some(Version) ==> passes[i].plan.versioned
  {
    assert Arrives(passes[i]);
  }

  lemma {:induction false} HeldFirst(specs: seq<Stage>, stage: Stage, s: State, p: Pass, x: string, s': State)
    requires UniqueNames(stage) && p.stored && x in Ran(specs, stage, s, p) && ScopeOf(stage, x) != Some(Lifetime)
    requires s' == After(specs, stage, s, p)
    ensures Held(stage, s'.status, p.plan, x)
  {
    RanIsHeld(specs, stage, s, p, x);
  }

  lemma {:induction false} HeldNext(specs: seq<Stage>, stage: Stage, s: State, p: Pass, plan: Plan, x: string,
          s': State)
    requires UniqueNames(stage) && ScopeOf(stage, x) != Some(Lifetime) && Held(stage, s.status, plan, x)
    requires (Arrives(p) ==> SameKey(stage, x, plan, p.plan)) && !Wipes(p)
    requires ScopeOf(stage, x) == Some(Version) ==> plan.versioned
    requires s' == After(specs, stage, s, p)
    ensures Held(stage, s'.status, plan, x)
  {
    HeldCarries(specs, stage, s, p, plan, x);
  }

  lemma {:induction false} HeldStep(specs: seq<Stage>, stage: Stage, states: seq<State>, passes: seq<Pass>, i: nat,
          k: nat, x: string)
    requires UniqueNames(stage) && IsRun(specs, stage, states, passes) && i < k < |passes|
    requires passes[i].reach.Enters? && ScopeOf(stage, x) != Some(Lifetime)
    requires Stretch(stage, x, passes, i, k) && !Wipes(passes[k])
    ensures Held(stage, states[k].status, passes[i].plan, x) ==> Held(stage, states[k + 1].status, passes[i].plan, x)
  {
    KeyAgrees(stage, x, passes, i, k);
    if Held(stage, states[k].status, passes[i].plan, x) {
      HeldNext(specs, stage, states[k], passes[k], passes[i].plan, x, states[k + 1]);
    }
  }

  lemma {:induction false} HeldChain(stage: Stage, states: seq<State>, plan: Plan, x: string, i: nat, j: nat)
    requires i < j < |states| && Held(stage, states[i + 1].status, plan, x)
    requires forall k: nat | i < k < j ::
      Held(stage, states[k].status, plan, x) ==> Held(stage, states[k + 1].status, plan, x)
    ensures Held(stage, states[j].status, plan, x)
    decreases j
  {
    if j > i + 1 { HeldChain(stage, states, plan, x, i, j - 1); }
  }

  lemma {:induction false} HeldStays(specs: seq<Stage>, stage: Stage, states: seq<State>, passes: seq<Pass>, i: nat,
          j: nat, x: string)
    requires UniqueNames(stage) && IsRun(specs, stage, states, passes) && i < j < |passes|
    requires x in Ran(specs, stage, states[i], passes[i]) && ScopeOf(stage, x) != Some(Lifetime)
    requires passes[i].stored && Stretch(stage, x, passes, i, j)
    requires forall k: nat | i < k < j :: !Wipes(passes[k])
    ensures Held(stage, states[j].status, passes[i].plan, x)
  {
    HeldFirst(specs, stage, states[i], passes[i], x, states[i + 1]);
    forall k: nat | i < k < j { HeldStep(specs, stage, states, passes, i, k, x); }
    HeldChain(stage, states, passes[i].plan, x, i, j);
  }

  /**
   Over any run of passes through a stage, whatever fails in each, no pass runs an action twice; and in a stretch of
   passes at one revision, or for a Version-scoped action at one version however the revisions change under it, an
   action that ran in a stored pass runs in no later one, until a pass that fails before the stage loop wipes the
   ledgers. Passes in between may lose their status.
   */
  lemma {:induction false} RunsOncePerStretch(specs: seq<Stage>, stage: Stage, states: seq<State>, passes: seq<Pass>,
          i: nat, j: nat, x: string)
    requires UniqueNames(stage) && IsRun(specs, stage, states, passes) && i < j < |passes|
    requires x in Ran(specs, stage, states[i], passes[i]) && ScopeOf(stage, x) != Some(Lifetime)
    requires passes[i].stored && Stretch(stage, x, passes, i, j)
    requires forall k: nat | i < k < j :: !Wipes(passes[k])
    ensures Distinct(Ran(specs, stage, states[i], passes[i]))
    ensures x !in Ran(specs, stage, states[j], passes[j])
  {
    RunsOnce(specs, stage, states[i], passes[i]);
    HeldStays(specs, stage, states, passes, i, j, x);
    KeyAgrees(stage, x, passes, i, j);
    HeldSkips(specs, stage, states[j], passes[j], passes[i].plan, x);
  }

  lemma {:induction false} RunsOnce(specs: seq<Stage>, stage: Stage, s: State, p: Pass)
    requires UniqueNames(stage)
    ensures Distinct(Ran(specs, stage, s, p))
  {
    RunStageRan(specs, stage, s, p);
  }

  lemma {:induction false} HeldSkips(specs: seq<Stage>, stage: Stage, s: State, p: Pass, plan: Plan, x: string)
    requires UniqueNames(stage) && ScopeOf(stage, x) != Some(Lifetime) && Held(stage, s.status, plan, x)
    requires Arrives(p) ==> SameKey(stage, x, plan, p.plan)
    requires ScopeOf(stage, x) == Some(Version) ==> plan.versioned
    ensures x !in Ran(specs, stage, s, p)
  {
    if p.reach.Enters? { HeldCarries(specs, stage, s, p, plan, x); }
  }

  /** No pass runs a Lifetime action that holds a completion whose witness is not gone. */
  lemma {:induction false} CompletedLifetimeNeverRuns(specs: seq<Stage>, stage: Stage, s: State, p: Pass, c: Completion)
    requires UniqueNames(stage) && Unique(s.completions) && c in s.completions && c.stage == stage.name &&
      !Gone(c, p.world)
    ensures c.action !in Ran(specs, stage, s, p)
    ensures c in Entered(specs, stage, s, p).cs
  {
    RunStageRan(specs, stage, s, p);
    PromoteOnlyAdds(specs, s.completions, p.baseline, "", "");
    var cs := Promoted(specs, s.completions, p.baseline);
    GateCounts(cs, stage.name, p.world, c.action);
    InvalidatedKeeps(cs, stage.name, p.world);
    assert Done(Entered(specs, stage, s, p).l, c.action);
  }

  lemma {:induction false} RecordAllOnlyAdds(stage: Stage, ends: World, g: Progress, names: seq<string>)
    requires Unique(g.cs)
    ensures var r := RecordAll(stage, ends, g, names); g.cs <= r.cs && Unique(r.cs)
  {
    if names != [] {
      var before, last := RecordAll(stage, ends, g, names[..|names| - 1]), names[|names| - 1];
      RecordAllOnlyAdds(stage, ends, g, names[..|names| - 1]);
      AddedUnique(before.cs, Completion(stage.name, last, Executed, WitnessOf(AnchorOf(stage, last), ends)));
    }
  }

  lemma {:induction false} RunListOnlyAdds(stage: Stage, ends: World, g: Progress, names: seq<string>, n: nat,
          lost: bool)
    requires Unique(g.cs)
    ensures var r := RunList(stage, ends, g, names, n, lost); g.cs <= r.cs && Unique(r.cs)
  {
    var todo := Undone(names, g.l);
    RecordAllOnlyAdds(stage, ends, g, if |todo| <= n then todo else todo[..n]);
  }

  lemma {:induction false} RunStageOnlyAdds(specs: seq<Stage>, stage: Stage, s: State, p: Pass)
    requires Unique(Entered(specs, stage, s, p).cs)
    ensures Entered(specs, stage, s, p).cs <= RunStage(specs, stage, s, p).cs && Unique(RunStage(specs, stage, s, p).cs)
  {
    var g := Entered(specs, stage, s, p);
    RunListOnlyAdds(stage, p.ends, g, Names(stage.pre), p.preOk, p.lost);
    var pre := RunList(stage, p.ends, g, Names(stage.pre), p.preOk, p.lost);
    RunListOnlyAdds(stage, p.ends, pre, stage.onFailure, p.failureOk, false);
    RunListOnlyAdds(stage, p.ends, pre, Names(stage.post), p.postOk, p.lost);
    var post := RunList(stage, p.ends, pre, Names(stage.post), p.postOk, p.lost);
    RunListOnlyAdds(stage, p.ends, post, stage.onFailure, p.failureOk, false);
  }

  lemma {:induction false} PassUnique(specs: seq<Stage>, stage: Stage, s: State, p: Pass)
    requires Unique(s.completions)
    ensures Unique(After(specs, stage, s, p).completions)
  {
    PromoteOnlyAdds(specs, s.completions, p.baseline, "", "");
    InvalidatedKeeps(Promoted(specs, s.completions, p.baseline), stage.name, p.world);
    RunStageOnlyAdds(specs, stage, s, p);
  }

  lemma {:induction false} PassKeepsCompletion(specs: seq<Stage>, stage: Stage, s: State, p: Pass, c: Completion)
    requires Unique(s.completions) && c in s.completions
    requires !(Arrives(p) && c.stage == stage.name && Gone(c, p.world))
    ensures var s' := After(specs, stage, s, p); Unique(s'.completions) && c in s'.completions
  {
    PassUnique(specs, stage, s, p);
    PromoteOnlyAdds(specs, s.completions, p.baseline, "", "");
    InvalidatedKeeps(Promoted(specs, s.completions, p.baseline), stage.name, p.world);
    RunStageOnlyAdds(specs, stage, s, p);
  }

  /**
   Once a Lifetime action's completion is recorded, no pass runs the action again until one of them, entering
   the stage, reads its witness as absent or replaced; an unreadable witness does not count as gone.
   */
  lemma {:induction false} LifetimeRunsOnceWhileWitnessed(specs: seq<Stage>, stage: Stage, states: seq<State>,
          passes: seq<Pass>, i: nat, j: nat, c: Completion)
    requires UniqueNames(stage) && IsRun(specs, stage, states, passes) && i <= j < |passes|
    requires Unique(states[i].completions) && c in states[i].completions && c.stage == stage.name
    requires forall k: nat | i <= k <= j && Arrives(passes[k]) :: Stands(c, passes[k].world)
    ensures Unique(states[j].completions) && c in states[j].completions
    ensures c.action !in Ran(specs, stage, states[j], passes[j])
    decreases j
  {
    forall w { GoneIff(c, w); }
    if i < j {
      LifetimeRunsOnceWhileWitnessed(specs, stage, states, passes, i, j - 1, c);
      PassKeepsCompletion(specs, stage, states[j - 1], passes[j - 1], c);
      assert states[j - 1 + 1] == After(specs, stage, states[j - 1], passes[j - 1]);
    }
    if Arrives(passes[j]) { CompletedLifetimeNeverRuns(specs, stage, states[j], passes[j], c); }
  }

  // ---- the ledgers stay apart by scope ----

  /** Each ledger holds only names its scope routes there, and completions are unique. */
  ghost predicate ScopeConsistent(stage: Stage, s: State) {
    && (forall x <- s.status.executed :: ScopeOf(stage, x) == None || ScopeOf(stage, x) == Some(Revision))
    && (forall x <- s.status.versioned :: ScopeOf(stage, x) == Some(Version))
    && Unique(s.completions)
  }

  ghost predicate LedgerConsistent(stage: Stage, l: Ledger) {
    && (forall x <- l.executed :: ScopeOf(stage, x) == None || ScopeOf(stage, x) == Some(Revision))
    && (forall x <- l.versioned :: ScopeOf(stage, x) == Some(Version))
  }

  /** The spec's stage of that name is this stage. */
  predicate Specified(specs: seq<Stage>, stage: Stage) {
    forall s <- specs :: s.name == stage.name ==> s == stage
  }

  lemma {:induction false} EnteredConsistent(specs: seq<Stage>, stage: Stage, s: State, p: Pass)
    requires UniqueNames(stage) && ScopeConsistent(stage, s)
    ensures LedgerConsistent(stage, Entered(specs, stage, s, p).l) && Unique(Entered(specs, stage, s, p).cs)
  {
    PromoteOnlyAdds(specs, s.completions, p.baseline, "", "");
    InvalidatedKeeps(Promoted(specs, s.completions, p.baseline), stage.name, p.world);
    forall x <- VersionScopedNames(Actions(stage)) ensures ScopeOf(stage, x) == Some(Version) {
      VersionScopedIs(Actions(stage), x);
      var a :| a in Actions(stage) && a.name == x && a.scope == Version;
      NamesApart(stage);
      NamedOnce(Actions(stage), a);
    }
  }

  lemma {:induction false} RecordOneConsistent(stage: Stage, ends: World, g: Progress, x: string)
    requires LedgerConsistent(stage, g.l)
    ensures LedgerConsistent(stage, RecordOne(stage, ends, g, x).l)
  {
  }

  lemma {:induction false} RecordAllConsistent(stage: Stage, ends: World, g: Progress, names: seq<string>)
    requires LedgerConsistent(stage, g.l)
    ensures LedgerConsistent(stage, RecordAll(stage, ends, g, names).l)
  {
    if names != [] {
      RecordAllConsistent(stage, ends, g, names[..|names| - 1]);
      RecordOneConsistent(stage, ends, RecordAll(stage, ends, g, names[..|names| - 1]), names[|names| - 1]);
    }
  }

  lemma {:induction false} RunListConsistent(stage: Stage, ends: World, g: Progress, names: seq<string>, n: nat,
          lost: bool)
    requires LedgerConsistent(stage, g.l) && Unique(g.cs)
    ensures var r := RunList(stage, ends, g, names, n, lost); LedgerConsistent(stage, r.l) && Unique(r.cs)
  {
    var todo := Undone(names, g.l);
    RecordAllConsistent(stage, ends, g, if |todo| <= n then todo else todo[..n]);
    RunListOnlyAdds(stage, ends, g, names, n, lost);
  }

  lemma {:induction false} RunStageConsistent(specs: seq<Stage>, stage: Stage, s: State, p: Pass)
    requires LedgerConsistent(stage, Entered(specs, stage, s, p).l) && Unique(Entered(specs, stage, s, p).cs)
    ensures LedgerConsistent(stage, RunStage(specs, stage, s, p).l)
  {
    var g := Entered(specs, stage, s, p);
    RunListConsistent(stage, p.ends, g, Names(stage.pre), p.preOk, p.lost);
    var pre := RunList(stage, p.ends, g, Names(stage.pre), p.preOk, p.lost);
    RunListConsistent(stage, p.ends, pre, stage.onFailure, p.failureOk, false);
    RunListConsistent(stage, p.ends, pre, Names(stage.post), p.postOk, p.lost);
    var post := RunList(stage, p.ends, pre, Names(stage.post), p.postOk, p.lost);
    RunListConsistent(stage, p.ends, post, stage.onFailure, p.failureOk, false);
  }

  /** Every pass keeps the ledgers apart, however it ends, whatever completions it finds. */
  lemma {:induction false} PassKeepsConsistent(specs: seq<Stage>, stage: Stage, s: State, p: Pass)
    requires UniqueNames(stage) && ScopeConsistent(stage, s)
    ensures ScopeConsistent(stage, After(specs, stage, s, p))
  {
    EnteredConsistent(specs, stage, s, p);
    RunStageConsistent(specs, stage, s, p);
    PassUnique(specs, stage, s, p);
  }

  // ---- exactly when an action runs again ----

  lemma {:induction false} UndoneShorter(names: seq<string>, l: Ledger)
    ensures |Undone(names, l)| <= |names|
  {
    if names != [] { UndoneShorter(names[1..], l); }
  }

  /** Recording a list adds to the ledgers its own names and to the completions only its Lifetime actions. */
  lemma {:induction false} RecordAllAdds(stage: Stage, ends: World, g: Progress, names: seq<string>)
    ensures var r := RecordAll(stage, ends, g, names);
      && (forall x :: Done(r.l, x) ==> Done(g.l, x) || x in names)
      && (forall c <- r.cs :: c in g.cs || ScopeOf(stage, c.action) == Some(Lifetime))
  {
    if names != [] {
      var init, last := names[..|names| - 1], names[|names| - 1];
      RecordAllAdds(stage, ends, g, init);
      assert names == init + [last];
    }
  }

  lemma {:induction false} RunListAdds(stage: Stage, ends: World, g: Progress, names: seq<string>, n: nat, lost: bool)
    ensures var r := RunList(stage, ends, g, names, n, lost);
      && (forall x :: Done(r.l, x) ==> Done(g.l, x) || x in names)
      && (forall c <- r.cs :: c in g.cs || ScopeOf(stage, c.action) == Some(Lifetime))
  {
    var todo := Undone(names, g.l);
    var ran := if |todo| <= n then todo else todo[..n];
    RecordAllAdds(stage, ends, g, ran);
    forall x <- ran ensures x in names { UndoneIs(names, g.l, x); }
  }

  /** With budget for the whole list, an action of it that is not done runs. */
  lemma {:induction false} RunListReaches(stage: Stage, ends: World, g: Progress, names: seq<string>, lost: bool)
    ensures var r := RunList(stage, ends, g, names, |names|, lost);
      r.ok == g.ok && g.ran <= r.ran && forall x <- names :: !Done(g.l, x) ==> x in r.ran
  {
    var todo := Undone(names, g.l);
    UndoneShorter(names, g.l);
    RecordAllKeeps(stage, ends, g, todo);
    forall x <- names | !Done(g.l, x) ensures x in todo { UndoneIs(names, g.l, x); }
  }

  lemma {:induction false} PassAddsLifetime(specs: seq<Stage>, stage: Stage, s: State, p: Pass, c: Completion)
    requires c in RunStage(specs, stage, s, p).cs
    ensures c in Entered(specs, stage, s, p).cs || ScopeOf(stage, c.action) == Some(Lifetime)
  {
    var g := Entered(specs, stage, s, p);
    RunListAdds(stage, p.ends, g, Names(stage.pre), p.preOk, p.lost);
    var pre := RunList(stage, p.ends, g, Names(stage.pre), p.preOk, p.lost);
    RunListAdds(stage, p.ends, pre, stage.onFailure, p.failureOk, false);
    RunListAdds(stage, p.ends, pre, Names(stage.post), p.postOk, p.lost);
    var post := RunList(stage, p.ends, pre, Names(stage.post), p.postOk, p.lost);
    RunListAdds(stage, p.ends, post, stage.onFailure, p.failureOk, false);
  }

  lemma {:induction false} RanIsNamed(specs: seq<Stage>, stage: Stage, s: State, p: Pass, x: string)
    requires UniqueNames(stage) && x in Ran(specs, stage, s, p)
    ensures x in Names(stage.pre) || x in Names(stage.post) || x in stage.onFailure
  {
    NamesApart(stage);
    var g := Entered(specs, stage, s, p);
    RunListKeeps(stage, p.ends, g, Names(stage.pre), p.preOk, p.lost);
    var pre := RunList(stage, p.ends, g, Names(stage.pre), p.preOk, p.lost);
    assert pre.ran[|g.ran|..] == pre.ran;
    RunListKeeps(stage, p.ends, pre, stage.onFailure, p.failureOk, false);
    RunListKeeps(stage, p.ends, pre, Names(stage.post), p.postOk, p.lost);
    var post := RunList(stage, p.ends, pre, Names(stage.post), p.postOk, p.lost);
    RunListKeeps(stage, p.ends, post, stage.onFailure, p.failureOk, false);
    assert forall r: Progress | pre.ran <= r.ran && x in r.ran && x !in pre.ran :: x in r.ran[|pre.ran|..];
    assert forall r: Progress | post.ran <= r.ran && x in r.ran && x !in post.ran :: x in r.ran[|post.ran|..];
  }

  /** A pass with the same plan that gets as far as the action, failing behind the pre-actions if it takes that. */
  function Again(stage: Stage, p: Pass, x: string): Pass {
    Pass(p.plan, p.baseline, p.world, |Names(stage.pre)|, x !in stage.onFailure, |Names(stage.post)|, |stage.onFailure|,
         false, p.ends, true, Enters)
  }

  lemma {:induction false} AgainReaches(specs: seq<Stage>, stage: Stage, s: State, p: Pass, x: string)
    requires UniqueNames(stage) && !Done(Entered(specs, stage, s, Again(stage, p, x)).l, x)
    requires x in Names(stage.pre) || x in Names(stage.post) || x in stage.onFailure
    ensures x in Ran(specs, stage, s, Again(stage, p, x))
  {
    NamesApart(stage);
    var q := Again(stage, p, x);
    var g := Entered(specs, stage, s, q);
    RunListReaches(stage, q.ends, g, Names(stage.pre), q.lost);
    RunListAdds(stage, q.ends, g, Names(stage.pre), q.preOk, q.lost);
    var pre := RunList(stage, q.ends, g, Names(stage.pre), q.preOk, q.lost);
    if x in stage.onFailure {
      RunListReaches(stage, q.ends, pre, stage.onFailure, false);
    } else {
      RunListReaches(stage, q.ends, pre, Names(stage.post), q.lost);
    }
  }

  /**
   Behind a pass whose ledgers were lost or wiped, it counts nothing more as done than before but Lifetime actions.
   */
  lemma {:induction false} LostStaysUndone(specs: seq<Stage>, stage: Stage, s: State, p: Pass, status: StageStatus,
          x: string)
    requires UniqueNames(stage) && Specified(specs, stage) && stage in specs && Unique(s.completions)
    requires p.reach.Enters? && ScopeOf(stage, x) != Some(Lifetime) && !Done(Entered(specs, stage, s, p).l, x)
    requires status == s.status || status == NO_STATUS
    ensures var s' := State(status, After(specs, stage, s, p).completions);
      !Done(Entered(specs, stage, s', Again(stage, p, x)).l, x)
  {
    var s' := After(specs, stage, s, p);
    var cs := Promoted(specs, s.completions, p.baseline);
    PromoteOnlyAdds(specs, s.completions, p.baseline, "", "");
    InvalidatedKeeps(cs, stage.name, p.world);
    GateCounts(cs, stage.name, p.world, x);
    forall c <- s'.completions | IsFor(c, stage.name, x) ensures Gone(c, p.world) {
      PassAddsLifetime(specs, stage, s, p, c);
    }
    PassUnique(specs, stage, s, p);
    NotLifetime(specs, stage, x);
    PromotionCounts(specs, stage.name, x, s'.completions, p.baseline, p.world);
    GateCounts(Promoted(specs, s'.completions, p.baseline), stage.name, p.world, x);
  }

  lemma {:induction false} NotLifetime(specs: seq<Stage>, stage: Stage, x: string)
    requires UniqueNames(stage) && Specified(specs, stage) && stage in specs && ScopeOf(stage, x) != Some(Lifetime)
    ensures !IsLifetimeAction(specs, stage.name, x)
  {
    NamesApart(stage);
    if IsLifetimeAction(specs, stage.name, x) {
      var a :| a in Actions(stage) && a.name == x && a.scope == Lifetime;
      NamedOnce(Actions(stage), a);
    }
  }

  /** Some pass at the same key runs x from this state. */
  ghost predicate CanRun(specs: seq<Stage>, stage: Stage, s: State, plan: Plan, x: string) {
    exists q: Pass :: SameKey(stage, x, plan, q.plan) && x in Ran(specs, stage, s, q)
  }

  /**
   An action that ran in a pass can run again in a next one at the same key if and only if that pass's status was
   lost, and a pass that then wipes the ledgers always lets it run again. Lifetime actions are the exception: their
   completions are stored on their own.
   */
  lemma {:induction false} RunsAgainIffLost(specs: seq<Stage>, stage: Stage, s: State, p: Pass, wipe: Pass, x: string)
    requires UniqueNames(stage) && Specified(specs, stage) && stage in specs && Unique(s.completions)
    requires x in Ran(specs, stage, s, p) && ScopeOf(stage, x) != Some(Lifetime)
    requires ScopeOf(stage, x) == Some(Version) ==> p.plan.versioned
    ensures CanRun(specs, stage, After(specs, stage, s, p), p.plan, x) <==> !p.stored
    ensures Wipes(wipe) ==> CanRun(specs, stage, After(specs, stage, After(specs, stage, s, p), wipe), p.plan, x)
  {
    var s' := After(specs, stage, s, p);
    var again := Again(stage, p, x);
    RunStageRan(specs, stage, s, p);
    RanIsNamed(specs, stage, s, p, x);
    if p.stored {
      RanIsHeld(specs, stage, s, p, x);
      forall q: Pass | SameKey(stage, x, p.plan, q.plan) ensures x !in Ran(specs, stage, s', q) {
        if q.reach.Enters? { HeldCarries(specs, stage, s', q, p.plan, x); }
      }
    } else {
      LostStaysUndone(specs, stage, s, p, s.status, x);
      AgainReaches(specs, stage, s', p, x);
      assert SameKey(stage, x, p.plan, again.plan);
    }
    if Wipes(wipe) {
      LostStaysUndone(specs, stage, s, p, NO_STATUS, x);
      AgainReaches(specs, stage, State(NO_STATUS, s'.completions), p, x);
      assert SameKey(stage, x, p.plan, again.plan);
    }
  }

  // ---- the preview ----

  datatype RunState = WillRun | Skip | ReRun
  datatype Phase = Pre | Post

  /** Why the preview expects what it does. */
  datatype Reason =
    | WitnessGone | CompletedOnce | NotRecorded               // Lifetime
    | HeldAtVersion | BaselinedAt | NewEpisode | AtVersion    // Version
    | RanAtRevision | LocalRender | NewRevision               // Revision

  datatype Verdict = Verdict(stage: string, phase: Phase, name: string, scope: Option<Scope>, state: RunState,
    reason: Reason)

  /** What the preview says of one action, given the stored status and completions and the world it reads. */
  function VerdictOf(stage: Stage, a: Action, s: State, p: Plan, w: World): RunState {
    match ScopeOf(stage, a.name)
    case Some(Lifetime) =>
      if Counts(s.completions, stage.name, a.name, w, true) then ReRun
      else if Counts(s.completions, stage.name, a.name, w, false) then Skip else WillRun
    case Some(Version) =>
      if p.versioned && s.status.ledgerVersion == p.desired && a.name in s.status.versioned then Skip
      else if Baselines(p) then Skip else WillRun
    case _ =>
      if p.revision != "" && s.status.ledgerRevision == p.revision && a.name in s.status.executed then Skip else WillRun
  }

  /** Each verdict has a reason that its scope gives for that state. */
  predicate Justified(v: Verdict, p: Plan) {
    match v.scope
    case Some(Lifetime) =>
      v.reason == (match v.state case ReRun => WitnessGone case Skip => CompletedOnce case WillRun => NotRecorded)
    case Some(Version) =>
      if v.state == Skip then v.reason == HeldAtVersion || (v.reason == BaselinedAt && Baselines(p))
      else v.reason == if p.current != "" && p.current != p.desired then NewEpisode else AtVersion
    case _ =>
      v.reason == (if v.state == Skip then RanAtRevision else if p.revision == "" then LocalRender else NewRevision)
  }

  /** The preview's own walk over a stage's pre and post actions, from sets it fills out of the stored ledgers. */
  method ActionVerdicts(stage: Stage, s: State, p: Plan, w: World) returns (out: seq<Verdict>)
    ensures |out| == |Actions(stage)|
    ensures forall i | 0 <= i < |out| ::
      var a, v := Actions(stage)[i], out[i];
      && v.stage == stage.name && v.phase == (if i < |stage.pre| then Pre else Post)
      && v.name == a.name && v.scope == ScopeOf(stage, a.name)
      && v.state == VerdictOf(stage, a, s, p, w) && Justified(v, p)
  {
    var revDone: set<string>, verDone: set<string> := {}, {};
    if p.revision != "" && s.status.ledgerRevision == p.revision { revDone := set n | n in s.status.executed; }
    if p.versioned && s.status.ledgerVersion == p.desired { verDone := set n | n in s.status.versioned; }
    var gate := GateOf(s.completions, stage.name, w);
    out := [];
    for i := 0 to |Actions(stage)|
      invariant |out| == i
      invariant forall j | 0 <= j < i ::
        var a, v := Actions(stage)[j], out[j];
        && v.stage == stage.name && v.phase == (if j < |stage.pre| then Pre else Post)
        && v.name == a.name && v.scope == ScopeOf(stage, a.name)
        && v.state == VerdictOf(stage, a, s, p, w) && Justified(v, p)
    {
      var a := Actions(stage)[i];
      GateCounts(s.completions, stage.name, w, a.name);
      var state, reason;
      match ScopeOf(stage, a.name) {
        case Some(Lifetime) =>
          if a.name in gate.invalidated {
            state, reason := ReRun, WitnessGone;
          } else if a.name in gate.done {
            state, reason := Skip, CompletedOnce;
          } else {
            state, reason := WillRun, NotRecorded;
          }
        case Some(Version) =>
          if a.name in verDone {
            state, reason := Skip, HeldAtVersion;
          } else if Baselines(p) {
            state, reason := Skip, BaselinedAt;
          } else {
            state, reason := WillRun, if p.current != "" && p.current != p.desired then NewEpisode else AtVersion;
          }
        case _ =>
          if a.name in revDone {
            state, reason := Skip, RanAtRevision;
          } else {
            state, reason := WillRun, if p.revision == "" then LocalRender else NewRevision;
          }
      }
      var phase := if i < |stage.pre| then Pre else Post;
      out := out + [Verdict(stage.name, phase, a.name, ScopeOf(stage, a.name), state, reason)];
    }
  }

  /** An operator's baseline entry for the action that no reconcile has promoted yet. */
  predicate AwaitsPromotion(stage: Stage, s: State, baseline: seq<Ref>, a: Action) {
    a.scope == Lifetime && Ref(stage.name, a.name) in baseline && !IsCompleted(s.completions, stage.name, a.name)
  }

  /** The action's own ledger holds it, or the adoption of the version counts it as done. */
  predicate LedgerHolds(s: State, p: Plan, a: Action) {
    match a.scope
    case Lifetime => false
    case Version => (p.versioned && s.status.ledgerVersion == p.desired && a.name in s.status.versioned) || Baselines(p)
    case Revision => s.status.ledgerRevision == p.revision && a.name in s.status.executed
  }

  /** A completion from when the action was Lifetime-scoped still stands, and its own ledger does not hold it. */
  predicate Retained(stage: Stage, s: State, p: Pass, a: Action) {
    a.scope != Lifetime && Counts(s.completions, stage.name, a.name, p.world, false) && !LedgerHolds(s, p.plan, a)
  }

  /** With unique completions the gate counts an action done exactly when its one completion is not gone. */
  lemma {:induction false} OneCompletionDecides(cs: seq<Completion>, stage: string, action: string, w: World)
    requires Unique(cs)
    ensures Counts(cs, stage, action, w, false) ==> !Counts(cs, stage, action, w, true)
  {
    if Counts(cs, stage, action, w, false) && Counts(cs, stage, action, w, true) {
      var c :| c in cs && IsFor(c, stage, action) && !Gone(c, w);
      var d :| d in cs && IsFor(d, stage, action) && Gone(d, w);
      OnlyOne(cs, c, d);
    }
  }

  /** An action of the stage is a Lifetime action of the spec exactly when its scope says so. */
  lemma {:induction false} LifetimeByScope(specs: seq<Stage>, stage: Stage, a: Action)
    requires UniqueNames(stage) && Specified(specs, stage) && stage in specs && a in Actions(stage)
    ensures IsLifetimeAction(specs, stage.name, a.name) <==> a.scope == Lifetime
  {
    NamesApart(stage);
    NamedOnce(Actions(stage), a);
    if IsLifetimeAction(specs, stage.name, a.name) {
      var x :| x in Actions(stage) && x.name == a.name && x.scope == Lifetime;
      NamedOnce(Actions(stage), x);
    }
  }

  lemma {:induction false} PromotionCounts(specs: seq<Stage>, stage: string, action: string, cs: seq<Completion>,
          baseline: seq<Ref>, w: World)
    requires Unique(cs)
    ensures Counts(Promoted(specs, cs, baseline), stage, action, w, false) <==>
      || Counts(cs, stage, action, w, false)
      || (Ref(stage, action) in baseline && IsLifetimeAction(specs, stage, action) && !IsCompleted(cs, stage, action))
  {
    PromoteOnlyAdds(specs, cs, baseline, stage, action);
    var r := Promoted(specs, cs, baseline);
    assert forall c <- cs :: c in r;
    if IsCompleted(cs, stage, action) {
      var c :| c in cs && IsFor(c, stage, action);
      forall d <- r | IsFor(d, stage, action) ensures d == c { OnlyOne(r, c, d); }
    } else {
      forall d <- r | IsFor(d, stage, action) ensures !Gone(d, w) {
        OldOrNew(cs, r, d);
      }
    }
  }

  /** The preview and the pass agree about one action. */
  predicate Agree(specs: seq<Stage>, stage: Stage, s: State, p: Pass, a: Action) {
    VerdictOf(stage, a, s, p.plan, p.world) == Skip <==> Done(Entered(specs, stage, s, p).l, a.name)
  }

  /** What the gate of the next pass counts as done, baseline promoted. */
  lemma {:induction false} LifetimeDone(specs: seq<Stage>, stage: Stage, s: State, p: Pass, a: Action)
    requires UniqueNames(stage) && Specified(specs, stage) && stage in specs && Unique(s.completions) &&
      a in Actions(stage)
    ensures a.name in Entered(specs, stage, s, p).l.lifetimeDone <==>
      Counts(s.completions, stage.name, a.name, p.world, false) || AwaitsPromotion(stage, s, p.baseline, a)
  {
    GateCounts(Promoted(specs, s.completions, p.baseline), stage.name, p.world, a.name);
    PromotionCounts(specs, stage.name, a.name, s.completions, p.baseline, p.world);
    LifetimeByScope(specs, stage, a);
  }

  lemma {:induction false} RevisionDone(specs: seq<Stage>, stage: Stage, s: State, p: Pass, a: Action)
    requires LedgerConsistent(stage, Entered(specs, stage, s, p).l)
    requires a.scope == Revision && ScopeOf(stage, a.name) == Some(Revision)
    ensures Done(Entered(specs, stage, s, p).l, a.name) <==>
      LedgerHolds(s, p.plan, a) || a.name in Entered(specs, stage, s, p).l.lifetimeDone
  {
    assert a.name !in Entered(specs, stage, s, p).l.versioned;
  }

  lemma {:induction false} VersionDone(specs: seq<Stage>, stage: Stage, s: State, p: Pass, a: Action)
    requires LedgerConsistent(stage, Entered(specs, stage, s, p).l)
    requires a in Actions(stage) && a.scope == Version && ScopeOf(stage, a.name) == Some(Version)
    ensures Done(Entered(specs, stage, s, p).l, a.name) <==>
      LedgerHolds(s, p.plan, a) || a.name in Entered(specs, stage, s, p).l.lifetimeDone
  {
    assert a.name !in Entered(specs, stage, s, p).l.executed;
    VersionScopedIs(Actions(stage), a.name);
  }

  /** Whatever its scope, an action is done when its own ledger holds it or the lifetime gate counts it. */
  lemma {:induction false} DoneIs(specs: seq<Stage>, stage: Stage, s: State, p: Pass, a: Action)
    requires UniqueNames(stage) && Specified(specs, stage) && stage in specs && ScopeConsistent(stage, s)
    requires a in Actions(stage)
    ensures ScopeOf(stage, a.name) == Some(a.scope)
    ensures Done(Entered(specs, stage, s, p).l, a.name) <==>
      || LedgerHolds(s, p.plan, a)
      || Counts(s.completions, stage.name, a.name, p.world, false) || AwaitsPromotion(stage, s, p.baseline, a)
  {
    NamesApart(stage);
    NamedOnce(Actions(stage), a);
    EnteredConsistent(specs, stage, s, p);
    LifetimeDone(specs, stage, s, p, a);
    match a.scope
    case Lifetime => assert a.name !in Entered(specs, stage, s, p).l.executed &&
      a.name !in Entered(specs, stage, s, p).l.versioned;
    case Version => VersionDone(specs, stage, s, p, a);
    case Revision => RevisionDone(specs, stage, s, p, a);
  }

  // ---- when a baseline stands in for a run ----

  /** Some pass under this baseline runs the action from this state. */
  ghost predicate RunsUnder(specs: seq<Stage>, stage: Stage, s: State, baseline: seq<Ref>, x: string) {
    exists q: Pass :: q.baseline == baseline && x in Ran(specs, stage, s, q)
  }

  lemma {:induction false} UndoneRuns(specs: seq<Stage>, stage: Stage, s: State, q: Pass, a: Action)
    requires UniqueNames(stage) && a in Actions(stage) && !Done(Entered(specs, stage, s, q).l, a.name)
    ensures RunsUnder(specs, stage, s, q.baseline, a.name)
  {
    NamedFound(Actions(stage), a.name);
    var i :| 0 <= i < |Actions(stage)| && Actions(stage)[i] == a;
    assert Names(Actions(stage))[i] == a.name && Names(Actions(stage)) == Names(stage.pre) + Names(stage.post);
    assert Entered(specs, stage, s, Again(stage, q, a.name)) == Entered(specs, stage, s, q);
    AgainReaches(specs, stage, s, q, a.name);
  }

  /** A Lifetime action without a completion counts as done exactly when the baseline of the pass names it. */
  lemma {:induction false} UncompletedDone(specs: seq<Stage>, stage: Stage, s: State, q: Pass, a: Action)
    requires UniqueNames(stage) && Specified(specs, stage) && stage in specs && ScopeConsistent(stage, s)
    requires a in Actions(stage) && a.scope == Lifetime && !IsCompleted(s.completions, stage.name, a.name)
    ensures Done(Entered(specs, stage, s, q).l, a.name) <==> Ref(stage.name, a.name) in q.baseline
  {
    DoneIs(specs, stage, s, q, a);
  }

  /** Whatever pass comes next under the baseline, it counts the action as done. */
  ghost predicate AlwaysDone(specs: seq<Stage>, stage: Stage, s: State, baseline: seq<Ref>, x: string) {
    forall q: Pass | q.baseline == baseline :: Done(Entered(specs, stage, s, q).l, x)
  }

  /** Without a completion of it, a Lifetime action can run under exactly the baselines that do not name it. */
  lemma {:induction false} UncompletedRunsIff(specs: seq<Stage>, stage: Stage, s: State, a: Action,
          baseline: seq<Ref>)
    requires UniqueNames(stage) && Specified(specs, stage) && stage in specs && ScopeConsistent(stage, s)
    requires a in Actions(stage) && a.scope == Lifetime && !IsCompleted(s.completions, stage.name, a.name)
    ensures RunsUnder(specs, stage, s, baseline, a.name) <==> Ref(stage.name, a.name) !in baseline
    ensures AlwaysDone(specs, stage, s, baseline, a.name) <==> Ref(stage.name, a.name) in baseline
  {
    forall q: Pass | q.baseline == baseline
      ensures Done(Entered(specs, stage, s, q).l, a.name) <==> Ref(stage.name, a.name) in baseline
    {
      UncompletedDone(specs, stage, s, q, a);
    }
    forall q: Pass | q.baseline == baseline && a.name in Ran(specs, stage, s, q)
      ensures Ref(stage.name, a.name) !in baseline
    {
      RunStageRan(specs, stage, s, q);
    }
    if Ref(stage.name, a.name) !in baseline {
      UndoneRuns(specs, stage, s, SomePass(baseline), a);
    }
  }

  function SomePass(baseline: seq<Ref>): Pass {
    Pass(Plan("", false, "", ""), baseline, map[], 0, false, 0, 0, false, map[], true, Enters)
  }

  /**
   A Lifetime action whose completion a pass forgot, and which then failed or did not come up, runs in some later
   pass under a baseline if and only if that baseline does not name it. When it does, every such pass skips it.
   */
  lemma {:induction false} FailedRerunRunsAgainIff(specs: seq<Stage>, stage: Stage, s: State, p: Pass, a: Action,
          baseline: seq<Ref>)
    requires UniqueNames(stage) && Specified(specs, stage) && stage in specs && ScopeConsistent(stage, s)
    requires a in Actions(stage) && a.scope == Lifetime
    requires !IsCompleted(After(specs, stage, s, p).completions, stage.name, a.name)
    ensures var s' := After(specs, stage, s, p);
      && (RunsUnder(specs, stage, s', baseline, a.name) <==> Ref(stage.name, a.name) !in baseline)
      && (AlwaysDone(specs, stage, s', baseline, a.name) <==> Ref(stage.name, a.name) in baseline)
  {
    PassKeepsConsistent(specs, stage, s, p);
    UncompletedRunsIff(specs, stage, After(specs, stage, s, p), a, baseline);
  }

  predicate IsOnlyAction(specs: seq<Stage>, stage: Stage, a: Action) {
    specs == [stage] && stage.pre == [a] && stage.post == [] && stage.onFailure == []
  }

  lemma {:induction false} OnlyAction(specs: seq<Stage>, stage: Stage, a: Action)
    requires IsOnlyAction(specs, stage, a)
    ensures Actions(stage) == [a] && a in Actions(stage) && UniqueNames(stage) && Specified(specs, stage)
    ensures ScopeOf(stage, a.name) == Some(a.scope) && Names(stage.pre) == [a.name]
    ensures IsLifetimeAction(specs, stage.name, a.name) <==> a.scope == Lifetime
    ensures a.scope != Version ==> VersionScopedNames(Actions(stage)) == []
  {
    assert stage.pre + stage.post == [a] && a in stage.pre + stage.post && stage in specs;
    assert Names([a]) == [a.name] && [a][..0] == [];
  }

  /** A stage of one action, once per lifetime, whose recorded completion's witness is gone. */
  predicate LostWitness(specs: seq<Stage>, stage: Stage, s: State, a: Action, c: Completion, w: World) {
    && IsOnlyAction(specs, stage, a) && a.scope == Lifetime
    && s == State(NO_STATUS, [c]) && IsFor(c, stage.name, a.name) && Gone(c, w)
  }

  lemma {:induction false} PromotedHeld(specs: seq<Stage>, c: Completion)
    ensures Promoted(specs, [c], [Ref(c.stage, c.action)]) == [c]
  {
    var refs := [Ref(c.stage, c.action)];
    assert refs[..0] == [] && c in [c] && IsFor(c, c.stage, c.action);
    assert Promoted(specs, [c], []) == [c];
  }

  lemma {:induction false} GateOfGone(c: Completion, w: World)
    requires Gone(c, w)
    ensures GateOf([c], c.stage, w).done == [] && Invalidated([c], c.stage, w) == []
  {
    assert [c][..0] == [];
    assert GateOf([], c.stage, w) == Gate([], [], []) && Invalidated([], c.stage, w) == [];
  }

  /** The pass forgets the completion, and then the action fails without taking effect. */
  lemma {:induction false} RerunFails(specs: seq<Stage>, stage: Stage, s: State, p: Pass, a: Action, c: Completion)
    requires LostWitness(specs, stage, s, a, c, p.world) && p.baseline == [Ref(stage.name, a.name)]
    requires p.reach.Enters? && p.preOk == 0 && !p.lost
    ensures Ran(specs, stage, s, p) == [] && After(specs, stage, s, p).completions == []
  {
    OnlyAction(specs, stage, a);
    PromotedHeld(specs, c);
    GateOfGone(c, p.world);
    var g := Entered(specs, stage, s, p);
    assert !Done(g.l, a.name);
    assert [a.name][1..] == [];
    assert Undone([a.name], g.l) == [a.name];
    assert [a.name][..0] == [];
  }

  /**
   The witness is gone, so one pass forgets the completion and runs the action, which fails. The next pass finds the
   baseline naming it, records it as completed and skips it: it has not run since its effect was lost.
   */
  lemma {:induction false} RerunFailsThenSkipped(specs: seq<Stage>, stage: Stage, s: State, p: Pass, q: Pass, a: Action,
          c: Completion)
    requires LostWitness(specs, stage, s, a, c, p.world)
    requires p.baseline == [Ref(stage.name, a.name)] && q.baseline == p.baseline
    requires p.reach.Enters? && p.preOk == 0 && !p.lost
    ensures var s' := After(specs, stage, s, p);
      && Ran(specs, stage, s, p) == [] && !IsCompleted(s'.completions, stage.name, a.name)
      && a.name !in Ran(specs, stage, s', q)
      && Completion(stage.name, a.name, Baselined, None) in Entered(specs, stage, s', q).cs
  {
    OnlyAction(specs, stage, a);
    RerunFails(specs, stage, s, p, a, c);
    var s' := After(specs, stage, s, p);
    assert ScopeConsistent(stage, s);
    FailedRerunRunsAgainIff(specs, stage, s, p, a, q.baseline);
    GateOfGone(c, p.world);
    BaselineCoversFailedRerun(specs, [c], c, p.world, q.baseline);
    PromoteOnlyAdds(specs, [], q.baseline, "", "");
    InvalidatedKeeps(Promoted(specs, [], q.baseline), stage.name, q.world);
  }

  // ---- where preview and pass part ----

  /**
   In any scope-consistent state at a resolved revision, the preview says Skip for an action exactly when the next
   pass to enter the stage counts it as done, with two exceptions, in which the preview says the action will run and
   the pass skips it: a baseline entry that awaits promotion, which the pass promotes first, and a completion retained
   from when an action of another scope was Lifetime-scoped.
   */
  lemma {:induction false} PreviewAgreesIff(specs: seq<Stage>, stage: Stage, s: State, p: Pass, a: Action)
    requires UniqueNames(stage) && Specified(specs, stage) && stage in specs && ScopeConsistent(stage, s)
    requires a in Actions(stage) && p.plan.revision != ""
    ensures Agree(specs, stage, s, p, a) <==> !AwaitsPromotion(stage, s, p.baseline, a) && !Retained(stage, s, p, a)
    ensures !Agree(specs, stage, s, p, a) ==>
      VerdictOf(stage, a, s, p.plan, p.world) == WillRun && Done(Entered(specs, stage, s, p).l, a.name)
  {
    DoneIs(specs, stage, s, p, a);
    OneCompletionDecides(s.completions, stage.name, a.name, p.world);
  }

  /** Before the first reconcile of a StageSet whose StageLedger already names its action. */
  lemma {:induction false} PreviewMissesBaseline(specs: seq<Stage>, stage: Stage, a: Action, p: Pass)
    requires IsOnlyAction(specs, stage, a) && a.scope == Lifetime && p.plan.revision != ""
    requires p.baseline == [Ref(stage.name, a.name)]
    ensures var s := State(NO_STATUS, []);
      VerdictOf(stage, a, s, p.plan, p.world) == WillRun && Done(Entered(specs, stage, s, p).l, a.name)
  {
    OnlyAction(specs, stage, a);
    PreviewAgreesIff(specs, stage, State(NO_STATUS, []), p, a);
  }

  /** Before the first reconcile of a StageSet made anew over its StageLedger, the action's scope changed. */
  lemma {:induction false} PreviewMissesRetained(specs: seq<Stage>, stage: Stage, a: Action, p: Pass)
    requires IsOnlyAction(specs, stage, a) && a.scope == Revision && p.plan.revision != ""
    ensures var s := State(NO_STATUS, [Completion(stage.name, a.name, Executed, None)]);
      VerdictOf(stage, a, s, p.plan, p.world) == WillRun && Done(Entered(specs, stage, s, p).l, a.name)
  {
    OnlyAction(specs, stage, a);
    var c := Completion(stage.name, a.name, Executed, None);
    assert c in [c] && IsFor(c, stage.name, a.name) && !Gone(c, p.world);
    PreviewAgreesIff(specs, stage, State(NO_STATUS, [c]), p, a);
  }

  /**
   So it is in every state a run reaches from a stage without status, whatever unique completions an earlier StageSet
   left in the ledger.
   */
  lemma {:induction false} PreviewAgreesInEveryRun(specs: seq<Stage>, stage: Stage, states: seq<State>,
          passes: seq<Pass>, k: nat, p: Pass, a: Action)
    requires UniqueNames(stage) && Specified(specs, stage) && stage in specs && IsRun(specs, stage, states, passes) &&
      k < |states|
    requires states[0].status == NO_STATUS && Unique(states[0].completions)
    requires a in Actions(stage) && p.plan.revision != ""
    ensures ScopeConsistent(stage, states[k])
    ensures Agree(specs, stage, states[k], p, a) <==>
      !AwaitsPromotion(stage, states[k], p.baseline, a) && !Retained(stage, states[k], p, a)
  {
    if k > 0 {
      PreviewAgreesInEveryRun(specs, stage, states, passes, k - 1, p, a);
      PassKeepsConsistent(specs, stage, states[k - 1], passes[k - 1]);
      assert states[k - 1 + 1] == After(specs, stage, states[k - 1], passes[k - 1]);
    }
    PreviewAgreesIff(specs, stage, states[k], p, a);
  }
}
