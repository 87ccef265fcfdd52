/**
 When a pass runs an action and in which order, read off the stored ledgers, the completions and what the pass was
 given.
 */
module ActionRuns {
  import opened Wrappers
  import opened Strings
  import opened LifetimeLedger
  import opened ActionLedgers

  // ---- which actions run ----

  /** The StageLedger has a completion of the action that stands. */
  ghost predicate Standing(stage: Stage, s: State, a: Action, w: World) {
    exists c <- s.completions :: IsFor(c, stage.name, a.name) && Stands(c, w)
  }

  lemma {:induction false} StandingCounts(stage: Stage, s: State, a: Action, w: World)
    ensures Standing(stage, s, a, w) <==> Counts(s.completions, stage.name, a.name, w, false)
  {
    forall c { GoneIff(c, w); }
  }

  /** Some pass with this plan, baseline and world runs the action from this state. */
  ghost predicate Runs(specs: seq<Stage>, stage: Stage, s: State, plan: Plan, baseline: seq<Ref>, w: World,
          a: Action) {
    exists q: Pass :: q.plan == plan && q.baseline == baseline && q.world == w && a.name in Ran(specs, stage, s, q)
  }

  /** Every such pass counts it as done. */
  ghost predicate CountsDone(specs: seq<Stage>, stage: Stage, s: State, plan: Plan, baseline: seq<Ref>, w: World,
          a: Action) {
    forall q: Pass | q.plan == plan && q.baseline == baseline && q.world == w ::
      Done(Entered(specs, stage, s, q).l, a.name)
  }

  function SomePass(plan: Plan, baseline: seq<Ref>, w: World): Pass {
    Pass(plan, baseline, w, 0, false, 0, 0, false, map[], true, Enters)
  }

  lemma {:induction false} NotDoneRuns(specs: seq<Stage>, stage: Stage, s: State, plan: Plan, baseline: seq<Ref>,
          w: World, a: Action)
    requires UniqueNames(stage) && a in Actions(stage)
    ensures Runs(specs, stage, s, plan, baseline, w, a) <==>
      !Done(Entered(specs, stage, s, SomePass(plan, baseline, w)).l, a.name)
    ensures CountsDone(specs, stage, s, plan, baseline, w, a) <==>
      Done(Entered(specs, stage, s, SomePass(plan, baseline, w)).l, a.name)
  {
    var p := SomePass(plan, baseline, w);
    forall q: Pass | q.plan == plan && q.baseline == baseline && q.world == w
      ensures Entered(specs, stage, s, q) == Entered(specs, stage, s, p)
      ensures a.name in Ran(specs, stage, s, q) ==> !Done(Entered(specs, stage, s, p).l, a.name)
    {
      RunStageRan(specs, stage, s, q);
    }
    if !Done(Entered(specs, stage, s, p).l, a.name) {
      IsNamed(stage, a);
      var q := Again(stage, p, a.name);
      AgainReaches(specs, stage, s, p, a.name);
      assert q.plan == plan && q.baseline == baseline && q.world == w && a.name in Ran(specs, stage, s, q);
    }
  }

  lemma {:induction false} IsNamed(stage: Stage, a: Action)
    requires a in Actions(stage)
    ensures a.name in Names(stage.pre) || a.name in Names(stage.post)
  {
    var i :| 0 <= i < |Actions(stage)| && Actions(stage)[i] == a;
    if i < |stage.pre| {
      assert Names(stage.pre)[i] == a.name;
    } else {
      assert Names(stage.post)[i - |stage.pre|] == a.name;
    }
  }

  /**
   From any scope-consistent state an action runs in some pass, and is not counted as done by any, unless a completion
   of it stands or its own ledger answers for it: a Revision action's under this very revision, a Version action's
   under this very version, or because the StageSet has no version yet, and a Lifetime action by a baseline entry that
   no completion contradicts.
   */
  lemma {:induction false} RunsIff(specs: seq<Stage>, stage: Stage, s: State, plan: Plan, baseline: seq<Ref>,
          w: World, a: Action)
    requires UniqueNames(stage) && Specified(specs, stage) && stage in specs && ScopeConsistent(stage, s)
    requires a in Actions(stage)
    ensures CountsDone(specs, stage, s, plan, baseline, w, a) <==> !Runs(specs, stage, s, plan, baseline, w, a)
    ensures Runs(specs, stage, s, plan, baseline, w, a) <==>
      && !Standing(stage, s, a, w)
      && match a.scope
         case Revision => !(s.status.ledgerRevision == plan.revision && a.name in s.status.executed)
         case Version =>
           !(plan.versioned && (plan.current == "" ||
                                (s.status.ledgerVersion == plan.desired && a.name in s.status.versioned)))
         case Lifetime =>
           Ref(stage.name, a.name) in baseline ==> exists c <- s.completions :: IsFor(c, stage.name, a.name)
  {
    NotDoneRuns(specs, stage, s, plan, baseline, w, a);
    DoneIs(specs, stage, s, SomePass(plan, baseline, w), a);
    StandingCounts(stage, s, a, w);
  }

  /**
   A Version action runs again when the version moves: on a StageSet with a version, at one its ledger does not hold
   the action for, the preview announces it, no pass counts it as done and some pass runs it. Before the first
   version every pass counts it as done.
   */
  lemma {:induction false} VersionActionRunsOnUpgrade(specs: seq<Stage>, stage: Stage, s: State, plan: Plan,
          baseline: seq<Ref>, w: World, a: Action)
    requires UniqueNames(stage) && Specified(specs, stage) && stage in specs && ScopeConsistent(stage, s)
    requires a in Actions(stage) && a.scope == Version && plan.versioned
    requires forall c <- s.completions :: !IsFor(c, stage.name, a.name)
    requires s.status.ledgerVersion == plan.desired ==> a.name !in s.status.versioned
    ensures plan.current != "" ==>
      && VerdictOf(stage, a, s, plan, w) == WillRun && Runs(specs, stage, s, plan, baseline, w, a)
      && forall q: Pass | q.plan == plan && q.baseline == baseline && q.world == w ::
           !Done(Entered(specs, stage, s, q).l, a.name)
    ensures plan.current == "" ==>
      VerdictOf(stage, a, s, plan, w) == Skip && CountsDone(specs, stage, s, plan, baseline, w, a)
  {
    RunsIff(specs, stage, s, plan, baseline, w, a);
    DoneIs(specs, stage, s, SomePass(plan, baseline, w), a);
    forall q: Pass | q.plan == plan && q.baseline == baseline && q.world == w
      ensures Entered(specs, stage, s, q) == Entered(specs, stage, s, SomePass(plan, baseline, w))
    {
    }
  }

  /** What the preview says, read off the same: it announces a rerun exactly for a completion whose witness is gone. */
  lemma {:induction false} VerdictIs(stage: Stage, a: Action, s: State, plan: Plan, w: World)
    requires UniqueNames(stage) && a in Actions(stage) && Unique(s.completions)
    ensures VerdictOf(stage, a, s, plan, w) == ReRun <==>
      a.scope == Lifetime && exists c <- s.completions :: IsFor(c, stage.name, a.name) && !Stands(c, w)
    ensures VerdictOf(stage, a, s, plan, w) == Skip <==>
      match a.scope
      case Revision => plan.revision != "" && s.status.ledgerRevision == plan.revision && a.name in s.status.executed
      case Version => plan.versioned && (plan.current == "" ||
                        (s.status.ledgerVersion == plan.desired && a.name in s.status.versioned))
      case Lifetime => Standing(stage, s, a, w)
  {
    NamesApart(stage);
    NamedOnce(Actions(stage), a);
    StandingCounts(stage, s, a, w);
    OneCompletionDecides(s.completions, stage.name, a.name, w);
    forall c { GoneIff(c, w); }
  }

  // ---- what a run of a Lifetime action leaves ----

  /** The completion that a successful run of the action records. */
  function RanCompletion(stage: Stage, ends: World, x: string): Completion {
    Completion(stage.name, x, Executed, WitnessOf(AnchorOf(stage, x), ends))
  }

  /** The action is completed by its own run, or not at all. */
  ghost predicate OwnOrNone(stage: Stage, ends: World, g: Progress, x: string) {
    && Unique(g.cs)
    && if x in g.ran then RanCompletion(stage, ends, x) in g.cs else !IsCompleted(g.cs, stage.name, x)
  }

  lemma {:induction false} RecordOneOwn(stage: Stage, ends: World, g: Progress, name: string, x: string)
    requires OwnOrNone(stage, ends, g, x) && ScopeOf(stage, x) == Some(Lifetime)
    ensures OwnOrNone(stage, ends, RecordOne(stage, ends, g, name), x)
  {
    var c := RanCompletion(stage, ends, name);
    AddedUnique(g.cs, c);
    AddedCompletes(g.cs, c, stage.name, x);
  }

  lemma {:induction false} RecordAllOwn(stage: Stage, ends: World, g: Progress, names: seq<string>, x: string)
    requires OwnOrNone(stage, ends, g, x) && ScopeOf(stage, x) == Some(Lifetime)
    ensures OwnOrNone(stage, ends, RecordAll(stage, ends, g, names), x)
  {
    if names != [] {
      var init, last := names[..|names| - 1], names[|names| - 1];
      RecordAllOwn(stage, ends, g, init, x);
      RecordOneOwn(stage, ends, RecordAll(stage, ends, g, init), last, x);
    }
  }

  lemma {:induction false} RunListOwn(stage: Stage, ends: World, g: Progress, names: seq<string>, n: nat, x: string)
    requires OwnOrNone(stage, ends, g, x) && ScopeOf(stage, x) == Some(Lifetime)
    ensures OwnOrNone(stage, ends, RunList(stage, ends, g, names, n, false), x)
  {
    var todo := Undone(names, g.l);
    RecordAllOwn(stage, ends, g, if |todo| <= n then todo else todo[..n], x);
  }

  lemma {:induction false} RunStageOwn(specs: seq<Stage>, stage: Stage, s: State, p: Pass, x: string)
    requires OwnOrNone(stage, p.ends, Entered(specs, stage, s, p), x) && ScopeOf(stage, x) == Some(Lifetime) && !p.lost
    ensures OwnOrNone(stage, p.ends, RunStage(specs, stage, s, p), x)
  {
    var g := Entered(specs, stage, s, p);
    RunListOwn(stage, p.ends, g, Names(stage.pre), p.preOk, x);
    var pre := RunList(stage, p.ends, g, Names(stage.pre), p.preOk, false);
    RunListOwn(stage, p.ends, pre, stage.onFailure, p.failureOk, x);
    RunListOwn(stage, p.ends, pre, Names(stage.post), p.postOk, x);
    var post := RunList(stage, p.ends, pre, Names(stage.post), p.postOk, false);
    RunListOwn(stage, p.ends, post, stage.onFailure, p.failureOk, x);
  }

  /** An action not counted as done on entry has no completion left there. */
  lemma {:induction false} NotDoneHasNone(specs: seq<Stage>, stage: Stage, s: State, p: Pass, x: string)
    requires Unique(s.completions) && !Done(Entered(specs, stage, s, p).l, x)
    ensures OwnOrNone(stage, p.ends, Entered(specs, stage, s, p), x)
  {
    var cs := Promoted(specs, s.completions, p.baseline);
    PromoteOnlyAdds(specs, s.completions, p.baseline, "", "");
    InvalidatedKeeps(cs, stage.name, p.world);
    GateCounts(cs, stage.name, p.world, x);
  }

  /**
   Once a Lifetime action has run and its completion was recorded, it runs again in some later pass exactly when it is
   anchored and that pass finds the witness absent or another object; an unreadable witness, another revision, another
   version or a baseline entry do not make it run.
   */
  lemma {:induction false} LifetimeRunsAgainIff(specs: seq<Stage>, stage: Stage, s: State, p: Pass, a: Action,
          plan: Plan, baseline: seq<Ref>, w: World)
    requires UniqueNames(stage) && Specified(specs, stage) && stage in specs && ScopeConsistent(stage, s)
    requires a in Actions(stage) && a.scope == Lifetime && a.name in Ran(specs, stage, s, p) && !p.lost
    requires a.anchor.Some? ==> a.anchor.value in p.ends && p.ends[a.anchor.value].Present?
    ensures Runs(specs, stage, ActionLedgers.After(specs, stage, s, p), plan, baseline, w, a) <==>
      && a.anchor.Some?
      && (a.anchor.value in w ==>
           w[a.anchor.value].Present? && w[a.anchor.value].uid != p.ends[a.anchor.value].uid)
  {
    var s', c := ActionLedgers.After(specs, stage, s, p), RanCompletion(stage, p.ends, a.name);
    NamesApart(stage);
    NamedOnce(Actions(stage), a);
    RunStageRan(specs, stage, s, p);
    NotDoneHasNone(specs, stage, s, p, a.name);
    RunStageOwn(specs, stage, s, p, a.name);
    assert c in s'.completions && IsFor(c, stage.name, a.name);
    PassKeepsConsistent(specs, stage, s, p);
    forall d <- s'.completions | IsFor(d, stage.name, a.name) ensures d == c { OnlyOne(s'.completions, c, d); }
    RunsIff(specs, stage, s', plan, baseline, w, a);
    assert Standing(stage, s', a, w) <==> Stands(c, w);
  }

  // ---- passes that run nothing ----

  /**
   A failure before the stage loop empties the stage's ledgers when it is stored. A pass that ends elsewhere leaves
   them alone, and may have completed baseline entries. One that fails at the stage before its actions keeps the
   revision ledger under its key, and forgets the completions that do not stand, or none.
   */
  lemma {:induction false} EndsEarly(specs: seq<Stage>, stage: Stage, s: State, p: Pass, c: Completion)
    requires Unique(s.completions) && !p.reach.Enters?
    ensures Ran(specs, stage, s, p) == []
    ensures var s' := ActionLedgers.After(specs, stage, s, p);
      match p.reach
      case Wiped => s'.completions == s.completions && (p.stored ==> s'.status == StageStatus([], "", [], ""))
      case Elsewhere(promoted) =>
        && s'.status == s.status
        && (IsCompleted(s'.completions, c.stage, c.action) <==>
             || IsCompleted(s.completions, c.stage, c.action)
             || (promoted && Ref(c.stage, c.action) in p.baseline && IsLifetimeAction(specs, c.stage, c.action)))
      case _ =>
        && (p.stored ==> s'.status.ledgerRevision == p.plan.revision)
        && (p.stored ==>
             s'.status.executed == if s.status.ledgerRevision == p.plan.revision then s.status.executed else [])
        && (c in s'.completions <==>
             && c in Promoted(specs, s.completions, p.baseline)
             && (p.reach == Barred(true) && c.stage == stage.name ==> Stands(c, p.world)))
    ensures !p.stored ==> ActionLedgers.After(specs, stage, s, p).status == s.status
  {
    PromoteOnlyAdds(specs, s.completions, p.baseline, c.stage, c.action);
    InvalidatedKeeps(Promoted(specs, s.completions, p.baseline), stage.name, p.world);
    GoneIff(c, p.world);
  }

  // ---- in which order ----

  /** The actions still to do come in the order of the list: those of its first part, then those of the rest. */
  lemma {:induction false} UndoneConcat(a: seq<string>, b: seq<string>, l: Ledger)
    ensures Undone(a + b, l) == Undone(a, l) + Undone(b, l)
  {
    if a == [] {
      assert a + b == b;
    } else {
      UndoneConcat(a[1..], b, l);
      assert (a + b)[1..] == a[1..] + b;
      AppendTwice(if Done(l, a[0]) then [] else [a[0]], Undone(a[1..], l), Undone(b, l));
    }
  }

  lemma {:induction false} UndoneWhole(names: seq<string>, l: Ledger)
    requires forall x <- names :: !Done(l, x)
    ensures Undone(names, l) == names
  {
    if names != [] {
      assert names == [names[0]] + names[1..];
      UndoneWhole(names[1..], l);
    }
  }

  lemma {:induction false} UndoneAlike(names: seq<string>, l: Ledger, l': Ledger)
    requires forall x <- names :: Done(l, x) <==> Done(l', x)
    ensures Undone(names, l) == Undone(names, l')
  {
    if names != [] {
      assert names == [names[0]] + names[1..];
      UndoneAlike(names[1..], l, l');
    }
  }

  /** A list that shares no name with those that ran before it finds the same actions still to do. */
  lemma {:induction false} StillUndone(stage: Stage, ends: World, g: Progress, names: seq<string>, n: nat, lost: bool,
          others: seq<string>)
    requires forall x <- names :: x !in others
    ensures Undone(others, RunList(stage, ends, g, names, n, lost).l) == Undone(others, g.l)
  {
    RunListAdds(stage, ends, g, names, n, lost);
    var k := RunListIs(stage, ends, g, names, n, lost);
    UndoneAlike(others, RunList(stage, ends, g, names, n, lost).l, g.l);
  }

  /** How far a list gets: all of it, or the budget and, when a completion was lost, one more. */
  lemma {:induction false} RunListRuns(stage: Stage, ends: World, g: Progress, names: seq<string>, n: nat, lost: bool)
    returns (k: nat)
    ensures var todo, r := Undone(names, g.l), RunList(stage, ends, g, names, n, lost);
      && k <= |todo| && r.ran == g.ran + todo[..k] && (r.ok ==> g.ok)
      && (|todo| <= n ==> k == |todo| && r.ok == g.ok) && (|todo| > n ==> n <= k <= n + 1 && !r.ok)
  {
    var todo := Undone(names, g.l);
    if |todo| <= n {
      k := |todo|;
      assert todo[..k] == todo;
      RecordAllKeeps(stage, ends, g, todo);
    } else {
      RecordAllKeeps(stage, ends, g, todo[..n]);
      k := if lost && ScopeOf(stage, todo[n]) == Some(Lifetime) then n + 1 else n;
      assert todo[..n + 1] == todo[..n] + [todo[n]];
    }
  }

  function Least(a: nat, b: nat): nat {
    if a <= b then a else b
  }

  /** Of these actions k run when n succeed: all of them, or n, or one more that fails after taking effect. */
  predicate Gets(todo: seq<string>, n: nat, k: nat) {
    if |todo| <= n then k == |todo| else n <= k <= n + 1
  }

  /** onFailure actions have no scope, so none of them counts as run when it fails. */
  lemma {:induction false} OnFailureRuns(stage: Stage, g: Progress, p: Pass)
    ensures var todo := Undone(stage.onFailure, g.l);
      OnFailure(stage, g, p).ran == g.ran + todo[..Least(|todo|, p.failureOk)]
  {
    var todo := Undone(stage.onFailure, g.l);
    assert todo[..|todo|] == todo;
    RecordAllKeeps(stage, p.ends, g, todo[..Least(|todo|, p.failureOk)]);
  }

  /** The pass behind its pre-actions. */
  function Behind(stage: Stage, p: Pass, pre: Progress): Progress {
    if !p.applied then OnFailure(stage, pre, p)
    else
      var post := RunList(stage, p.ends, pre, Names(stage.post), p.postOk, p.lost);
      if post.ok then post else OnFailure(stage, post, p)
  }

  lemma {:induction false} BehindRuns(stage: Stage, p: Pass, pre: Progress) returns (j: nat, k: nat)
    requires UniqueNames(stage) && pre.ok
    ensures var post, fail := Undone(Names(stage.post), pre.l), Undone(stage.onFailure, pre.l);
      && j <= |post| && k <= |fail| && Behind(stage, p, pre).ran == pre.ran + post[..j] + fail[..k]
      && (if p.applied then Gets(post, p.postOk, j) else j == 0)
      && (if p.applied && |post| <= p.postOk then k == 0 else k == Least(|fail|, p.failureOk))
  {
    NamesApart(stage);
    j, k := 0, 0;
    if !p.applied {
      OnFailureRuns(stage, pre, p);
      k := Least(|Undone(stage.onFailure, pre.l)|, p.failureOk);
      assert pre.ran + Undone(Names(stage.post), pre.l)[..0] == pre.ran;
    } else {
      j := RunListRuns(stage, p.ends, pre, Names(stage.post), p.postOk, p.lost);
      var post := RunList(stage, p.ends, pre, Names(stage.post), p.postOk, p.lost);
      StillUndone(stage, p.ends, pre, Names(stage.post), p.postOk, p.lost, stage.onFailure);
      if !post.ok {
        OnFailureRuns(stage, post, p);
        k := Least(|Undone(stage.onFailure, pre.l)|, p.failureOk);
      } else {
        assert post.ran + Undone(stage.onFailure, pre.l)[..0] == post.ran;
      }
    }
  }

  /**
   A pass runs the pre-actions not done, in list order up to the first failure; only when all of them succeed and the
   stage is applied, the post-actions likewise; and only when one of these fails behind the pre-actions, the onFailure
   actions. Nothing else runs.
   */
  lemma {:induction false} PassRunsInOrder(specs: seq<Stage>, stage: Stage, s: State, p: Pass)
    returns (i: nat, j: nat, k: nat)
    requires UniqueNames(stage) && p.reach.Enters?
    ensures var l := Entered(specs, stage, s, p).l;
      var pre, post, fail := Undone(Names(stage.pre), l), Undone(Names(stage.post), l), Undone(stage.onFailure, l);
      && i <= |pre| && j <= |post| && k <= |fail|
      && Ran(specs, stage, s, p) == pre[..i] + post[..j] + fail[..k]
      && Gets(pre, p.preOk, i)
      && (if |pre| <= p.preOk && p.applied then Gets(post, p.postOk, j) else j == 0)
      && (if |pre| > p.preOk || (p.applied && |post| <= p.postOk) then k == 0 else k == Least(|fail|, p.failureOk))
  {
    NamesApart(stage);
    var g := Entered(specs, stage, s, p);
    var names := Names(stage.pre);
    i := RunListRuns(stage, p.ends, g, names, p.preOk, p.lost);
    var pre := RunList(stage, p.ends, g, names, p.preOk, p.lost);
    j, k := 0, 0;
    assert pre.ran == Undone(names, g.l)[..i];
    if pre.ok {
      j, k := BehindRuns(stage, p, pre);
      StillUndone(stage, p.ends, g, names, p.preOk, p.lost, Names(stage.post));
      StillUndone(stage, p.ends, g, names, p.preOk, p.lost, stage.onFailure);
      assert RunStage(specs, stage, s, p) == Behind(stage, p, pre);
    }
  }

  /** With nothing done and nothing failing, a pass runs exactly the pre-actions and then the post-actions. */
  lemma {:induction false} CleanPassRunsAll(specs: seq<Stage>, stage: Stage, s: State, p: Pass)
    requires UniqueNames(stage) && p.reach.Enters? && p.applied
    requires p.preOk >= |stage.pre| && p.postOk >= |stage.post|
    requires forall a <- Actions(stage) :: !Done(Entered(specs, stage, s, p).l, a.name)
    ensures Ran(specs, stage, s, p) == Names(stage.pre) + Names(stage.post)
  {
    var l := Entered(specs, stage, s, p).l;
    forall x <- Names(stage.pre) + Names(stage.post) ensures !Done(l, x) {
      var i :| 0 <= i < |Actions(stage)| && (Names(stage.pre) + Names(stage.post))[i] == x;
      assert Actions(stage)[i].name == x && Actions(stage)[i] in Actions(stage);
    }
    UndoneWhole(Names(stage.pre), l);
    UndoneWhole(Names(stage.post), l);
    var i, j, k := PassRunsInOrder(specs, stage, s, p);
    assert Names(stage.pre)[..i] == Names(stage.pre) && Names(stage.post)[..j] == Names(stage.post);
  }
}
