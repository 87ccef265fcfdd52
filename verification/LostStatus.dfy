/**
 Passes whose status write is lost: a failed prune behind the stage loop, a failed patch, a controller that
 dies. The next pass reads the ledgers as they were, and what the lost pass ran it may run again.
 */
module LostStatus {
  import opened Strings
  import opened Migrations
  import opened MigrationRuns

  // ---- a pass with budget enough for everything ----

  function Size(bucket: seq<Migration>, dir: Direction): nat {
    if bucket == [] then 0 else |Acts(bucket[0], dir)| + Size(bucket[1..], dir)
  }

  /** The actions of the migrations anchored to stages i and later. */
  function LoopSize(stages: seq<Stage>, pending: seq<Migration>, dir: Direction, i: nat): nat
    requires i <= |stages|
    decreases |stages| - i
  {
    if i == |stages| then 0
    else Size(Bucket(stages, pending, stages[i].name), dir) + LoopSize(stages, pending, dir, i + 1)
  }

  lemma {:induction false} UndoneShorter(acts: seq<string>, key: string, ledger: seq<string>)
    ensures |Undone(acts, key, ledger)| <= |acts|
  {
    if acts != [] { UndoneShorter(acts[1..], key, ledger); }
  }

  lemma {:induction false} BucketSucceeds(j: Journal, bucket: seq<Migration>, dir: Direction, done: set<string>,
          budget: nat)
    requires Size(bucket, dir) <= budget
    ensures var o := RunBucket(j, bucket, dir, done, budget); o.ok && o.left >= budget - Size(bucket, dir)
    decreases |bucket|
  {
    if bucket != [] {
      var m := bucket[0];
      UndoneShorter(Acts(m, dir), LedgerKey(m, dir), j.acts);
      if Key(m) in done {
        BucketSucceeds(j, bucket[1..], dir, done, budget);
      } else {
        var o := RunOne(j, m, dir, budget);
        BucketSucceeds(o.j, bucket[1..], dir, done + {Key(m)}, o.left);
      }
    }
  }

  lemma {:induction false} LoopSucceeds(stages: seq<Stage>, pending: seq<Migration>, dir: Direction, j: Journal,
          i: nat, budget: nat)
    requires i <= |stages| && LoopSize(stages, pending, dir, i) <= budget
    ensures RunLoop(MigrationsOf(stages, pending, dir), j, i, |stages|, budget, RunsAll).ok
    decreases |stages| - i
  {
    if i < |stages| {
      BucketSucceeds(j, Bucket(stages, pending, stages[i].name), dir, KeysOf(j.migs), budget);
      var o := MigrationsOf(stages, pending, dir)(j, i, budget);
      LoopSucceeds(stages, pending, dir, o.j, i + 1, o.left);
    }
  }

  /** Stopping behind the last stage's migrations differs from running every stage only in the error. */
  lemma {:induction false} StopsAtTheEnd(step: StageStep, j: Journal, i: nat, count: nat, budget: nat)
    requires i < count
    ensures RunLoop(step, j, i, count, budget, StopsAfter(count - 1)) ==
      RunLoop(step, j, i, count, budget, RunsAll).(ok := false)
    decreases count - i
  {
    var o := step(j, i, budget);
    if o.ok && i < count - 1 {
      StopsAtTheEnd(step, o.j, i + 1, count, o.left);
    }
  }

  // ---- exactly when an action can take effect twice ----

  /** A stored pass for d in which every migration succeeds and only the last stage fails behind them. */
  function Retry(ladder: seq<Migration>, stages: seq<Stage>, s: Deployed, d: Version): PassInput
    requires stages != []
  {
    var budget := LoopSize(stages, Pending(ladder, s.version, d), DirectionTo(s.version, d), 0);
    PassInput(d, budget, StopsAfter(|stages| - 1), true)
  }

  lemma {:induction false} RetryCompletes(ladder: seq<Migration>, stages: seq<Stage>, s: Deployed, d: Version,
          m: Migration)
    requires ValidLadder(ladder) && Sound(ladder, stages, s) && stages != []
    requires m in Pending(ladder, s.version, d) && Anchored(stages, Pending(ladder, s.version, d))
    ensures var s' := AfterPass(ladder, stages, s, Retry(ladder, stages, s, d));
      s'.version == s.version && s'.lost == s.lost && Complete(s'.journal, m, s.version)
  {
    var pending, dir, pass := Pending(ladder, s.version, d), DirectionTo(s.version, d), Retry(ladder, stages, s, d);
    var whole := pass.(exit := RunsAll);
    var step := MigrationsOf(stages, pending, dir);
    LoopSucceeds(stages, pending, dir, Asked(s, pass), 0, pass.budget);
    StopsAtTheEnd(step, Asked(s, pass), 0, |stages|, pass.budget);
    LoopRuns(ladder, stages, s, whole);
    AllAnchored(stages, pending, m);
    PendingSelects(ladder, s.version, d, m);
    assert Tracks(Loop(ladder, stages, s, whole).j, m, s.version);
  }

  lemma {:induction false} DistinctOnce(s: seq<string>, x: string)
    requires Distinct(s)
    ensures multiset(s)[x] <= 1
  {
    if s != [] {
      var init, last := s[..|s| - 1], s[|s| - 1];
      DistinctOnce(init, x);
      assert s == init + [last];
      forall i | 0 <= i < |init| ensures init[i] != last { assert s[i] != s[|s| - 1]; }
    }
  }

  /** What a lost pass ran, the retry runs again, unless a stored pass already has. */
  lemma {:induction false} LostRunsAgain(ladder: seq<Migration>, stages: seq<Stage>,
          s: Deployed) returns (pass: PassInput)
    requires ValidLadder(ladder) && Sound(ladder, stages, s) && s.lost != []
    ensures pass.stored && !OnceInOrder(ladder, AfterPass(ladder, stages, s, pass))
  {
    var e := s.lost[0];
    assert e in s.journal.effects + s.lost;
    var m, d :| m in ladder && d in s.journal.asked && RunsFor(ladder, stages, s.version, m, d, e);
    PendingSelects(ladder, s.version, d, m);
    AnchorExists(stages, m.stage);
    pass := Retry(ladder, stages, s, d);
    var s' := AfterPass(ladder, stages, s, pass);
    RetryCompletes(ladder, stages, s, d, m);
    PassSound(ladder, stages, s, pass);
    RanHas(s'.journal.effects, e);
    assert e in multiset(s'.lost);
    RanHas(s'.all, e);
    if OnceInOrder(ladder, s') { DistinctOnce(Ran(s'.all, m.name), e.action); }
  }

  ghost predicate AllStored(passes: seq<PassInput>) {
    forall p <- passes :: p.stored
  }

  lemma {:induction false} StoredLosesNothing(ladder: seq<Migration>, stages: seq<Stage>, start: Version,
          passes: seq<PassInput>,
          more: seq<PassInput>)
    requires After(ladder, stages, start, passes).lost == [] && AllStored(more)
    ensures After(ladder, stages, start, passes + more).lost == []
  {
    if more == [] {
      assert passes + more == passes;
    } else {
      var init, last := more[..|more| - 1], more[|more| - 1];
      assert (passes + more)[..|passes + more| - 1] == passes + init && last in more;
      StoredLosesNothing(ladder, stages, start, passes, init);
    }
  }

  /** In every continuation by passes whose status is stored, actions take effect at most once and in list order. */
  ghost predicate StaysOnce(ladder: seq<Migration>, stages: seq<Stage>, start: Version, passes: seq<PassInput>) {
    forall more: seq<PassInput> | AllStored(more) :: OnceInOrder(ladder, After(ladder, stages, start, passes + more))
  }

  lemma {:induction false} NothingLostStaysOnce(ladder: seq<Migration>, stages: seq<Stage>, start: Version,
          passes: seq<PassInput>)
    requires ValidLadder(ladder) && After(ladder, stages, start, passes).lost == []
    ensures StaysOnce(ladder, stages, start, passes)
  {
    forall more: seq<PassInput> | AllStored(more)
      ensures OnceInOrder(ladder, After(ladder, stages, start, passes + more))
    {
      StoredLosesNothing(ladder, stages, start, passes, more);
      OnceWhileNothingLost(ladder, stages, start, passes + more);
    }
  }

  lemma {:induction false} OnceWhileNothingLost(ladder: seq<Migration>, stages: seq<Stage>, start: Version,
          passes: seq<PassInput>)
    requires ValidLadder(ladder) && After(ladder, stages, start, passes).lost == []
    ensures OnceInOrder(ladder, After(ladder, stages, start, passes))
  {
    if ladder != [] { ActionsRunAtMostOnceInOrder(ladder, stages, start, passes, ladder[0]); }
  }

  lemma {:induction false} AfterOneMore(ladder: seq<Migration>, stages: seq<Stage>, start: Version,
          passes: seq<PassInput>, pass: PassInput)
    ensures After(ladder, stages, start, passes + [pass]) ==
      AfterPass(ladder, stages, After(ladder, stages, start, passes), pass)
  {
    assert (passes + [pass])[..|passes|] == passes;
  }

  /**
   Behind any run of passes, at most once and in list order holds however it continues, with every status stored,
   if and only if no action ran in a pass whose status was lost since the ledgers were last cleared.
   */
  lemma {:induction false} OnceIffNothingLost(ladder: seq<Migration>, stages: seq<Stage>, start: Version,
          passes: seq<PassInput>)
    requires ValidLadder(ladder)
    ensures StaysOnce(ladder, stages, start, passes) <==> After(ladder, stages, start, passes).lost == []
  {
    var s := After(ladder, stages, start, passes);
    if s.lost == [] {
      NothingLostStaysOnce(ladder, stages, start, passes);
    } else {
      RunSound(ladder, stages, start, passes);
      var pass := LostRunsAgain(ladder, stages, s);
      AfterOneMore(ladder, stages, start, passes, pass);
      assert AllStored([pass]) && !OnceInOrder(ladder, After(ladder, stages, start, passes + [pass]));
    }
  }

  // ---- a destructive migration that runs twice ----

  lemma {:induction false} SinglePending(m: Migration)
    requires m.to == 2 && m.from == []
    ensures Pending([m], 1, 2) == [m]
  {
    assert StableSort([m], Up) == Insert([], m, Up) == [m];
    assert Crossed([m], 1, 2) == Crossed([], 1, 2) + [m];
  }

  lemma {:induction false} SingleBucket(stage: Stage, m: Migration)
    requires m.stage == "" && stage.name != ""
    ensures Anchored([stage], [m]) && Bucket([stage], [m], stage.name) == [m]
  {
    assert AnchorOf([stage], m.stage) == stage.name;
    assert Bucket([stage], [m], stage.name) == Bucket([stage], [], stage.name) + [m];
  }

  lemma {:induction false} SingleRuns(m: Migration, a: string, j: Journal)
    requires m.actions == [a] && j.migs == [] && j.acts == []
    ensures var o := RunBucket(j, [m], Up, KeysOf(j.migs), 1);
      o.ok && o.j.effects == j.effects + [Effect(m.name, a)]
  {
    UndoneStep([a], 0, LedgerKey(m, Up), j.acts, {});
    assert [a][0..] == [a] && [a][1..] == [];
    assert Undone([a], LedgerKey(m, Up), j.acts) == [a];
    assert EffectsOf(m.name, [a]) == [Effect(m.name, a)];
    var first := RunOne(j, m, Up, 1);
    assert RunBucket(j, [m], Up, KeysOf(j.migs), 1) ==
      RunBucket(first.j, [m][1..], Up, KeysOf(j.migs) + {Key(m)}, first.left);
  }

  /** One pass that asks for version 2 with budget for the one action, and runs it. */
  ghost predicate Runs(pass: PassInput) {
    pass.desired == 2 && pass.budget == 1 && (pass.exit == RunsAll || pass.exit == StopsAfter(0))
  }

  lemma {:induction false} SinglePass(m: Migration, a: string, stage: Stage, s: Deployed, pass: PassInput)
    requires m.to == 2 && m.from == [] && m.stage == "" && stage.name != "" && m.actions == [a]
    requires s.version == 1 && s.journal.migs == [] && s.journal.acts == [] && s.journal.effects == [] && Runs(pass)
    ensures NewEffects(s.journal, Loop([m], [stage], s, pass).j) == [Effect(m.name, a)]
    ensures Anchored([stage], Pending([m], 1, 2))
    ensures Loop([m], [stage], s, pass).ok <==> pass.exit == RunsAll
  {
    SinglePending(m);
    SingleBucket(stage, m);
    var step, j := MigrationsOf([stage], [m], Up), Asked(s, pass);
    SingleRuns(m, a, j);
    var o := step(j, 0, 1);
    assert o == RunBucket(j, [m], Up, KeysOf(j.migs), 1);
    assert RunLoop(step, o.j, 1, 1, o.left, pass.exit) == Outcome(o.j, o.left, true);
    assert RunLoop(step, j, 0, 1, 1, pass.exit).j == o.j;
  }

  /**
   Version 1 to 2: the migration and every stage succeed, then a prune behind the loop fails and the pass returns
   without storing its status. The next pass runs the migration's action a second time.
   */
  lemma {:induction false} FailedPruneRunsTwice(m: Migration, a: string, stage: Stage)
    requires m.to == 2 && m.from == [] && m.stage == "" && stage.name != "" && m.actions == [a]
    ensures var passes := [PassInput(2, 1, RunsAll, false), PassInput(2, 1, StopsAfter(0), true)];
      After([m], [stage], 1, passes).all == [Effect(m.name, a), Effect(m.name, a)]
  {
    var p, q := PassInput(2, 1, RunsAll, false), PassInput(2, 1, StopsAfter(0), true);
    assert [p, q][..1] == [p] && [p][..0] == [];
    SinglePass(m, a, stage, After([m], [stage], 1, []), p);
    var s := After([m], [stage], 1, [p]);
    assert s.all == [Effect(m.name, a)] && s.version == 1;
    SinglePass(m, a, stage, s, q);
  }

  // ---- a success at the unchanged version forgets a half-run upgrade ----

  lemma {:induction false} NothingPendingPasses(stages: seq<Stage>, j: Journal, i: nat, budget: nat)
    requires i <= |stages|
    ensures RunLoop(MigrationsOf(stages, [], Up), j, i, |stages|, budget, RunsAll) == Outcome(j, budget, true)
    decreases |stages| - i
  {
    if i < |stages| { NothingPendingPasses(stages, j, i + 1, budget); }
  }

  /** A stored success at the recorded version clears the ledgers, whatever part of an upgrade they held. */
  lemma {:induction false} SuccessForgets(ladder: seq<Migration>, stages: seq<Stage>, start: Version,
          passes: seq<PassInput>, back: PassInput)
    requires back.desired == After(ladder, stages, start, passes).version && back.stored && back.exit == RunsAll
    ensures After(ladder, stages, start, passes + [back]) ==
      Deployed(After(ladder, stages, start, passes).version, EMPTY, [], [])
  {
    var s := After(ladder, stages, start, passes);
    AfterOneMore(ladder, stages, start, passes, back);
    assert Pending(ladder, s.version, back.desired) == [];
    NothingPendingPasses(stages, Asked(s, back), 0, back.budget);
  }

  /**
   So an upgrade that failed part of the way, was given up, and is tried again does everything over, although every
   status was stored and the version never moved.
   */
  lemma {:induction false} RevertRepeats(ladder: seq<Migration>, stages: seq<Stage>, start: Version,
          attempt: seq<PassInput>, back: PassInput)
    requires After(ladder, stages, start, attempt).version == start
    requires back.desired == start && back.stored && back.exit == RunsAll
    ensures After(ladder, stages, start, attempt + [back] + attempt) == After(ladder, stages, start, attempt)
  {
    SuccessForgets(ladder, stages, start, attempt, back);
    SameContinuation(ladder, stages, start, attempt + [back], attempt);
  }

  lemma {:induction false} SameContinuation(ladder: seq<Migration>, stages: seq<Stage>, start: Version,
          passes: seq<PassInput>, more: seq<PassInput>)
    requires After(ladder, stages, start, passes) == Deployed(start, EMPTY, [], [])
    ensures After(ladder, stages, start, passes + more) == After(ladder, stages, start, more)
  {
    if more == [] {
      assert passes + more == passes;
    } else {
      var init, last := more[..|more| - 1], more[|more| - 1];
      SameContinuation(ladder, stages, start, passes, init);
      ConcatEnd(passes, more);
      SameStep(ladder, stages, start, passes + init, init, last);
    }
  }

  lemma {:induction false} SameStep(ladder: seq<Migration>, stages: seq<Stage>, start: Version, a: seq<PassInput>,
          b: seq<PassInput>, last: PassInput)
    requires After(ladder, stages, start, a) == After(ladder, stages, start, b)
    ensures After(ladder, stages, start, a + [last]) == After(ladder, stages, start, b + [last])
  {
    AfterOneMore(ladder, stages, start, a, last);
    AfterOneMore(ladder, stages, start, b, last);
  }

  /** A destructive action that runs once in each attempt, with nothing lost. */
  lemma {:induction false} RevertRunsTwice(m: Migration, a: string, stage: Stage)
    requires m.to == 2 && m.from == [] && m.stage == "" && stage.name != "" && m.actions == [a]
    ensures var attempt, back := [PassInput(2, 1, StopsAfter(0), true)], PassInput(1, 0, RunsAll, true);
      && After([m], [stage], 1, attempt).all == [Effect(m.name, a)]
      && After([m], [stage], 1, attempt + [back]).all == []
      && After([m], [stage], 1, attempt + [back] + attempt).all == [Effect(m.name, a)]
  {
    var p, back := PassInput(2, 1, StopsAfter(0), true), PassInput(1, 0, RunsAll, true);
    assert [p][..0] == [];
    SinglePass(m, a, stage, After([m], [stage], 1, []), p);
    SuccessForgets([m], [stage], 1, [p], back);
    RevertRepeats([m], [stage], 1, [p], back);
  }
}
