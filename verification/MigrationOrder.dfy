/**
 What one transition does in which order: a pass runs its migrations in the order in which the stages and their
 buckets come, and each direction runs its own list and forgets its own part of the ledgers.
 */
module MigrationOrder {
  import opened Strings
  import opened Migrations
  import opened MigrationRuns
  import opened LostStatus

  // ---- across migrations ----

  /** The effects come in blocks, one for each of the migrations in turn; a migration may have none. */
  ghost predicate Follows(effects: seq<Effect>, order: seq<Migration>)
    decreases |order|
  {
    if order == [] then effects == []
    else exists k: nat | k <= |effects| ::
      (forall i: nat | i < k :: effects[i].name == order[0].name) && Follows(effects[k..], order[1..])
  }

  lemma {:induction false} NothingFollows(order: seq<Migration>)
    ensures Follows([], order)
  {
    if order != [] {
      NothingFollows(order[1..]);
      var none: seq<Effect> := [];
      assert none[0..] == none;
    }
  }

  lemma {:induction false} FollowsOn(a: seq<Effect>, ms: seq<Migration>, b: seq<Effect>, ns: seq<Migration>)
    requires Follows(a, ms) && Follows(b, ns)
    ensures Follows(a + b, ms + ns)
    decreases |ms|
  {
    if ms == [] {
      assert a + b == b && ms + ns == ns;
    } else {
      var k: nat :| k <= |a| && (forall i: nat | i < k :: a[i].name == ms[0].name) && Follows(a[k..], ms[1..]);
      FollowsOn(a[k..], ms[1..], b, ns);
      assert (a + b)[k..] == a[k..] + b && (ms + ns)[1..] == ms[1..] + ns;
    }
  }

  lemma {:induction false} BlockFollows(block: seq<Effect>, more: seq<Effect>, order: seq<Migration>)
    requires order != [] && (forall e <- block :: e.name == order[0].name) && Follows(more, order[1..])
    ensures Follows(block + more, order)
  {
    assert (block + more)[|block|..] == more;
    assert forall i: nat | i < |block| :: (block + more)[i] == block[i] && block[i] in block;
  }

  lemma {:induction false} SkipFollows(more: seq<Effect>, order: seq<Migration>)
    requires order != [] && Follows(more, order[1..])
    ensures Follows(more, order)
  {
    BlockFollows([], more, order);
    assert [] + more == more;
  }

  /** One migration adds only effects of its own. */
  lemma {:induction false} OneAdds(j: Journal, m: Migration, dir: Direction, budget: nat) returns (block: seq<Effect>)
    ensures RunOne(j, m, dir, budget).j.effects == j.effects + block
    ensures forall e <- block :: e.name == m.name
  {
    var todo := Undone(Acts(m, dir), LedgerKey(m, dir), j.acts);
    block := EffectsOf(m.name, if budget < |todo| then todo[..budget] else todo);
  }

  lemma {:induction false} BucketFollows(j: Journal, bucket: seq<Migration>, dir: Direction, done: set<string>,
          budget: nat) returns (more: seq<Effect>)
    ensures RunBucket(j, bucket, dir, done, budget).j.effects == j.effects + more && Follows(more, bucket)
    decreases |bucket|, 1
  {
    if bucket == [] {
      more := [];
      assert j.effects + more == j.effects;
    } else if Key(bucket[0]) in done {
      more := BucketFollows(j, bucket[1..], dir, done, budget);
      SkipFollows(more, bucket);
    } else {
      var o := RunOne(j, bucket[0], dir, budget);
      var block := OneAdds(j, bucket[0], dir, budget);
      var after := RestFollows(o, bucket, dir, done);
      BlockFollows(block, after, bucket);
      more := block + after;
      AppendTwice(j.effects, block, after);
    }
  }

  /** What a bucket adds behind its first migration. */
  lemma {:induction false} RestFollows(o: Outcome, bucket: seq<Migration>, dir: Direction, done: set<string>)
    returns (after: seq<Effect>)
    requires bucket != []
    ensures (if o.ok then RunBucket(o.j, bucket[1..], dir, done + {Key(bucket[0])}, o.left) else o).j.effects ==
      o.j.effects + after
    ensures Follows(after, bucket[1..])
    decreases |bucket|, 0
  {
    if o.ok {
      after := BucketFollows(o.j, bucket[1..], dir, done + {Key(bucket[0])}, o.left);
    } else {
      after := [];
      NothingFollows(bucket[1..]);
      assert o.j.effects + after == o.j.effects;
    }
  }

  lemma {:induction false} LoopFollows(stages: seq<Stage>, pending: seq<Migration>, dir: Direction, j: Journal, i: nat,
          budget: nat, exit: Exit) returns (more: seq<Effect>)
    requires i <= |stages|
    ensures RunLoop(MigrationsOf(stages, pending, dir), j, i, |stages|, budget, exit).j.effects == j.effects + more
    ensures Follows(more, Visits(stages[i..], stages, pending))
    decreases |stages| - i
  {
    if i == |stages| || exit == StopsBefore(i) {
      more := [];
      NothingFollows(Visits(stages[i..], stages, pending));
      assert j.effects + more == j.effects;
    } else {
      var bucket, rest := Bucket(stages, pending, stages[i].name), Visits(stages[i + 1..], stages, pending);
      var o := MigrationsOf(stages, pending, dir)(j, i, budget);
      var first := BucketFollows(j, bucket, dir, KeysOf(j.migs), budget);
      var after: seq<Effect> := [];
      NothingFollows(rest);
      if o.ok && exit != StopsAfter(i) {
        after := LoopFollows(stages, pending, dir, o.j, i + 1, o.left, exit);
      }
      assert stages[i..][1..] == stages[i + 1..];
      FollowsOn(first, bucket, after, rest);
      more := first + after;
      AppendTwice(j.effects, first, after);
    }
  }

  /**
   What a pass runs follows the order of its stages, and within a stage the order of the pending list: never an
   action of a later migration before one of an earlier.
   */
  lemma {:induction false} PassFollowsOrder(ladder: seq<Migration>, stages: seq<Stage>, s: Deployed, pass: PassInput)
    ensures Follows(NewEffects(s.journal, Loop(ladder, stages, s, pass).j),
      Visits(stages, stages, Pending(ladder, s.version, pass.desired)))
  {
    var more := LoopFollows(stages, Pending(ladder, s.version, pass.desired), DirectionTo(s.version, pass.desired),
      Asked(s, pass), 0, pass.budget, pass.exit);
    assert stages[0..] == stages;
    assert (s.journal.effects + more)[|s.journal.effects|..] == more;
  }

  // ---- a downgrade ----

  /**
   Completing a downgrade forgets nothing; completing an upgrade forgets exactly the superseded entries, and keeps
   the others in order.
   */
  lemma {:induction false} ClosedForgets(j: Journal, m: Migration, e: string)
    ensures Closed(j, m, Down).migs == j.migs + [Key(m)] && Closed(j, m, Down).acts == j.acts
    ensures e in Closed(j, m, Up).migs <==> (e in j.migs || e == Key(m)) && !Superseded(e, m.name, Key(m), false)
    ensures e in Closed(j, m, Up).acts <==> e in j.acts && !Superseded(e, m.name, Key(m), true)
    ensures forall dir :: Closed(j, m, dir).effects == j.effects
  {
    KeptHolds(j.migs + [Key(m)], m.name, Key(m), false, e);
    KeptHolds(j.acts, m.name, Key(m), true, e);
  }

  lemma {:induction false} KeptHolds(entries: seq<string>, name: string, keep: string, action: bool, e: string)
    ensures e in Kept(entries, name, keep, action) <==> e in entries && !Superseded(e, name, keep, action)
  {
    if entries != [] {
      var init, last := entries[..|entries| - 1], entries[|entries| - 1];
      KeptHolds(init, name, keep, action, e);
      assert entries == init + [last];
    }
  }

  lemma {:induction false} SinglePendingDown(m: Migration)
    requires m.to == 2
    ensures Pending([m], 2, 1) == [m]
  {
    assert [m][..0] == [];
    assert Crossed([m], 2, 1) == Crossed([], 2, 1) + [m] == [m];
    assert StableSort([m], Down) == Insert([], m, Down) == [m];
  }

  lemma {:induction false} SingleRunsDown(m: Migration, b: string, j: Journal)
    requires m.down == [b] && j.migs == [] && j.acts == []
    ensures var o := RunBucket(j, [m], Down, KeysOf(j.migs), 1);
      o.ok && o.j.effects == j.effects + [Effect(m.name, b)] && o.j.migs == [Key(m)]
  {
    UndoneStep([b], 0, LedgerKey(m, Down), j.acts, {});
    assert [b][0..] == [b] && [b][1..] == [] && [m][1..] == [];
    assert Undone([b], LedgerKey(m, Down), j.acts) == [b];
    assert EffectsOf(m.name, [b]) == [Effect(m.name, b)];
    var first := RunOne(j, m, Down, 1);
    assert RunBucket(j, [m], Down, KeysOf(j.migs), 1) ==
      RunBucket(first.j, [], Down, KeysOf(j.migs) + {Key(m)}, first.left);
  }

  lemma {:induction false} DownStep(m: Migration, b: string, stage: Stage, s: Deployed)
    requires m.to == 2 && m.stage == "" && stage.name != "" && m.down == [b] && s == Deployed(2, EMPTY, [], [])
    ensures var t := AfterPass([m], [stage], s, PassInput(1, 1, StopsAfter(0), true));
      t.version == 2 && t.all == [Effect(m.name, b)] && t.journal.migs == [Key(m)]
  {
    var fails := PassInput(1, 1, StopsAfter(0), true);
    SinglePendingDown(m);
    SingleBucket(stage, m);
    var step, j := MigrationsOf([stage], [m], Down), Asked(s, fails);
    SingleRunsDown(m, b, j);
    var o := step(j, 0, 1);
    assert RunLoop(step, j, 0, 1, 1, StopsAfter(0)) == Outcome(o.j, o.left, false);
  }

  lemma {:induction false} DownEnds(m: Migration, stage: Stage, t: Deployed)
    requires m.to == 2 && m.stage == "" && stage.name != "" && t.version == 2 && t.journal.migs == [Key(m)]
    ensures AfterPass([m], [stage], t, PassInput(1, 1, RunsAll, true)) == Deployed(1, EMPTY, [], [])
  {
    var whole := PassInput(1, 1, RunsAll, true);
    SinglePendingDown(m);
    SingleBucket(stage, m);
    SkippedBucket(Asked(t, whole), m);
    var step := MigrationsOf([stage], [m], Down);
    assert RunLoop(step, step(Asked(t, whole), 0, 1).j, 1, 1, 1, RunsAll).ok;
  }

  lemma {:induction false} SkippedBucket(j: Journal, m: Migration)
    requires j.migs == [Key(m)]
    ensures RunBucket(j, [m], Down, KeysOf(j.migs), 1) == Outcome(j, 1, true)
  {
    assert [m][1..] == [];
  }

  /** Version 2 back to 1: the migration's reverse action runs, and not its action. */
  lemma {:induction false} DowngradeRunsDown(m: Migration, a: string, b: string, stage: Stage)
    requires m.to == 2 && m.stage == "" && stage.name != "" && m.actions == [a] && m.down == [b] && a != b
    ensures var fails, whole := PassInput(1, 1, StopsAfter(0), true), PassInput(1, 1, RunsAll, true);
      && After([m], [stage], 2, [fails]).all == [Effect(m.name, b)]
      && After([m], [stage], 2, [fails]).version == 2
      && After([m], [stage], 2, [fails, whole]) == Deployed(1, EMPTY, [], [])
  {
    var fails, whole := PassInput(1, 1, StopsAfter(0), true), PassInput(1, 1, RunsAll, true);
    assert [fails][..0] == [] && [fails, whole][..1] == [fails];
    DownStep(m, b, stage, After([m], [stage], 2, []));
    DownEnds(m, stage, After([m], [stage], 2, [fails]));
  }
}
