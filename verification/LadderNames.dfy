/**
 Which sets of migration names are safe. The ledgers take names to be free of '@' and '/', but nothing refuses such
 names, and some of them make an action run twice, or not at all, although every status is stored.
 */
module LadderNames {
  import opened Strings
  import opened Migrations
  import opened MigrationRuns
  import opened LostStatus

  ghost predicate Uses(ladder: seq<Migration>, names: set<string>) {
    Validated(ladder) && forall m <- ladder :: m.name in names
  }

  /**
   Whatever ladder uses these names, and however its passes fail, every action runs at most once and in list order.
   */
  ghost predicate AlwaysOnce(names: set<string>) {
    forall ladder: seq<Migration>, stages: seq<Stage>, start: Version, passes: seq<PassInput>
      | Uses(ladder, names) && AllStored(passes) ::
      OnceInOrder(ladder, After(ladder, stages, start, passes))
  }

  predicate NamesApart(names: set<string>) {
    forall n <- names, n' <- names :: !Shadows(n, n')
  }

  lemma {:induction false} ApartStaysOnce(ladder: seq<Migration>, stages: seq<Stage>, start: Version,
          passes: seq<PassInput>)
    requires ValidLadder(ladder) && AllStored(passes)
    ensures OnceInOrder(ladder, After(ladder, stages, start, passes))
  {
    assert After(ladder, stages, start, []).lost == [];
    StoredLosesNothing(ladder, stages, start, [], passes);
    assert [] + passes == passes;
    OnceWhileNothingLost(ladder, stages, start, passes);
  }

  // ---- what one migration of one or two actions does ----

  function Ran1(j: Journal, m: Migration, a: string): Journal {
    RecordedOne(j, m, Up, a)
  }

  lemma {:induction false} RunsOne(j: Journal, m: Migration, a: string, budget: nat)
    requires m.actions == [a] && budget > 0 && Entry(m, Up, a) !in j.acts
    ensures RunOne(j, m, Up, budget) == Outcome(Closed(Ran1(j, m, a), m, Up), budget - 1, true)
  {
    assert [a][1..] == [];
    assert Undone([a], LedgerKey(m, Up), j.acts) == [a] + Undone([], LedgerKey(m, Up), j.acts);
    RecordedAppend(j, m, Up, [], a);
    RecordedNothing(j, m);
    assert [] + [a] == [a];
  }

  lemma {:induction false} RecordedNothing(j: Journal, m: Migration)
    ensures Recorded(j, m, Up, []) == j
  {
    assert EntriesFor(LedgerKey(m, Up), []) == [] && EffectsOf(m.name, []) == [];
    assert j.acts + [] == j.acts && j.effects + [] == j.effects;
  }

  /** Of two actions not done, the first succeeds and the second fails. */
  lemma {:induction false} RunsHalf(j: Journal, m: Migration, a: string, b: string)
    requires m.actions == [a, b] && Entry(m, Up, a) !in j.acts && Entry(m, Up, b) !in j.acts
    ensures RunOne(j, m, Up, 1) == Outcome(Ran1(j, m, a), 0, false)
  {
    var key := LedgerKey(m, Up);
    assert [a, b][1..] == [b] && [b][1..] == [];
    assert Undone([b], key, j.acts) == [b] + Undone([], key, j.acts);
    assert Undone([a, b], key, j.acts) == [a] + Undone([b], key, j.acts) == [a, b];
    assert [a, b][..1] == [] + [a];
    RecordedAppend(j, m, Up, [], a);
    RecordedNothing(j, m);
  }

  /** Of two actions the first counts as done, and the second succeeds. */
  lemma {:induction false} RunsSecond(j: Journal, m: Migration, a: string, b: string)
    requires m.actions == [a, b] && Entry(m, Up, a) in j.acts && Entry(m, Up, b) !in j.acts
    ensures RunOne(j, m, Up, 1) == Outcome(Closed(Ran1(j, m, b), m, Up), 0, true)
  {
    var key := LedgerKey(m, Up);
    assert [a, b][1..] == [b] && [b][1..] == [];
    assert Undone([b], key, j.acts) == [b] + Undone([], key, j.acts);
    assert Undone([a, b], key, j.acts) == [] + Undone([b], key, j.acts) == [b];
    assert [b] == [] + [b];
    RecordedAppend(j, m, Up, [], b);
    RecordedNothing(j, m);
  }

  lemma {:induction false} RunsNone(j: Journal, m: Migration, budget: nat)
    requires m.actions == []
    ensures RunOne(j, m, Up, budget) == Outcome(Closed(j, m, Up), budget, true)
  {
    RecordedNothing(j, m);
  }

  lemma {:induction false} BucketOfOne(j: Journal, m: Migration, done: set<string>, budget: nat)
    requires Key(m) !in done
    ensures RunBucket(j, [m], Up, done, budget) == RunOne(j, m, Up, budget)
  {
    assert [m][1..] == [];
    var o := RunOne(j, m, Up, budget);
    assert o.ok ==> RunBucket(o.j, [], Up, done + {Key(m)}, o.left) == o;
  }

  lemma {:induction false} BucketOfTwo(j: Journal, x: Migration, m: Migration, done: set<string>, budget: nat)
    requires Key(x) !in done && RunOne(j, x, Up, budget).ok
    ensures var o := RunOne(j, x, Up, budget);
      RunBucket(j, [x, m], Up, done, budget) == RunBucket(o.j, [m], Up, done + {Key(x)}, o.left)
  {
    assert [x, m][1..] == [m];
  }

  /** What completing m leaves of one action entry, of another migration or its own. */
  lemma {:induction false} KeptEntry(m: Migration, e: string)
    ensures Kept([e], m.name, Key(m), true) == if Superseded(e, m.name, Key(m), true) then [] else [e]
  {
    assert [e][..0] == [];
  }

  lemma {:induction false} KeptTwo(name: string, keep: string, action: bool, e: string, e': string)
    ensures Kept([e, e'], name, keep, action) ==
      (if Superseded(e, name, keep, action) then [] else [e]) +
        (if Superseded(e', name, keep, action) then [] else [e'])
  {
    assert [e, e'][..1] == [e] && [e][..0] == [];
    assert Kept([e], name, keep, action) ==
      Kept([], name, keep, action) + if Superseded(e, name, keep, action) then [] else [e];
  }

  lemma {:induction false} OwnStays(m: Migration, a: string)
    requires IsDigest(m.digest)
    ensures Kept([Entry(m, Up, a)], m.name, Key(m), true) == [Entry(m, Up, a)]
    ensures Kept([Key(m)], m.name, Key(m), false) == [Key(m)]
  {
    UnshadowedKeepsEntries(m, m, Up, a);
    KeptEntry(m, Entry(m, Up, a));
    assert [Key(m)][..0] == [];
  }

  lemma {:induction false} EntryInjective(m: Migration, a: string, b: string)
    requires a != b
    ensures Entry(m, Up, a) != Entry(m, Up, b)
  {
    assert Entry(m, Up, a)[|Key(m)| + 1..] == a && Entry(m, Up, b)[|Key(m)| + 1..] == b;
  }

  lemma {:induction false} PendingOfTwo(x: Migration, m: Migration, d: Version)
    requires x.to == 2 && x.from == [] && 2 <= m.to <= 3 && m.from == [] && 2 <= d
    ensures Pending([x, m], 1, d) == if m.to <= d then [x, m] else [x]
  {
    assert [x, m][..1] == [x] && [x][..0] == [];
    assert StableSort([x], Up) == Insert([], x, Up) == [x];
    assert StableSort([x, m], Up) == Insert([x], m, Up) == [x, m];
    assert Crossed([x], 1, d) == Crossed([], 1, d) + [x];
  }

  // ---- two migrations in two stages ----

  /** x, of two actions, is anchored to the second stage; m, of none, to the first, and crossed one version later. */
  predicate LateAndEarly(stages: seq<Stage>, x: Migration, m: Migration, a: string, b: string) {
    && |stages| == 2 && stages[0].name != stages[1].name
    && AnchorOf(stages, x.stage) == stages[1].name && AnchorOf(stages, m.stage) == stages[0].name
    && stages[0].name != "" && stages[1].name != ""
    && x.to == 2 && x.from == [] && x.actions == [a, b] && a != b
    && m.to == 3 && m.from == [] && m.actions == []
    && IsDigest(x.digest) && IsDigest(m.digest) && x.name != m.name
  }

  lemma {:induction false} BucketsOfTwo(stages: seq<Stage>, x: Migration, m: Migration, a: string, b: string)
    requires LateAndEarly(stages, x, m, a, b)
    ensures Bucket(stages, [x], stages[0].name) == [] && Bucket(stages, [x], stages[1].name) == [x]
    ensures Bucket(stages, [x, m], stages[0].name) == [m] && Bucket(stages, [x, m], stages[1].name) == [x]
  {
    assert [x, m][..1] == [x] && [x][..0] == [];
    assert Bucket(stages, [x], stages[0].name) == Bucket(stages, [], stages[0].name) + [];
    assert Bucket(stages, [x], stages[1].name) == Bucket(stages, [], stages[1].name) + [x];
  }

  /** A stored pass over two stages whose first bucket succeeds and whose second one fails. */
  lemma {:induction false} PassOfStages(ladder: seq<Migration>, stages: seq<Stage>, s: Deployed, pass: PassInput,
          early: seq<Migration>, late: seq<Migration>, o: Outcome, l: Outcome)
    requires |stages| == 2 && s.version < pass.desired && pass.stored && pass.exit == RunsAll
    requires var pending := Pending(ladder, s.version, pass.desired);
      && Anchored(stages, pending)
      && early == Bucket(stages, pending, stages[0].name) && late == Bucket(stages, pending, stages[1].name)
    requires o == RunBucket(Asked(s, pass), early, Up, KeysOf(s.journal.migs), pass.budget) && o.ok
    requires l == RunBucket(o.j, late, Up, KeysOf(o.j.migs), o.left) && !l.ok
    ensures AfterPass(ladder, stages, s, pass) ==
      Deployed(s.version, l.j, s.all + NewEffects(s.journal, l.j), s.lost)
  {
    var step := MigrationsOf(stages, Pending(ladder, s.version, pass.desired), Up);
    SecondFails(step, Asked(s, pass), pass.budget, o, l);
  }

  lemma {:induction false} SecondFails(step: StageStep, j: Journal, budget: nat, o: Outcome, l: Outcome)
    requires o == step(j, 0, budget) && o.ok && l == step(o.j, 1, o.left) && !l.ok
    ensures RunLoop(step, j, 0, 2, budget, RunsAll) == l
  {
    assert RunLoop(step, o.j, 1, 2, o.left, RunsAll) == l;
  }

  /** x has run its first action, and the ledgers know it. */
  predicate HalfRun(s: Deployed, x: Migration, a: string) {
    && s.version == 1 && s.lost == [] && s.journal.migs == []
    && s.journal.acts == [Entry(x, Up, a)]
    && s.journal.effects == [Effect(x.name, a)] && s.all == [Effect(x.name, a)]
  }

  lemma {:induction false} FirstHalf(stages: seq<Stage>, x: Migration, m: Migration, a: string, b: string, s: Deployed)
    requires LateAndEarly(stages, x, m, a, b) && s == Deployed(1, EMPTY, [], [])
    ensures HalfRun(AfterPass([x, m], stages, s, PassInput(2, 1, RunsAll, true)), x, a)
  {
    var pass := PassInput(2, 1, RunsAll, true);
    var j := Asked(s, pass);
    PendingOfTwo(x, m, 2);
    BucketsOfTwo(stages, x, m, a, b);
    RunsHalf(j, x, a, b);
    BucketOfOne(j, x, KeysOf(j.migs), 1);
    PassOfStages([x, m], stages, s, pass, [], [x], Outcome(j, 1, true), Outcome(Ran1(j, x, a), 0, false));
  }

  /** m completes and drops what the ledgers know of x. */
  lemma {:induction false} CompletesM(x: Migration, m: Migration, a: string, j: Journal)
    requires m.actions == [] && IsDigest(m.digest) && Superseded(Entry(x, Up, a), m.name, Key(m), true)
    requires j.migs == [] && j.acts == [Entry(x, Up, a)]
    ensures RunBucket(j, [m], Up, KeysOf(j.migs), 1) == Outcome(j.(migs := [Key(m)], acts := []), 1, true)
  {
    RunsNone(j, m, 1);
    BucketOfOne(j, m, KeysOf(j.migs), 1);
    KeptEntry(m, Entry(x, Up, a));
    OwnStays(m, a);
    assert [] + [Key(m)] == [Key(m)];
  }

  lemma {:induction false} StartsOver(x: Migration, m: Migration, a: string, b: string, j: Journal)
    requires x.actions == [a, b] && a != b && x.name != m.name && IsDigest(x.digest) && IsDigest(m.digest)
    requires j.migs == [Key(m)] && j.acts == []
    ensures RunBucket(j, [x], Up, KeysOf(j.migs), 1) == Outcome(Ran1(j, x, a), 0, false)
  {
    if Key(x) == Key(m) { KeyUnique(x, m); }
    RunsHalf(j, x, a, b);
    BucketOfOne(j, x, KeysOf(j.migs), 1);
  }

  /** Completing m forgets what x had done, and x starts over. */
  lemma {:induction false} SecondHalf(stages: seq<Stage>, x: Migration, m: Migration, a: string, b: string, s: Deployed)
    requires LateAndEarly(stages, x, m, a, b) && HalfRun(s, x, a) && Superseded(Entry(x, Up, a), m.name, Key(m), true)
    ensures AfterPass([x, m], stages, s, PassInput(3, 1, RunsAll, true)).all == [Effect(x.name, a), Effect(x.name, a)]
  {
    var pass := PassInput(3, 1, RunsAll, true);
    var j := Asked(s, pass);
    var j' := j.(migs := [Key(m)], acts := []);
    PendingOfTwo(x, m, 3);
    BucketsOfTwo(stages, x, m, a, b);
    CompletesM(x, m, a, j);
    StartsOver(x, m, a, b, j');
    PassOfStages([x, m], stages, s, pass, [m], [x], Outcome(j', 1, true), Outcome(Ran1(j', x, a), 0, false));
    assert NewEffects(s.journal, Ran1(j', x, a)) == [Effect(x.name, a)];
  }

  // ---- two migrations in one stage ----

  const APP := Stage("app", "")

  /** Both are crossed by the transition to 2 and anchored to the first stage. */
  predicate Together(x: Migration, m: Migration) {
    && x.to == 2 && m.to == 2 && x.from == [] && m.from == [] && x.stage == "" && m.stage == ""
    && IsDigest(x.digest) && IsDigest(m.digest) && x.name != m.name
  }

  lemma {:induction false} OneBucket(x: Migration, m: Migration)
    requires Together(x, m)
    ensures Anchored([APP], [x, m]) && Bucket([APP], [x, m], "app") == [x, m]
  {
    assert [x, m][..1] == [x] && [x][..0] == [];
    assert AnchorOf([APP], "") == "app";
    assert Bucket([APP], [x], "app") == Bucket([APP], [], "app") + [x];
  }

  lemma {:induction false} LoopOfOne(step: StageStep, j: Journal, budget: nat)
    ensures RunLoop(step, j, 0, 1, budget, StopsAfter(0)) == step(j, 0, budget).(ok := false)
  {
  }

  /** One pass over x and then m in one stage, which fails behind them. */
  lemma {:induction false} PassOfTwo(x: Migration, m: Migration, s: Deployed, budget: nat)
    requires Together(x, m) && s.version == 1
    ensures var j := Asked(s, PassInput(2, budget, StopsAfter(0), true));
      var o := RunBucket(j, [x, m], Up, KeysOf(j.migs), budget);
      AfterPass([x, m], [APP], s, PassInput(2, budget, StopsAfter(0), true)) ==
      Deployed(1, o.j, s.all + NewEffects(s.journal, o.j), s.lost)
  {
    var pass := PassInput(2, budget, StopsAfter(0), true);
    PendingOfTwo(x, m, 2);
    OneBucket(x, m);
    LoopOfOne(MigrationsOf([APP], [x, m], Up), Asked(s, pass), budget);
  }

  /** A migration of one action completes from empty ledgers. */
  lemma {:induction false} CompletesX(x: Migration, a: string, j: Journal, budget: nat)
    requires x.actions == [a] && IsDigest(x.digest) && j.migs == [] && j.acts == [] && j.effects == [] && budget > 0
    ensures RunOne(j, x, Up, budget) ==
      Outcome(j.(migs := [Key(x)], acts := [Entry(x, Up, a)], effects := [Effect(x.name, a)]), budget - 1, true)
  {
    RunsOne(j, x, a, budget);
    OwnStays(x, a);
    assert [] + [Entry(x, Up, a)] == [Entry(x, Up, a)] && [] + [Key(x)] == [Key(x)];
    assert [] + [Effect(x.name, a)] == [Effect(x.name, a)];
  }

  lemma {:induction false} BucketSkips(x: Migration, m: Migration, a: string, c: string, b: string, j: Journal)
    requires Together(x, m) && x.actions == [a] && m.actions == [c, b]
    requires Entry(m, Up, c) == Entry(x, Up, a) && Entry(m, Up, b) != Entry(x, Up, a)
    requires j.migs == [] && j.acts == [] && j.effects == []
    ensures RunBucket(j, [x, m], Up, KeysOf(j.migs), 2).j.effects == [Effect(x.name, a), Effect(m.name, b)]
  {
    CompletesX(x, a, j, 2);
    BucketOfTwo(j, x, m, KeysOf(j.migs), 2);
    SecondSkips(x, m, a, c, b, RunOne(j, x, Up, 2).j, KeysOf(j.migs) + {Key(x)});
  }

  lemma {:induction false} SecondSkips(x: Migration, m: Migration, a: string, c: string, b: string, j: Journal,
          done: set<string>)
    requires Together(x, m) && m.actions == [c, b] && done == {Key(x)}
    requires Entry(m, Up, c) == Entry(x, Up, a) && Entry(m, Up, b) != Entry(x, Up, a)
    requires j.acts == [Entry(x, Up, a)] && j.effects == [Effect(x.name, a)]
    ensures RunBucket(j, [m], Up, done, 1).j.effects == [Effect(x.name, a), Effect(m.name, b)]
  {
    RunsSecond(j, m, c, b);
    if Key(x) == Key(m) { KeyUnique(x, m); }
    BucketOfOne(j, m, done, 1);
    TwoOf(Effect(x.name, a), Effect(m.name, b));
  }

  lemma {:induction false} TwoOf<T>(a: T, b: T)
    ensures [a] + [b] == [a, b]
  {
  }

  /** x's entry reads as one for m's first action c, which then never runs. */
  lemma {:induction false} NestedSkips(x: Migration, m: Migration, a: string, c: string, b: string, s: Deployed)
    requires Together(x, m) && x.actions == [a] && m.actions == [c, b]
    requires Entry(m, Up, c) == Entry(x, Up, a) && Entry(m, Up, b) != Entry(x, Up, a) && s == Deployed(1, EMPTY, [], [])
    ensures AfterPass([x, m], [APP], s, PassInput(2, 2, StopsAfter(0), true)).all ==
      [Effect(x.name, a), Effect(m.name, b)]
  {
    PassOfTwo(x, m, s, 2);
    BucketSkips(x, m, a, c, b, Asked(s, PassInput(2, 2, StopsAfter(0), true)));
  }

  // ---- the exact condition ----

  /** Of two digests at least one is not the one a name embeds. */
  lemma {:induction false} FreeDigest(n: string, n': string) returns (d: string)
    ensures IsDigest(d) && !(n + "@" + d + "/" <= n')
  {
    d := "000000000000";
    if n + "@" + d + "/" <= n' {
      assert n'[|n| + 1] == '0';
      d := "111111111111";
      assert (n + "@" + d + "/")[|n| + 1] == '1';
    }
  }

  lemma {:induction false} TwiceIsNotOnce(ladder: seq<Migration>, s: Deployed, x: Migration)
    requires x in ladder && s.all == [Effect(x.name, "s"), Effect(x.name, "s")]
    ensures !OnceInOrder(ladder, s)
  {
    RanHas(s.all, Effect(x.name, "s"));
    if OnceInOrder(ladder, s) { DistinctOnce(Ran(s.all, x.name), "s"); }
  }

  lemma {:induction false} TwoStages() returns (stages: seq<Stage>)
    ensures |stages| == 2 && stages[0].name == "early" && stages[1].name == "late"
    ensures AnchorOf(stages, "early") == "early" && AnchorOf(stages, "late") == "late"
  {
    var early, late := Stage("early", ""), Stage("late", "");
    stages := [early, late];
    assert stages[1..] == [late] && [late][1..] == [];
    assert NameWhere([late], "early", true) == NameWhere([], "early", true) == "";
    assert NameWhere([late], "late", true) == NameWhere([], "late", true) == "";
    assert NameWhere(stages, "early", true) == "" && NameWhere(stages, "late", true) == "";
    assert NameWhere(stages, "late", false) == NameWhere([late], "late", false) == "late";
  }

  lemma {:induction false} AfterOne(ladder: seq<Migration>, stages: seq<Stage>, p: PassInput)
    ensures After(ladder, stages, 1, [p]) == AfterPass(ladder, stages, Deployed(1, EMPTY, [], []), p)
  {
    assert [p][..0] == [];
  }

  lemma {:induction false} AfterTwo(ladder: seq<Migration>, stages: seq<Stage>, p: PassInput, q: PassInput)
    ensures After(ladder, stages, 1, [p, q]) == AfterPass(ladder, stages, After(ladder, stages, 1, [p]), q)
  {
    assert [p, q][..1] == [p];
  }

  /** The late migration bears the name that goes on, the early one the name before its first '@' or '/'. */
  lemma {:induction false} HeadForgets(stages: seq<Stage>, x: Migration, m: Migration, a: string, b: string,
          p: PassInput, q: PassInput)
    requires LateAndEarly(stages, x, m, a, b) && Head(x.name) == m.name && !(Key(m) + "/" <= x.name)
    requires p == PassInput(2, 1, RunsAll, true) && q == PassInput(3, 1, RunsAll, true)
    ensures After([x, m], stages, 1, [p, q]).all == [Effect(x.name, a), Effect(x.name, a)]
  {
    HeadIsIff(m.name, x.name);
    PrunesExactly(m, x, Up, a);
    AfterOne([x, m], stages, p);
    FirstHalf(stages, x, m, a, b, Deployed(1, EMPTY, [], []));
    SecondHalf(stages, x, m, a, b, After([x, m], stages, 1, [p]));
    AfterTwo([x, m], stages, p, q);
  }

  lemma {:induction false} LatePair(n: string, n': string, d: string, stages: seq<Stage>)
    returns (x: Migration, m: Migration)
    requires |stages| == 2 && stages[0].name == "early" && stages[1].name == "late"
    requires AnchorOf(stages, "early") == "early" && AnchorOf(stages, "late") == "late"
    requires n != n' && n != "" && n' != "" && IsDigest(d)
    ensures LateAndEarly(stages, x, m, "s", "f") && Validated([x, m])
    ensures x.name == n' && m.name == n && m.digest == d
  {
    x := Migration(n', d, 2, [], "late", ["s", "f"], []);
    m := Migration(n, d, 3, [], "early", [], []);
  }

  /** A name whose part before its first '@' or '/' is another name: completing the other forgets its actions. */
  lemma {:induction false} HeadRunsTwice(n: string, n': string)
    returns (x: Migration, m: Migration, stages: seq<Stage>, passes: seq<PassInput>)
    requires n != n' && n != "" && n' != "" && Head(n') == n
    ensures x.name == n' && m.name == n && Validated([x, m]) && AllStored(passes)
    ensures !OnceInOrder([x, m], After([x, m], stages, 1, passes))
  {
    var d := FreeDigest(n, n');
    var p, q := PassInput(2, 1, RunsAll, true), PassInput(3, 1, RunsAll, true);
    passes := [p, q];
    stages := TwoStages();
    x, m := LatePair(n, n', d, stages);
    HeadForgets(stages, x, m, "s", "f", p, q);
    TwiceIsNotOnce([x, m], After([x, m], stages, 1, passes), x);
  }

  lemma {:induction false} SkippedIsNotInOrder(ladder: seq<Migration>, s: Deployed, x: Migration, m: Migration,
          a: string, c: string, b: string)
    requires m in ladder && m.name != x.name && m.actions == [c, b] && m.down == [] && c != b
    requires s.all == [Effect(x.name, a), Effect(m.name, b)]
    ensures !OnceInOrder(ladder, s)
  {
    var e, f := Effect(x.name, a), Effect(m.name, b);
    assert [e, f][..1] == [e] && [e][..0] == [];
    assert Ran([e], m.name) == Ran([], m.name) + [];
    assert Ran(s.all, m.name) == [b];
    assert [b][0] != [c, b][0];
  }

  lemma {:induction false} NestedPair(n: string, n': string, d: string)
    returns (x: Migration, m: Migration, c: string)
    requires n != n' && n != "" && n' != "" && Embeds(n, n') && IsDigest(d)
    ensures x.name == n' && m.name == n && Validated([x, m]) && Together(x, m) && c != "f"
    ensures x.actions == ["s"] && m.actions == [c, "f"] && m.down == [] && Entry(m, Up, c) == Entry(x, Up, "s")
  {
    c := n'[|n| + 14..] + "@" + d + "/" + "s";
    x := Migration(n', d, 2, [], "", ["s"], []);
    m := Migration(n, n'[|n| + 1..|n| + 13], 2, [], "", [c, "f"], []);
    EmbedNests(m, x, c, "s");
    assert |c| > 1;
  }

  /** A name that begins with another, an '@', twelve digits and a '/': the other's action can be taken for done. */
  lemma {:induction false} EmbedSkips(n: string, n': string)
    returns (x: Migration, m: Migration, stages: seq<Stage>, passes: seq<PassInput>)
    requires n != n' && n != "" && n' != "" && Embeds(n, n')
    ensures x.name == n' && m.name == n && Validated([x, m]) && AllStored(passes)
    ensures !OnceInOrder([x, m], After([x, m], stages, 1, passes))
  {
    var d := FreeDigest(n, n');
    var c;
    x, m, c := NestedPair(n, n', d);
    stages, passes := [APP], [PassInput(2, 2, StopsAfter(0), true)];
    EntryInjective(m, c, "f");
    NestedSkips(x, m, "s", c, "f", Deployed(1, EMPTY, [], []));
    AfterOne([x, m], stages, passes[0]);
    SkippedIsNotInOrder([x, m], After([x, m], stages, 1, passes), x, m, "s", c, "f");
  }

  lemma {:induction false} EmbedNests(m: Migration, x: Migration, c: string, a: string)
    requires IsDigest(m.digest) && IsDigest(x.digest) && Embeds(m.name, x.name)
    requires m.digest == x.name[|m.name| + 1..|m.name| + 13]
    requires c == x.name[|m.name| + 14..] + "@" + x.digest + "/" + a
    ensures Entry(m, Up, c) == Entry(x, Up, a)
  {
    var k := |m.name|;
    assert x.name == x.name[..k + 1] + x.name[k + 1..k + 13] + x.name[k + 13..k + 14] + x.name[k + 14..];
    assert x.name[..k + 1] == m.name + "@" && x.name[k + 13..k + 14] == "/";
    assert x.name == Key(m) + "/" + x.name[k + 14..];
    EntriesMeetIff(m, Up, c, x, Up, a);
  }

  /**
   A set of migration names is safe, for every ladder that uses them, every stage list and every run of stored
   passes, if and only if no name of it shadows another: is not the part of another before its first '@' or '/', and
   not followed in another by an '@', twelve hexadecimal digits and a '/'.
   */
  lemma {:induction false} OnceIffNamesApart(names: set<string>)
    requires "" !in names
    ensures AlwaysOnce(names) <==> NamesApart(names)
  {
    if NamesApart(names) {
      forall ladder: seq<Migration>, stages: seq<Stage>, start: Version, passes: seq<PassInput>
        | Uses(ladder, names) && AllStored(passes)
        ensures OnceInOrder(ladder, After(ladder, stages, start, passes))
      {
        ApartStaysOnce(ladder, stages, start, passes);
      }
    } else {
      var n, n' :| n in names && n' in names && Shadows(n, n');
      if Head(n') == n {
        var x, m, stages, passes := HeadRunsTwice(n, n');
        NotAlways(names, [x, m], stages, passes);
      } else {
        var x, m, stages, passes := EmbedSkips(n, n');
        NotAlways(names, [x, m], stages, passes);
      }
    }
  }

  lemma {:induction false} NotAlways(names: set<string>, ladder: seq<Migration>, stages: seq<Stage>,
          passes: seq<PassInput>)
    requires Uses(ladder, names) && AllStored(passes) && !OnceInOrder(ladder, After(ladder, stages, 1, passes))
    ensures !AlwaysOnce(names)
  {
  }

  // ---- a destructive action repeated within one transition ----

  /**
   In one stage and at one version: "a@x" runs its action and completes, then "a" completes and drops both of the
   other's entries. The stage fails behind them, and the retry runs the first action again. Every status is stored.
   */
  lemma {:induction false} CompletionRepeatsAnother(x: Migration, m: Migration, a: string, b: string)
    requires Prunes(x, m, a, b)
    ensures After([x, m], [APP], 1, [PassInput(2, 2, StopsAfter(0), true), PassInput(2, 1, StopsAfter(0), true)]).all ==
      [Effect(x.name, a), Effect(m.name, b), Effect(x.name, a)]
  {
    var p, q := PassInput(2, 2, StopsAfter(0), true), PassInput(2, 1, StopsAfter(0), true);
    AfterOne([x, m], [APP], p);
    RepeatFirst(x, m, a, b, Deployed(1, EMPTY, [], []));
    RepeatSecond(x, m, a, b, After([x, m], [APP], 1, [p]));
    AfterTwo([x, m], [APP], p, q);
  }

  /** The two of them, each of one action; m's name is plain and x's goes on behind it with an '@'. */
  predicate Prunes(x: Migration, m: Migration, a: string, b: string) {
    && Together(x, m) && x.actions == [a] && m.actions == [b]
    && Plain(m.name) && m.name + "@" <= x.name && !(Key(m) + "/" <= x.name)
  }

  /** The ledgers once x has completed, and once m has completed over it. */
  predicate KnowsX(j: Journal, x: Migration, a: string) {
    j.migs == [Key(x)] && j.acts == [Entry(x, Up, a)] && j.effects == [Effect(x.name, a)]
  }

  predicate KnowsM(j: Journal, x: Migration, m: Migration, a: string, b: string) {
    && j.migs == [Key(m)] && j.acts == [Entry(m, Up, b)]
    && j.effects == [Effect(x.name, a), Effect(m.name, b)]
  }

  /** Both have run, and the ledgers know m only. */
  predicate Forgotten(s: Deployed, x: Migration, m: Migration, a: string, b: string) {
    s.version == 1 && s.lost == [] && KnowsM(s.journal, x, m, a, b) && s.all == s.journal.effects
  }

  lemma {:induction false} PrunesBoth(x: Migration, m: Migration, a: string, b: string)
    requires Prunes(x, m, a, b)
    ensures Superseded(Entry(x, Up, a), m.name, Key(m), true) && Superseded(Key(x), m.name, Key(m), false)
    ensures !Superseded(Entry(m, Up, b), m.name, Key(m), true) && Key(x) != Key(m)
    ensures Entry(m, Up, b) != Entry(x, Up, a)
  {
    PrunesExactly(m, x, Up, a);
    PrunesKeyExactly(m, x);
    UnshadowedKeepsEntries(m, m, Up, b);
    if Key(x) == Key(m) { KeyUnique(x, m); }
  }

  lemma {:induction false} ClosesOver(x: Migration, m: Migration, a: string, b: string, j: Journal)
    requires Prunes(x, m, a, b) && KnowsX(j, x, a)
    ensures KnowsM(Closed(Ran1(j, m, b), m, Up), x, m, a, b)
  {
    PrunesBoth(x, m, a, b);
    KeptTwo(m.name, Key(m), true, Entry(x, Up, a), Entry(m, Up, b));
    KeptTwo(m.name, Key(m), false, Key(x), Key(m));
    TwoOf(Entry(x, Up, a), Entry(m, Up, b));
    TwoOf(Key(x), Key(m));
    TwoOf(Effect(x.name, a), Effect(m.name, b));
  }

  lemma {:induction false} CompletesOver(x: Migration, m: Migration, a: string, b: string, j: Journal)
    returns (j': Journal)
    requires Prunes(x, m, a, b) && KnowsX(j, x, a)
    ensures RunBucket(j, [m], Up, {Key(x)}, 1) == Outcome(j', 0, true) && KnowsM(j', x, m, a, b)
  {
    PrunesBoth(x, m, a, b);
    j' := Closed(Ran1(j, m, b), m, Up);
    ClosesOver(x, m, a, b, j);
    RunsOne(j, m, b, 1);
    BucketOfOne(j, m, {Key(x)}, 1);
  }

  lemma {:induction false} RepeatFirst(x: Migration, m: Migration, a: string, b: string, s: Deployed)
    requires Prunes(x, m, a, b) && s == Deployed(1, EMPTY, [], [])
    ensures Forgotten(AfterPass([x, m], [APP], s, PassInput(2, 2, StopsAfter(0), true)), x, m, a, b)
  {
    var j := Asked(s, PassInput(2, 2, StopsAfter(0), true));
    PassOfTwo(x, m, s, 2);
    CompletesX(x, a, j, 2);
    BucketOfTwo(j, x, m, KeysOf(j.migs), 2);
    assert KeysOf(j.migs) + {Key(x)} == {Key(x)};
    var _ := CompletesOver(x, m, a, b, RunOne(j, x, Up, 2).j);
  }

  lemma {:induction false} BucketRepeats(x: Migration, m: Migration, a: string, b: string, j: Journal)
    requires Prunes(x, m, a, b) && KnowsM(j, x, m, a, b)
    ensures RunBucket(j, [x, m], Up, KeysOf(j.migs), 1).j.effects == j.effects + [Effect(x.name, a)]
  {
    PrunesBoth(x, m, a, b);
    RunsOne(j, x, a, 1);
    BucketOfTwo(j, x, m, KeysOf(j.migs), 1);
    SkipsDone(RunOne(j, x, Up, 1).j, m, KeysOf(j.migs) + {Key(x)});
  }

  lemma {:induction false} RepeatSecond(x: Migration, m: Migration, a: string, b: string, s: Deployed)
    requires Prunes(x, m, a, b) && Forgotten(s, x, m, a, b)
    ensures AfterPass([x, m], [APP], s, PassInput(2, 1, StopsAfter(0), true)).all ==
      [Effect(x.name, a), Effect(m.name, b), Effect(x.name, a)]
  {
    PassOfTwo(x, m, s, 1);
    BucketRepeats(x, m, a, b, Asked(s, PassInput(2, 1, StopsAfter(0), true)));
  }

  lemma {:induction false} SkipsDone(j: Journal, m: Migration, done: set<string>)
    requires Key(m) in done
    ensures RunBucket(j, [m], Up, done, 0) == Outcome(j, 0, true)
  {
    assert [m][1..] == [];
  }
}
