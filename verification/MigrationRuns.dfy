/**
 Passes of the stage loop over a pending version transition: failing, interrupted and retried, with
 the per-migration and per-action ledgers persisted between them, until one pass succeeds in full.
 */
module MigrationRuns {
  import opened Strings
  import opened Migrations

  /** An action that took effect. */
  datatype Effect = Effect(name: string, action: string)

  /**
   The persisted ledgers, with two history variables: the actions that took effect since the ledgers were
   last cleared, and the versions asked for since then.
   */
  datatype Journal = Journal(migs: seq<string>, acts: seq<string>, effects: seq<Effect>, asked: set<Version>)

  const EMPTY := Journal([], [], [], {})

  function Acts(m: Migration, dir: Direction): seq<string> {
    if dir.Up? then m.actions else m.down
  }

  /** What ladder validation grants, and the shape of a digest. */
  predicate Validated(ladder: seq<Migration>) {
    && (forall m <- ladder :: IsDigest(m.digest) && Distinct(m.actions) && Distinct(m.down))
    && (forall m <- ladder :: m.name != "" && "" !in m.actions && "" !in m.down)
    && (forall m <- ladder, m' <- ladder :: m.name == m'.name ==> m == m')
  }

  /** A validated ladder in which no name shadows another, which nothing enforces. */
  predicate ValidLadder(ladder: seq<Migration>) {
    && Validated(ladder)
    && (forall m <- ladder, m' <- ladder :: !Shadows(m.name, m'.name))
  }

  // ---- one action: the executor's bounded retry ----

  datatype Dispatch = Succeeded | Transient | Terminal | Cancelled

  /** Retries a transient failure up to the budget; stops at the first success, terminal error or cancellation. */
  method Exec(outcomes: seq<Dispatch>, retries: nat) returns (ok: bool, dispatched: nat)
    requires |outcomes| == retries + 1
    ensures 1 <= dispatched <= retries + 1
    ensures forall i | 0 <= i < dispatched - 1 :: outcomes[i] == Transient
    ensures ok <==> outcomes[dispatched - 1] == Succeeded
    ensures ok <==> exists k | 0 <= k <= retries :: outcomes[k] == Succeeded && forall i | 0 <= i < k ::
      outcomes[i] == Transient
  {
    ok, dispatched := false, 0;
    while dispatched <= retries
      invariant 0 <= dispatched <= retries + 1 && !ok
      invariant forall i | 0 <= i < dispatched :: outcomes[i] == Transient
    {
      dispatched := dispatched + 1;
      match outcomes[dispatched - 1]
      case Succeeded =>
        ok := true;
        return;
      case Terminal => return;
      case Cancelled => return;
      case Transient =>
    }
  }

  // ---- one migration ----

  function Undone(acts: seq<string>, key: string, ledger: seq<string>): seq<string> {
    if acts == [] then []
    else (if key + "/" + acts[0] in ledger then [] else [acts[0]]) + Undone(acts[1..], key, ledger)
  }

  /** done holds the actions recorded under the key. */
  ghost predicate Mirrors(done: set<string>, key: string, ledger: seq<string>) {
    forall a {:trigger a in done} :: a in done <==> key + "/" + a in ledger
  }

  lemma {:induction false} UndoneStep(acts: seq<string>, i: nat, key: string, ledger: seq<string>, done: set<string>)
    requires i < |acts| && Mirrors(done, key, ledger)
    ensures Undone(acts[i..], key, ledger) ==
      (if acts[i] in done then [] else [acts[i]]) + Undone(acts[i + 1..], key, ledger)
  {
    assert acts[i..][1..] == acts[i + 1..];
  }

  function EntriesFor(key: string, acts: seq<string>): seq<string> {
    seq(|acts|, i requires 0 <= i < |acts| => key + "/" + acts[i])
  }

  function EffectsOf(name: string, acts: seq<string>): seq<Effect> {
    seq(|acts|, i requires 0 <= i < |acts| => Effect(name, acts[i]))
  }

  function Recorded(j: Journal, m: Migration, dir: Direction, ran: seq<string>): Journal {
    j.(acts := j.acts + EntriesFor(LedgerKey(m, dir), ran), effects := j.effects + EffectsOf(m.name, ran))
  }

  /** One more action recorded. */
  function RecordedOne(j: Journal, m: Migration, dir: Direction, a: string): Journal {
    j.(acts := j.acts + [LedgerKey(m, dir) + "/" + a], effects := j.effects + [Effect(m.name, a)])
  }

  lemma {:induction false} RecordedAppend(j: Journal, m: Migration, dir: Direction, ran: seq<string>, a: string)
    ensures Recorded(j, m, dir, ran + [a]) == RecordedOne(Recorded(j, m, dir, ran), m, dir, a)
  {
    assert EntriesFor(LedgerKey(m, dir), ran + [a]) ==
      EntriesFor(LedgerKey(m, dir), ran) + [LedgerKey(m, dir) + "/" + a];
    assert EffectsOf(m.name, ran + [a]) == EffectsOf(m.name, ran) + [Effect(m.name, a)];
  }

  /** Of todo the first n are recorded and `rest` remains. */
  ghost predicate RanPart(start: Journal, m: Migration, dir: Direction, todo: seq<string>, n: nat, rest: seq<string>,
          now: Journal) {
    n <= |todo| && todo[n..] == rest && now == Recorded(start, m, dir, todo[..n])
  }

  lemma {:induction false} NothingRan(start: Journal, m: Migration, dir: Direction, todo: seq<string>)
    ensures RanPart(start, m, dir, todo, 0, todo, start)
  {
    assert EntriesFor(LedgerKey(m, dir), []) == [] && EffectsOf(m.name, []) == [];
  }

  lemma {:induction false} AllRan(start: Journal, m: Migration, dir: Direction, todo: seq<string>, n: nat, now: Journal)
    requires RanPart(start, m, dir, todo, n, [], now)
    ensures n == |todo| && now == Recorded(start, m, dir, todo)
  {
    assert |todo[n..]| == 0;
    assert todo[..n] == todo;
  }

  lemma {:induction false} RanNext(start: Journal, m: Migration, dir: Direction, todo: seq<string>, n: nat, a: string,
          rest: seq<string>, now: Journal)
    requires RanPart(start, m, dir, todo, n, [a] + rest, now)
    ensures n < |todo| && now == Recorded(start, m, dir, todo[..n])
    ensures RanPart(start, m, dir, todo, n + 1, rest, RecordedOne(now, m, dir, a))
  {
    assert todo[n..][0] == a && todo[n..][1..] == rest;
    assert todo[..n + 1] == todo[..n] + [a];
    RecordedAppend(start, m, dir, todo[..n], a);
  }

  /** A completed migration enters the ledger; an upgrade also prunes the entries of superseded content. */
  function Closed(j: Journal, m: Migration, dir: Direction): Journal {
    var migs := j.migs + [Key(m)];
    if dir.Down? then j.(migs := migs)
    else j.(migs := Kept(migs, m.name, Key(m), false), acts := Kept(j.acts, m.name, Key(m), true))
  }

  datatype Outcome = Outcome(j: Journal, left: nat, ok: bool)

  /** Of the actions still to do, `budget` succeed before one fails. */
  function RunTodo(j: Journal, m: Migration, dir: Direction, budget: nat, todo: seq<string>): Outcome {
    if budget < |todo| then Outcome(Recorded(j, m, dir, todo[..budget]), 0, false)
    else Outcome(Closed(Recorded(j, m, dir, todo), m, dir), budget - |todo|, true)
  }

  function RunOne(j: Journal, m: Migration, dir: Direction, budget: nat): Outcome {
    RunTodo(j, m, dir, budget, Undone(Acts(m, dir), LedgerKey(m, dir), j.acts))
  }

  function KeysOf(migs: seq<string>): set<string> {
    set k | k in migs
  }

  function RunBucket(j: Journal, bucket: seq<Migration>, dir: Direction, done: set<string>, budget: nat): Outcome
    decreases |bucket|
  {
    if bucket == [] then Outcome(j, budget, true)
    else if Key(bucket[0]) in done then RunBucket(j, bucket[1..], dir, done, budget)
    else
      var o := RunOne(j, bucket[0], dir, budget);
      if !o.ok then o else RunBucket(o.j, bucket[1..], dir, done + {Key(bucket[0])}, o.left)
  }

  // ---- one pass of the stage loop ----

  /**
   How a pass leaves the stage loop once the migrations before it succeed: it runs every stage, or it stops at
   one, failing or holding, before or after that stage's migrations.
   */
  datatype Exit = RunsAll | StopsBefore(stage: nat) | StopsAfter(stage: nat)

  /** `stored` says whether the pass's status reaches the API server; of its actions `budget` succeed. */
  datatype PassInput = PassInput(desired: Version, budget: nat, exit: Exit, stored: bool)

  /**
   The stored status, with two more history variables since the ledgers were last cleared: every action that
   took effect, in order, and those among them that ran in a pass whose status was lost.
   */
  datatype Deployed = Deployed(version: Version, journal: Journal, all: seq<Effect>, lost: seq<Effect>)

  /** What the loop does for one stage's migrations, given the ledgers, the stage and the budget left. */
  type StageStep = (Journal, nat, nat) -> Outcome

  function MigrationsOf(stages: seq<Stage>, pending: seq<Migration>, dir: Direction): StageStep {
    (j: Journal, i: nat, budget: nat) =>
      if i < |stages| then RunBucket(j, Bucket(stages, pending, stages[i].name), dir, KeysOf(j.migs), budget)
      else Outcome(j, budget, true)
  }

  /** The loop over stages i..count; ok means that it returned no error. */
  function RunLoop(step: StageStep, j: Journal, i: nat, count: nat, budget: nat, exit: Exit): Outcome
    requires i <= count
    decreases count - i
  {
    if i == count then Outcome(j, budget, true)
    else if exit == StopsBefore(i) then Outcome(j, budget, false)
    else
      var o := step(j, i, budget);
      if !o.ok then o
      else if exit == StopsAfter(i) then Outcome(o.j, o.left, false)
      else RunLoop(step, o.j, i + 1, count, o.left, exit)
  }

  function DirectionTo(current: Version, desired: Version): Direction {
    if desired < current then Down else Up
  }

  predicate Anchored(stages: seq<Stage>, pending: seq<Migration>) {
    forall m <- pending :: AnchorOf(stages, m.stage) != ""
  }

  function Loop(ladder: seq<Migration>, stages: seq<Stage>, s: Deployed, pass: PassInput): Outcome {
    var step := MigrationsOf(stages, Pending(ladder, s.version, pass.desired), DirectionTo(s.version, pass.desired));
    RunLoop(step, s.journal.(asked := s.journal.asked + {pass.desired}), 0, |stages|, pass.budget, pass.exit)
  }

  /** The actions that took effect between two journals of one pass. */
  function NewEffects(j: Journal, j': Journal): seq<Effect> {
    if |j.effects| <= |j'.effects| then j'.effects[|j.effects|..] else []
  }

  /**
   A pass: an unresolved anchor fails closed; a loop without error records the version and clears the ledgers.
   When the status write is lost, the next pass finds version and ledgers as they were.
   */
  function AfterPass(ladder: seq<Migration>, stages: seq<Stage>, s: Deployed, pass: PassInput): Deployed {
    if !Anchored(stages, Pending(ladder, s.version, pass.desired)) then s
    else
      var o := Loop(ladder, stages, s, pass);
      var ran := NewEffects(s.journal, o.j);
      if !pass.stored then
        var asked := s.journal.asked + {pass.desired};
        Deployed(s.version, s.journal.(asked := asked), s.all + ran, s.lost + ran)
      else if o.ok then Deployed(pass.desired, EMPTY, [], [])
      else Deployed(s.version, o.j, s.all + ran, s.lost)
  }

  // ---- the same, on the status object the controller mutates ----

  class StageSetStatus {
    var version: Version
    var executedMigrations: seq<string>
    var executedMigrationActions: seq<string>
    ghost var effects: seq<Effect>
    ghost var asked: set<Version>
    ghost var all: seq<Effect>
    ghost var lost: seq<Effect>

    ghost function Ledgers(): Journal
      reads this
    {
      Journal(executedMigrations, executedMigrationActions, effects, asked)
    }

    ghost function State(): Deployed
      reads this
    {
      Deployed(version, Ledgers(), all, lost)
    }

    method RecordAction(m: Migration, dir: Direction, a: string)
      modifies this`executedMigrationActions, this`effects
      ensures Ledgers() == RecordedOne(old(Ledgers()), m, dir, a)
    {
      executedMigrationActions := executedMigrationActions + [LedgerKey(m, dir) + "/" + a];
      effects := effects + [Effect(m.name, a)];
    }

    /** Runs the actions not done, recording each before the next; the first failure stops. */
    method RunActions(m: Migration, dir: Direction, done: set<string>, budget: nat) returns (left: nat, ok: bool)
      requires Mirrors(done, LedgerKey(m, dir), executedMigrationActions)
      modifies this`executedMigrationActions, this`effects
      ensures var acts := if dir == Down then m.down else m.actions;
        var todo := Undone(acts, LedgerKey(m, dir), old(executedMigrationActions));
        && (ok <==> |todo| <= budget)
        && left == (if ok then budget - |todo| else 0)
        && Ledgers() == Recorded(old(Ledgers()), m, dir, if ok then todo else todo[..budget])
    {
      ghost var start := Ledgers();
      var acts, key := Acts(m, dir), LedgerKey(m, dir);
      ghost var todo := Undone(acts, key, start.acts);
      left, ok := budget, true;
      ghost var n, rest := 0, todo;
      NothingRan(start, m, dir, todo);
      assert acts[0..] == acts;
      for i := 0 to |acts|
        invariant ok && left + n == budget
        invariant rest == Undone(acts[i..], key, start.acts)
        invariant RanPart(start, m, dir, todo, n, rest, Ledgers())
      {
        UndoneStep(acts, i, key, start.acts, done);
        if acts[i] !in done {
          rest := Undone(acts[i + 1..], key, start.acts);
          RanNext(start, m, dir, todo, n, acts[i], rest, Ledgers());
          if left == 0 {
            ok := false;
            return;
          }
          RecordAction(m, dir, acts[i]);
          left, n := left - 1, n + 1;
        }
      }
      assert rest == [];
      AllRan(start, m, dir, todo, n, Ledgers());
    }

    /** Runs one migration and, once all its actions are done, records it and prunes what it supersedes. */
    method RunMigration(m: Migration, dir: Direction, budget: nat) returns (left: nat, ok: bool)
      modifies this`executedMigrations, this`executedMigrationActions, this`effects
      ensures Outcome(Ledgers(), left, ok) == RunOne(old(Ledgers()), m, dir, budget)
    {
      var actionsDone := ActionsDoneFor(executedMigrationActions, LedgerKey(m, dir));
      left, ok := RunActions(m, dir, actionsDone, budget);
      if !ok { return; }
      executedMigrations := executedMigrations + [Key(m)];
      if dir.Up? {
        executedMigrations := DropSupersededLedger(executedMigrations, m.name, Key(m), false);
        executedMigrationActions := DropSupersededLedger(executedMigrationActions, m.name, Key(m), true);
      }
    }

    method RunStageMigrations(bucket: seq<Migration>, dir: Direction, budget: nat) returns (left: nat, ok: bool)
      modifies this`executedMigrations, this`executedMigrationActions, this`effects
      ensures Outcome(Ledgers(), left, ok) ==
        RunBucket(old(Ledgers()), bucket, dir, KeysOf(old(executedMigrations)), budget)
    {
      var doneMig := KeysOf(executedMigrations);
      left, ok := budget, true;
      ghost var first := RunBucket(Ledgers(), bucket, dir, doneMig, budget);
      assert bucket[0..] == bucket;
      for i := 0 to |bucket|
        invariant ok && first == RunBucket(Ledgers(), bucket[i..], dir, doneMig, left)
      {
        var m := bucket[i];
        assert bucket[i..][1..] == bucket[i + 1..];
        if Key(m) in doneMig { continue; }
        left, ok := RunMigration(m, dir, left);
        if !ok { return; }
        doneMig := doneMig + {Key(m)};
      }
    }

    /** The stage loop over the anchored migrations; ok means that it returned no error. */
    method RunStages(stages: seq<Stage>, pending: seq<Migration>, byStage: map<string, seq<Migration>>, dir: Direction,
            pass: PassInput) returns (left: nat, ok: bool)
      requires (forall s <- stages :: s.name != "") && Bucketed(stages, pending, byStage)
      modifies this`executedMigrations, this`executedMigrationActions, this`effects
      ensures Outcome(Ledgers(), left, ok) ==
        RunLoop(MigrationsOf(stages, pending, dir), old(Ledgers()), 0, |stages|, pass.budget, pass.exit)
    {
      left, ok := pass.budget, true;
      ghost var step := MigrationsOf(stages, pending, dir);
      ghost var whole := RunLoop(step, Ledgers(), 0, |stages|, left, pass.exit);
      for i := 0 to |stages|
        invariant ok && whole == RunLoop(step, Ledgers(), i, |stages|, left, pass.exit)
      {
        if pass.exit == StopsBefore(i) { return left, false; }
        assert stages[i] in stages;
        var bucket := BucketAt(byStage, stages[i].name);
        left, ok := RunStageMigrations(bucket, dir, left);
        if !ok || pass.exit == StopsAfter(i) { return left, false; }
      }
    }

    /** One pass over the status it read; what it leaves in the fields is what the API server holds afterwards. */
    method Reconcile(ladder: seq<Migration>, stages: seq<Stage>, pass: PassInput)
      requires forall s <- stages :: s.name != ""
      modifies this
      ensures State() == AfterPass(ladder, stages, old(State()), pass)
    {
      var pending, dir := Pending(ladder, version, pass.desired), DirectionTo(version, pass.desired);
      var resolved, byStage := ResolveAnchors(stages, pending);
      if !resolved { return; }
      var storedMigrations, storedActions := executedMigrations, executedMigrationActions;
      ghost var was := Ledgers();
      asked := asked + {pass.desired};
      var left, ok := RunStages(stages, pending, byStage, dir, pass);
      ghost var ran := NewEffects(was, Ledgers());
      if !pass.stored {
        executedMigrations, executedMigrationActions, effects := storedMigrations, storedActions, was.effects;
        all, lost := all + ran, lost + ran;
      } else if ok {
        version := pass.desired;
        executedMigrations, executedMigrationActions, effects, asked := [], [], [], {};
        all, lost := [], [];
      } else {
        all := all + ran;
      }
    }
  }

  // ---- what every run of passes keeps ----

  /** The actions of one migration that took effect, in the order they did. */
  function Ran(effects: seq<Effect>, name: string): seq<string> {
    if effects == [] then []
    else
      var last := effects[|effects| - 1];
      Ran(effects[..|effects| - 1], name) + if last.name == name then [last.action] else []
  }

  /**
   The ledgers know exactly which actions of m took effect, these are a prefix of its list, and only a version
   asked for explains them.
   */
  ghost predicate Tracks(j: Journal, m: Migration, current: Version) {
    var dir, ran := DirectionAt(m, current), Ran(j.effects, m.name);
    && ran <= Acts(m, dir)
    && Marked(Acts(m, dir), LedgerKey(m, dir), j.acts, |ran|)
    && (Key(m) in j.migs ==> ran == Acts(m, dir))
    && (ran != [] ==> Owed(j, m, current))
  }

  /** The ledger holds, under the key, exactly the first n of the actions. */
  ghost predicate Marked(acts: seq<string>, key: string, ledger: seq<string>, n: nat) {
    forall i | 0 <= i < |acts| :: key + "/" + acts[i] in ledger <==> i < n
  }

  /** Some version asked for makes the migration pending. */
  ghost predicate Owed(j: Journal, m: Migration, current: Version) {
    exists d <- j.asked :: d != current && Crosses(m, current, d)
  }

  /** Every ledger entry belongs to content of the ladder. */
  ghost predicate OwnKeys(ladder: seq<Migration>, j: Journal) {
    && (forall k <- j.migs :: exists m <- ladder :: k == Key(m))
    && (forall e <- j.acts :: exists m: Migration, dir: Direction, a: string :: m in ladder && e == Entry(m, dir, a))
  }

  ghost predicate Faithful(ladder: seq<Migration>, current: Version, j: Journal) {
    OwnKeys(ladder, j) && forall m <- ladder :: Tracks(j, m, current)
  }

  lemma {:induction false} RanConcat(a: seq<Effect>, b: seq<Effect>, name: string)
    ensures Ran(a + b, name) == Ran(a, name) + Ran(b, name)
  {
    if b == [] {
      assert a + b == a;
    } else {
      var init, last := b[..|b| - 1], b[|b| - 1];
      RanConcat(a, init, name);
      ConcatEnd(a, b);
      RanAppend(a + init, last, name);
      RanAppend(init, last, name);
    }
  }

  lemma {:induction false} ConcatEnd<T>(a: seq<T>, b: seq<T>)
    requires b != []
    ensures a + b == (a + b[..|b| - 1]) + [b[|b| - 1]] && b == b[..|b| - 1] + [b[|b| - 1]]
  {
  }

  lemma {:induction false} RanAppend(effects: seq<Effect>, e: Effect, name: string)
    ensures Ran(effects + [e], name) == Ran(effects, name) + if e.name == name then [e.action] else []
  {
    assert (effects + [e])[..|effects|] == effects;
  }

  lemma {:induction false} RanOfOne(name: string, acts: seq<string>, other: string)
    ensures Ran(EffectsOf(name, acts), other) == if name == other then acts else []
  {
    if acts != [] {
      var init, last := acts[..|acts| - 1], acts[|acts| - 1];
      RanOfOne(name, init, other);
      EffectsLast(name, acts);
      RanAppend(EffectsOf(name, init), Effect(name, last), other);
    }
  }

  lemma {:induction false} EffectsLast(name: string, acts: seq<string>)
    requires acts != []
    ensures var init, last := acts[..|acts| - 1], acts[|acts| - 1];
      acts == init + [last] && EffectsOf(name, acts) == EffectsOf(name, init) + [Effect(name, last)]
  {
  }

  lemma {:induction false} RanGrows(effects: seq<Effect>, name: string, acts: seq<string>, other: string)
    ensures Ran(effects + EffectsOf(name, acts), other) == Ran(effects, other) + if name == other then acts else []
  {
    RanConcat(effects, EffectsOf(name, acts), other);
    RanOfOne(name, acts, other);
  }

  lemma {:induction false} UndoneIsRest(acts: seq<string>, key: string, ledger: seq<string>, n: nat)
    requires n <= |acts| && Marked(acts, key, ledger, n)
    ensures Undone(acts, key, ledger) == acts[n..]
  {
    if acts != [] {
      assert key + "/" + acts[0] in ledger <==> 0 < n;
      forall i | 0 <= i < |acts[1..]| ensures key + "/" + acts[1..][i] in ledger <==> i < n - 1 {
        assert acts[1..][i] == acts[i + 1];
      }
      UndoneIsRest(acts[1..], key, ledger, if n == 0 then 0 else n - 1);
      if n == 0 {
        assert acts == [acts[0]] + acts[1..];
      } else {
        assert acts[1..][n - 1..] == acts[n..];
      }
    }
  }

  /** The actions of m still to run, of which the next n are recorded. */
  function NextActions(j: Journal, m: Migration, current: Version, n: nat): seq<string>
    requires |Ran(j.effects, m.name)| + n <= |Acts(m, DirectionAt(m, current))|
  {
    Acts(m, DirectionAt(m, current))[|Ran(j.effects, m.name)|..|Ran(j.effects, m.name)| + n]
  }

  lemma {:induction false} MarkedGrows(acts: seq<string>, key: string, ledger: seq<string>, ran: nat, n: nat)
    requires Distinct(acts) && ran + n <= |acts| && Marked(acts, key, ledger, ran)
    ensures Marked(acts, key, ledger + EntriesFor(key, acts[ran..ran + n]), ran + n)
  {
    var added := EntriesFor(key, acts[ran..ran + n]);
    forall i | 0 <= i < |acts| ensures key + "/" + acts[i] in ledger + added <==> i < ran + n {
      NewEntry(key, acts, ran, n, i);
      assert key + "/" + acts[i] in ledger <==> i < ran;
    }
  }

  lemma {:induction false} NextRan(effects: seq<Effect>, name: string, acts: seq<string>, ran: nat, n: nat)
    requires ran + n <= |acts| && Ran(effects, name) == acts[..ran]
    ensures Ran(effects + EffectsOf(name, acts[ran..ran + n]), name) == acts[..ran + n]
  {
    RanGrows(effects, name, acts[ran..ran + n], name);
    SliceOn(acts, ran, n);
  }

  lemma {:induction false} SliceOn<T>(s: seq<T>, i: nat, n: nat)
    requires i + n <= |s|
    ensures s[..i] + s[i..i + n] == s[..i + n]
  {
  }

  lemma {:induction false} RecordedTracksOwn(current: Version, j: Journal, m: Migration, n: nat)
    requires Tracks(j, m, current) && Distinct(Acts(m, DirectionAt(m, current)))
    requires Owed(j, m, current)
    requires |Ran(j.effects, m.name)| + n <= |Acts(m, DirectionAt(m, current))|
    ensures Tracks(Recorded(j, m, DirectionAt(m, current), NextActions(j, m, current, n)), m, current)
  {
    var dir := DirectionAt(m, current);
    var acts, ran := Acts(m, dir), |Ran(j.effects, m.name)|;
    var added := NextActions(j, m, current, n);
    var j' := Recorded(j, m, dir, added);
    NextRan(j.effects, m.name, acts, ran, n);
    MarkedGrows(acts, LedgerKey(m, dir), j.acts, ran, n);
    assert Owed(j', m, current);
    if Key(m) in j'.migs { assert Ran(j.effects, m.name) == acts; }
  }

  lemma {:induction false} MarkedStays(j: Journal, m: Migration, dir: Direction, added: seq<string>, x: Migration,
          dirX: Direction, n: nat)
    requires IsDigest(m.digest) && IsDigest(x.digest) && m.name != x.name
    requires !Shadows(m.name, x.name) && !Shadows(x.name, m.name)
    ensures Marked(Acts(x, dirX), LedgerKey(x, dirX), Recorded(j, m, dir, added).acts, n) <==>
      Marked(Acts(x, dirX), LedgerKey(x, dirX), j.acts, n)
  {
    forall i | 0 <= i < |Acts(x, dirX)|
      ensures LedgerKey(x, dirX) + "/" + Acts(x, dirX)[i] !in EntriesFor(LedgerKey(m, dir), added)
    {
      forall k | 0 <= k < |added| { ForeignEntry(x, dirX, Acts(x, dirX)[i], m, dir, added[k]); }
    }
  }

  lemma {:induction false} RecordedTracksOther(current: Version, j: Journal, m: Migration, dir: Direction,
          added: seq<string>, x: Migration)
    requires Tracks(j, x, current) && IsDigest(m.digest) && IsDigest(x.digest) && m.name != x.name
    requires !Shadows(m.name, x.name) && !Shadows(x.name, m.name)
    ensures Tracks(Recorded(j, m, dir, added), x, current)
  {
    RanGrows(j.effects, m.name, added, x.name);
    var dirX, j' := DirectionAt(x, current), Recorded(j, m, dir, added);
    MarkedStays(j, m, dir, added, x, dirX, |Ran(j.effects, x.name)|);
    assert Owed(j, x, current) ==> Owed(j', x, current);
  }

  /** Recording the next actions of m keeps what the ledgers say about every migration. */
  lemma {:induction false} RecordedFaithful(ladder: seq<Migration>, current: Version, j: Journal, m: Migration, n: nat)
    requires ValidLadder(ladder) && Faithful(ladder, current, j) && m in ladder
    requires Owed(j, m, current)
    requires |Ran(j.effects, m.name)| + n <= |Acts(m, DirectionAt(m, current))|
    ensures Faithful(ladder, current, Recorded(j, m, DirectionAt(m, current), NextActions(j, m, current, n)))
  {
    var dir, added := DirectionAt(m, current), NextActions(j, m, current, n);
    RecordedOwn(ladder, j, m, dir, added);
    forall x <- ladder ensures Tracks(Recorded(j, m, dir, added), x, current) {
      if x.name == m.name {
        RecordedTracksOwn(current, j, m, n);
      } else {
        RecordedTracksOther(current, j, m, dir, added, x);
      }
    }
  }

  lemma {:induction false} NewEntry(key: string, acts: seq<string>, ran: nat, n: nat, i: nat)
    requires Distinct(acts) && ran + n <= |acts| && i < |acts|
    ensures key + "/" + acts[i] in EntriesFor(key, acts[ran..ran + n]) <==> ran <= i < ran + n
  {
    var added := EntriesFor(key, acts[ran..ran + n]);
    if ran <= i < ran + n {
      assert added[i - ran] == key + "/" + acts[i];
    } else {
      forall k | 0 <= k < n ensures added[k] != key + "/" + acts[i] {
        assert acts[ran + k] != acts[i];
        assert added[k][|key| + 1..] == acts[ran + k] && (key + "/" + acts[i])[|key| + 1..] == acts[i];
      }
    }
  }

  lemma {:induction false} RecordedOwn(ladder: seq<Migration>, j: Journal, m: Migration, dir: Direction,
          ran: seq<string>)
    requires OwnKeys(ladder, j) && m in ladder
    ensures OwnKeys(ladder, Recorded(j, m, dir, ran))
  {
    forall e <- EntriesFor(LedgerKey(m, dir), ran)
      ensures exists x: Migration, d: Direction, a: string :: x in ladder && e == Entry(x, d, a)
    {
      var i :| 0 <= i < |ran| && e == EntriesFor(LedgerKey(m, dir), ran)[i];
      assert e == Entry(m, dir, ran[i]);
    }
  }

  lemma {:induction false} KeptOnly(entries: seq<string>, name: string, keep: string, action: bool)
    ensures forall e :: e in Kept(entries, name, keep, action) <==> e in entries && !Superseded(e, name, keep, action)
  {
    if entries != [] {
      var init, last := entries[..|entries| - 1], entries[|entries| - 1];
      KeptOnly(init, name, keep, action);
      assert entries == init + [last];
    }
  }

  /** Completing a migration records its key and forgets no action entry; another's key it may forget. */
  lemma {:induction false} ClosedKeepsEntries(ladder: seq<Migration>, j: Journal, m: Migration, dir: Direction)
    requires ValidLadder(ladder) && OwnKeys(ladder, j) && m in ladder
    ensures Closed(j, m, dir) == j.(migs := Closed(j, m, dir).migs)
    ensures Key(m) in Closed(j, m, dir).migs
    ensures forall k <- Closed(j, m, dir).migs :: k in j.migs || k == Key(m)
    ensures OwnKeys(ladder, Closed(j, m, dir))
  {
    KeptOnly(j.migs + [Key(m)], m.name, Key(m), false);
    forall e <- j.acts ensures !Superseded(e, m.name, Key(m), true) {
      var x: Migration, d: Direction, a: string :| x in ladder && e == Entry(x, d, a);
      UnshadowedKeepsEntries(m, x, d, a);
    }
    NothingSuperseded(j.acts, m.name, Key(m), true);
  }

  ghost predicate Complete(j: Journal, m: Migration, current: Version) {
    Ran(j.effects, m.name) == Acts(m, DirectionAt(m, current))
  }

  /** j' extends j: what took effect stays and the same versions are asked for. */
  ghost predicate Extends(j: Journal, j': Journal) {
    j'.asked == j.asked && j.effects <= j'.effects
  }

  lemma {:induction false} CompleteStays(ladder: seq<Migration>, current: Version, j: Journal, j': Journal,
          m: Migration)
    requires Complete(j, m, current) && Extends(j, j') && Faithful(ladder, current, j') && m in ladder
    ensures Complete(j', m, current)
  {
    RanConcat(j.effects, j'.effects[|j.effects|..], m.name);
    assert j'.effects == j.effects + j'.effects[|j.effects|..];
    assert Tracks(j', m, current);
  }

  lemma {:induction false} ClosedFaithful(ladder: seq<Migration>, current: Version, j: Journal, m: Migration,
          dir: Direction)
    requires ValidLadder(ladder) && Faithful(ladder, current, j) && m in ladder && Complete(j, m, current)
    ensures Faithful(ladder, current, Closed(j, m, dir)) && Extends(j, Closed(j, m, dir))
    ensures Complete(Closed(j, m, dir), m, current)
  {
    ClosedKeepsEntries(ladder, j, m, dir);
    forall x <- ladder ensures Tracks(Closed(j, m, dir), x, current) {
      if Key(x) == Key(m) { KeyUnique(x, m); }
    }
  }

  /** What running one migration did: only its own actions took effect, and it is complete when it succeeded. */
  ghost predicate RanOne(ladder: seq<Migration>, current: Version, j: Journal, m: Migration, o: Outcome) {
    && Faithful(ladder, current, o.j) && Extends(j, o.j)
    && (o.ok ==> Complete(o.j, m, current))
    && forall x: string | x != m.name :: Ran(o.j.effects, x) == Ran(j.effects, x)
  }

  lemma {:induction false} TodoIsNext(ladder: seq<Migration>, current: Version, j: Journal,
          m: Migration) returns (left: nat)
    requires Faithful(ladder, current, j) && m in ladder
    ensures |Ran(j.effects, m.name)| + left == |Acts(m, DirectionAt(m, current))|
    ensures Undone(Acts(m, DirectionAt(m, current)), LedgerKey(m, DirectionAt(m, current)), j.acts) ==
      NextActions(j, m, current, left)
  {
    assert Tracks(j, m, current);
    var acts := Acts(m, DirectionAt(m, current));
    left := |acts| - |Ran(j.effects, m.name)|;
    UndoneIsRest(acts, LedgerKey(m, DirectionAt(m, current)), j.acts, |Ran(j.effects, m.name)|);
  }

  lemma {:induction false} PartRan(ladder: seq<Migration>, current: Version, j: Journal, m: Migration, n: nat)
    requires ValidLadder(ladder) && Faithful(ladder, current, j) && m in ladder && Owed(j, m, current)
    requires |Ran(j.effects, m.name)| + n <= |Acts(m, DirectionAt(m, current))|
    ensures var j' := Recorded(j, m, DirectionAt(m, current), NextActions(j, m, current, n));
      RanOne(ladder, current, j, m, Outcome(j', 0, false))
  {
    RecordedFaithful(ladder, current, j, m, n);
    RecordedEffects(j, m, DirectionAt(m, current), NextActions(j, m, current, n));
  }

  lemma {:induction false} RestCompletes(current: Version, j: Journal, m: Migration)
    requires Tracks(j, m, current)
    ensures var dir := DirectionAt(m, current);
      var rest := NextActions(j, m, current, |Acts(m, dir)| - |Ran(j.effects, m.name)|);
      Complete(Recorded(j, m, dir, rest), m, current)
  {
    var dir := DirectionAt(m, current);
    var acts, ran := Acts(m, dir), Ran(j.effects, m.name);
    var rest := NextActions(j, m, current, |acts| - |ran|);
    RecordedEffects(j, m, dir, rest);
    assert ran + rest == acts;
  }

  lemma {:induction false} ClosedRan(ladder: seq<Migration>, current: Version, j: Journal, m: Migration, j': Journal,
          dir: Direction, left: nat)
    requires ValidLadder(ladder) && m in ladder
    requires RanOne(ladder, current, j, m, Outcome(j', 0, false)) && Complete(j', m, current)
    ensures RanOne(ladder, current, j, m, Outcome(Closed(j', m, dir), left, true))
  {
    ClosedFaithful(ladder, current, j', m, dir);
  }

  lemma {:induction false} NextPrefix(j: Journal, m: Migration, current: Version, n: nat, k: nat)
    requires k <= n && |Ran(j.effects, m.name)| + n <= |Acts(m, DirectionAt(m, current))|
    ensures NextActions(j, m, current, n)[..k] == NextActions(j, m, current, k)
  {
  }

  lemma {:induction false} RunTodoFaithful(ladder: seq<Migration>, current: Version, j: Journal, m: Migration,
          budget: nat, left: nat)
    requires ValidLadder(ladder) && Faithful(ladder, current, j) && m in ladder && Owed(j, m, current)
    requires |Ran(j.effects, m.name)| + left == |Acts(m, DirectionAt(m, current))|
    ensures RanOne(ladder, current, j, m,
      RunTodo(j, m, DirectionAt(m, current), budget, NextActions(j, m, current, left)))
  {
    var dir := DirectionAt(m, current);
    assert Tracks(j, m, current);
    if budget < left {
      NextPrefix(j, m, current, left, budget);
      PartRan(ladder, current, j, m, budget);
    } else {
      PartRan(ladder, current, j, m, left);
      RestCompletes(current, j, m);
      ClosedRan(ladder, current, j, m, Recorded(j, m, dir, NextActions(j, m, current, left)), dir, budget - left);
    }
  }

  lemma {:induction false} RunOneFaithful(ladder: seq<Migration>, current: Version, j: Journal, m: Migration,
          budget: nat)
    requires ValidLadder(ladder) && Faithful(ladder, current, j) && m in ladder
    requires Owed(j, m, current)
    ensures RanOne(ladder, current, j, m, RunOne(j, m, DirectionAt(m, current), budget))
  {
    var left := TodoIsNext(ladder, current, j, m);
    RunTodoFaithful(ladder, current, j, m, budget, left);
  }

  lemma {:induction false} RecordedEffects(j: Journal, m: Migration, dir: Direction, added: seq<string>)
    ensures Ran(Recorded(j, m, dir, added).effects, m.name) == Ran(j.effects, m.name) + added
    ensures forall x: string | x != m.name :: Ran(Recorded(j, m, dir, added).effects, x) == Ran(j.effects, x)
  {
    forall x: string
      ensures Ran(Recorded(j, m, dir, added).effects, x) == Ran(j.effects, x) + if m.name == x then added else []
    {
      RanGrows(j.effects, m.name, added, x);
    }
  }

  // ---- a bucket, the stage loop, a pass ----

  /** The migrations of a bucket are in the ladder and pending at some version asked for. */
  ghost predicate Due(ladder: seq<Migration>, current: Version, j: Journal, s: seq<Migration>, dir: Direction) {
    forall m <- s :: m in ladder && DirectionAt(m, current) == dir && Owed(j, m, current)
  }

  ghost predicate RanSome(ladder: seq<Migration>, current: Version, j: Journal, s: seq<Migration>, o: Outcome) {
    && Faithful(ladder, current, o.j) && Extends(j, o.j)
    && (o.ok ==> forall m <- s :: Complete(o.j, m, current))
    && forall x: string | (forall m <- s :: m.name != x) :: Ran(o.j.effects, x) == Ran(j.effects, x)
  }

  lemma {:induction false} BucketSkips(ladder: seq<Migration>, current: Version, j: Journal, m: Migration,
          rest: seq<Migration>, o: Outcome)
    requires m in ladder && Complete(j, m, current) && RanSome(ladder, current, j, rest, o)
    ensures RanSome(ladder, current, j, [m] + rest, o)
  {
    CompleteStays(ladder, current, j, o.j, m);
    assert forall y <- rest :: y in [m] + rest;
  }

  lemma {:induction false} BucketStops(ladder: seq<Migration>, current: Version, j: Journal, m: Migration,
          rest: seq<Migration>, o: Outcome)
    requires RanOne(ladder, current, j, m, o) && !o.ok
    ensures RanSome(ladder, current, j, [m] + rest, o)
  {
    assert m in [m] + rest;
  }

  lemma {:induction false} BucketGoesOn(ladder: seq<Migration>, current: Version, j: Journal, m: Migration,
          rest: seq<Migration>, first: Outcome, o: Outcome)
    requires m in ladder
    requires RanOne(ladder, current, j, m, first) && first.ok && RanSome(ladder, current, first.j, rest, o)
    ensures RanSome(ladder, current, j, [m] + rest, o)
  {
    CompleteStays(ladder, current, first.j, o.j, m);
    forall x: string | (forall y <- [m] + rest :: y.name != x) ensures Ran(o.j.effects, x) == Ran(j.effects, x) {
      assert m in [m] + rest;
      assert forall y <- rest :: y in [m] + rest;
    }
  }

  /** A migration whose key is skipped has run all its actions. */
  ghost predicate DoneComplete(ladder: seq<Migration>, current: Version, j: Journal, done: set<string>) {
    forall m <- ladder :: Key(m) in done ==> Complete(j, m, current)
  }

  lemma {:induction false} DoneGrows(ladder: seq<Migration>, current: Version, j: Journal, m: Migration,
          first: Outcome, done: set<string>)
    requires ValidLadder(ladder) && m in ladder && DoneComplete(ladder, current, j, done)
    requires RanOne(ladder, current, j, m, first) && first.ok
    ensures DoneComplete(ladder, current, first.j, done + {Key(m)})
  {
    forall x <- ladder | Key(x) in done + {Key(m)} ensures Complete(first.j, x, current) {
      if Key(x) == Key(m) {
        KeyUnique(x, m);
      } else {
        CompleteStays(ladder, current, j, first.j, x);
      }
    }
  }

  lemma {:induction false} RunBucketFaithful(ladder: seq<Migration>, current: Version, j: Journal,
          bucket: seq<Migration>, dir: Direction, done: set<string>, budget: nat)
    requires ValidLadder(ladder) && Faithful(ladder, current, j) && Due(ladder, current, j, bucket, dir)
    requires DoneComplete(ladder, current, j, done)
    ensures RanSome(ladder, current, j, bucket, RunBucket(j, bucket, dir, done, budget))
    decreases |bucket|
  {
    if bucket != [] {
      var m, rest := bucket[0], bucket[1..];
      assert bucket == [m] + rest;
      if Key(m) in done {
        RunBucketFaithful(ladder, current, j, rest, dir, done, budget);
        BucketSkips(ladder, current, j, m, rest, RunBucket(j, rest, dir, done, budget));
      } else {
        RunOneFaithful(ladder, current, j, m, budget);
        var first := RunOne(j, m, dir, budget);
        if first.ok {
          DueStays(ladder, current, j, first.j, rest, dir);
          DoneGrows(ladder, current, j, m, first, done);
          RunBucketFaithful(ladder, current, first.j, rest, dir, done + {Key(m)}, first.left);
          BucketGoesOn(ladder, current, j, m, rest, first, RunBucket(first.j, rest, dir, done + {Key(m)}, first.left));
        } else {
          BucketStops(ladder, current, j, m, rest, first);
        }
      }
    }
  }

  lemma {:induction false} DueStays(ladder: seq<Migration>, current: Version, j: Journal, j': Journal,
          s: seq<Migration>, dir: Direction)
    requires Due(ladder, current, j, s, dir) && j'.asked == j.asked
    ensures Due(ladder, current, j', s, dir)
  {
    forall m <- s ensures Owed(j', m, current) { assert Owed(j, m, current); }
  }

  /** The migration is anchored to stage i or a later one. */
  ghost predicate AnchoredFrom(stages: seq<Stage>, i: nat, m: Migration) {
    exists k: nat | i <= k < |stages| :: AnchorOf(stages, m.stage) == stages[k].name
  }

  ghost predicate RanLoop(ladder: seq<Migration>, current: Version, j: Journal, stages: seq<Stage>, i: nat,
          pending: seq<Migration>, o: Outcome) {
    && Faithful(ladder, current, o.j) && Extends(j, o.j)
    && (o.ok ==> forall m <- pending | AnchoredFrom(stages, i, m) :: Complete(o.j, m, current))
    && forall x: string | (forall m <- pending :: m.name != x) :: Ran(o.j.effects, x) == Ran(j.effects, x)
  }

  lemma {:induction false} AnchoredStep(stages: seq<Stage>, i: nat, m: Migration)
    requires i < |stages| && AnchoredFrom(stages, i, m)
    ensures AnchorOf(stages, m.stage) == stages[i].name || AnchoredFrom(stages, i + 1, m)
  {
    if AnchorOf(stages, m.stage) != stages[i].name {
      var k: nat :| i <= k < |stages| && AnchorOf(stages, m.stage) == stages[k].name;
      assert k > i;
    }
  }

  lemma {:induction false} LoopIdle(ladder: seq<Migration>, current: Version, j: Journal, stages: seq<Stage>, i: nat,
          pending: seq<Migration>, o: Outcome)
    requires Faithful(ladder, current, j) && o.j == j && (o.ok ==> i == |stages|)
    ensures RanLoop(ladder, current, j, stages, i, pending, o)
  {
  }

  lemma {:induction false} LoopStops(ladder: seq<Migration>, current: Version, j: Journal, stages: seq<Stage>, i: nat,
          pending: seq<Migration>, o: Outcome)
    requires i < |stages| && RanSome(ladder, current, j, Bucket(stages, pending, stages[i].name), o)
    ensures RanLoop(ladder, current, j, stages, i, pending, o.(ok := false))
  {
    var bucket := Bucket(stages, pending, stages[i].name);
    forall x: string | (forall m <- pending :: m.name != x) ensures Ran(o.j.effects, x) == Ran(j.effects, x) {
      forall m <- bucket ensures m.name != x { BucketSelects(stages, pending, stages[i].name, m); }
    }
  }

  lemma {:induction false} LoopGoesOn(ladder: seq<Migration>, current: Version, j: Journal, stages: seq<Stage>,
          i: nat, pending: seq<Migration>, first: Outcome, o: Outcome)
    requires i < |stages| && first.ok && forall m <- pending :: m in ladder
    requires RanSome(ladder, current, j, Bucket(stages, pending, stages[i].name), first)
    requires RanLoop(ladder, current, first.j, stages, i + 1, pending, o)
    ensures RanLoop(ladder, current, j, stages, i, pending, o)
  {
    LoopStops(ladder, current, j, stages, i, pending, first);
    if o.ok {
      forall m <- pending | AnchoredFrom(stages, i, m) ensures Complete(o.j, m, current) {
        AnchoredStep(stages, i, m);
        BucketSelects(stages, pending, stages[i].name, m);
        if AnchorOf(stages, m.stage) == stages[i].name { CompleteStays(ladder, current, first.j, o.j, m); }
      }
    }
  }

  lemma {:induction false} BucketDue(ladder: seq<Migration>, current: Version, j: Journal, stages: seq<Stage>,
          pending: seq<Migration>, stage: string, dir: Direction)
    requires Due(ladder, current, j, pending, dir)
    ensures Due(ladder, current, j, Bucket(stages, pending, stage), dir)
  {
    forall m <- Bucket(stages, pending, stage) ensures m in pending { BucketSelects(stages, pending, stage, m); }
  }

  /** Each step runs its stage's bucket faithfully, from any faithful ledgers under which the pending are due. */
  ghost predicate StepsFaithful(ladder: seq<Migration>, current: Version, stages: seq<Stage>, pending: seq<Migration>,
          dir: Direction, step: StageStep) {
    forall j: Journal, i: nat, budget: nat | i < |stages| && Faithful(ladder, current, j) &&
      Due(ladder, current, j, pending, dir) ::
      RanSome(ladder, current, j, Bucket(stages, pending, stages[i].name), step(j, i, budget))
  }

  lemma {:induction false} RunLoopFaithful(ladder: seq<Migration>, current: Version, step: StageStep, j: Journal,
          stages: seq<Stage>, i: nat, pending: seq<Migration>, dir: Direction, budget: nat, exit: Exit)
    requires i <= |stages| && StepsFaithful(ladder, current, stages, pending, dir, step)
    requires Faithful(ladder, current, j) && Due(ladder, current, j, pending, dir)
    ensures RanLoop(ladder, current, j, stages, i, pending, RunLoop(step, j, i, |stages|, budget, exit))
    decreases |stages| - i
  {
    if i < |stages| && exit != StopsBefore(i) {
      var first := step(j, i, budget);
      if first.ok && exit != StopsAfter(i) {
        DueStays(ladder, current, j, first.j, pending, dir);
        RunLoopFaithful(ladder, current, step, first.j, stages, i + 1, pending, dir, first.left, exit);
        var o := RunLoop(step, first.j, i + 1, |stages|, first.left, exit);
        LoopGoesOn(ladder, current, j, stages, i, pending, first, o);
      } else {
        LoopStops(ladder, current, j, stages, i, pending, first);
      }
    } else {
      LoopIdle(ladder, current, j, stages, i, pending, RunLoop(step, j, i, |stages|, budget, exit));
    }
  }

  lemma {:induction false} MigrationsFaithful(ladder: seq<Migration>, current: Version, stages: seq<Stage>,
          pending: seq<Migration>, dir: Direction)
    requires ValidLadder(ladder)
    ensures StepsFaithful(ladder, current, stages, pending, dir, MigrationsOf(stages, pending, dir))
  {
    forall j: Journal, i: nat, budget: nat | i < |stages| && Faithful(ladder, current, j) &&
      Due(ladder, current, j, pending, dir)
      ensures RanSome(ladder, current, j, Bucket(stages, pending, stages[i].name),
        MigrationsOf(stages, pending, dir)(j, i, budget))
    {
      BucketDue(ladder, current, j, stages, pending, stages[i].name, dir);
      RunBucketFaithful(ladder, current, j, Bucket(stages, pending, stages[i].name), dir, KeysOf(j.migs), budget);
    }
  }

  // ---- one pass from sound ledgers ----

  /**
   What every action that ran in a pass of unstored status owes to: a migration that some version asked for
   crosses.
   */
  ghost predicate Explained(ladder: seq<Migration>, stages: seq<Stage>, version: Version, asked: set<Version>,
          e: Effect) {
    exists m <- ladder, d <- asked :: RunsFor(ladder, stages, version, m, d, e)
  }

  /** e is an action of m, which is pending and anchored when d is asked for. */
  ghost predicate RunsFor(ladder: seq<Migration>, stages: seq<Stage>, version: Version, m: Migration, d: Version,
          e: Effect) {
    && m.name == e.name && e.action in Acts(m, DirectionAt(m, version))
    && d != version && Crosses(m, version, d) && Anchored(stages, Pending(ladder, version, d))
  }

  /** The ledgers know what stored passes ran, and what took effect besides is what was lost. */
  ghost predicate Sound(ladder: seq<Migration>, stages: seq<Stage>, s: Deployed) {
    && Faithful(ladder, s.version, s.journal)
    && (forall e <- s.journal.effects + s.lost :: Explained(ladder, stages, s.version, s.journal.asked, e))
    && multiset(s.all) == multiset(s.journal.effects) + multiset(s.lost)
    && (s.lost == [] ==> s.all == s.journal.effects)
  }

  function Asked(s: Deployed, pass: PassInput): Journal {
    s.journal.(asked := s.journal.asked + {pass.desired})
  }

  lemma {:induction false} AskedFaithful(ladder: seq<Migration>, s: Deployed, pass: PassInput)
    requires Faithful(ladder, s.version, s.journal)
    ensures Faithful(ladder, s.version, Asked(s, pass))
  {
    forall m <- ladder ensures Tracks(Asked(s, pass), m, s.version) { assert Tracks(s.journal, m, s.version); }
  }

  lemma {:induction false} LoopRuns(ladder: seq<Migration>, stages: seq<Stage>, s: Deployed, pass: PassInput)
    requires ValidLadder(ladder) && Faithful(ladder, s.version, s.journal)
    ensures RanLoop(ladder, s.version, Asked(s, pass), stages, 0, Pending(ladder, s.version, pass.desired),
      Loop(ladder, stages, s, pass))
  {
    var pending := Pending(ladder, s.version, pass.desired);
    var j := Asked(s, pass);
    AskedFaithful(ladder, s, pass);
    forall m: Migration { PendingSelects(ladder, s.version, pass.desired, m); }
    var dir := DirectionTo(s.version, pass.desired);
    assert Due(ladder, s.version, j, pending, dir);
    MigrationsFaithful(ladder, s.version, stages, pending, dir);
    RunLoopFaithful(ladder, s.version, MigrationsOf(stages, pending, dir), j, stages, 0, pending, dir, pass.budget,
      pass.exit);
  }

  lemma {:induction false} RanHas(effects: seq<Effect>, e: Effect)
    ensures multiset(effects)[e] == multiset(Ran(effects, e.name))[e.action]
  {
    if effects != [] {
      var init, last := effects[..|effects| - 1], effects[|effects| - 1];
      RanHas(init, e);
      assert effects == init + [last];
    }
  }

  lemma {:induction false} NewRan(effects: seq<Effect>, ran: seq<Effect>, e: Effect)
    requires e in ran
    ensures e.action in Ran(effects + ran, e.name) && |Ran(effects + ran, e.name)| > |Ran(effects, e.name)|
  {
    RanConcat(effects, ran, e.name);
    RanHas(ran, e);
    assert multiset(ran)[e] > 0;
    assert e.action in Ran(ran, e.name);
  }

  /** Whatever a pass runs belongs to a migration pending for the version it asks for. */
  lemma {:induction false} NewExplained(ladder: seq<Migration>, stages: seq<Stage>, s: Deployed, pass: PassInput,
          e: Effect)
    requires ValidLadder(ladder) && Faithful(ladder, s.version, s.journal)
    requires Anchored(stages, Pending(ladder, s.version, pass.desired))
    requires e in NewEffects(s.journal, Loop(ladder, stages, s, pass).j)
    ensures Explained(ladder, stages, s.version, s.journal.asked + {pass.desired}, e)
  {
    LoopRuns(ladder, stages, s, pass);
    var pending, o := Pending(ladder, s.version, pass.desired), Loop(ladder, stages, s, pass);
    var ran := NewEffects(s.journal, o.j);
    assert o.j.effects == s.journal.effects + ran;
    NewRan(s.journal.effects, ran, e);
    var m :| m in pending && m.name == e.name;
    PendingSelects(ladder, s.version, pass.desired, m);
    assert Tracks(o.j, m, s.version);
    assert RunsFor(ladder, stages, s.version, m, pass.desired, e);
  }

  /** These actions ran in a pass that asked for d. */
  ghost predicate Adds(ladder: seq<Migration>, stages: seq<Stage>, s: Deployed, d: Version, ran: seq<Effect>) {
    forall e <- s.journal.effects + s.lost + ran :: Explained(ladder, stages, s.version, s.journal.asked + {d}, e)
  }

  lemma {:induction false} PassExplained(ladder: seq<Migration>, stages: seq<Stage>, s: Deployed, pass: PassInput)
    requires ValidLadder(ladder) && Sound(ladder, stages, s)
    requires Anchored(stages, Pending(ladder, s.version, pass.desired))
    ensures Adds(ladder, stages, s, pass.desired, NewEffects(s.journal, Loop(ladder, stages, s, pass).j))
  {
    var ran := NewEffects(s.journal, Loop(ladder, stages, s, pass).j);
    forall e <- s.journal.effects + s.lost + ran
      ensures Explained(ladder, stages, s.version, s.journal.asked + {pass.desired}, e)
    {
      if e in ran {
        NewExplained(ladder, stages, s, pass, e);
      } else {
        assert e in s.journal.effects + s.lost;
        assert Explained(ladder, stages, s.version, s.journal.asked, e);
      }
    }
  }

  lemma {:induction false} LostSound(ladder: seq<Migration>, stages: seq<Stage>, s: Deployed, pass: PassInput,
          ran: seq<Effect>)
    requires Sound(ladder, stages, s) && Adds(ladder, stages, s, pass.desired, ran)
    ensures Sound(ladder, stages, Deployed(s.version, Asked(s, pass), s.all + ran, s.lost + ran))
  {
    AskedFaithful(ladder, s, pass);
    assert s.journal.effects + (s.lost + ran) == s.journal.effects + s.lost + ran;
  }

  lemma {:induction false} StoredSound(ladder: seq<Migration>, stages: seq<Stage>, s: Deployed, pass: PassInput,
          j: Journal, ran: seq<Effect>)
    requires Sound(ladder, stages, s) && Adds(ladder, stages, s, pass.desired, ran) && Faithful(ladder, s.version, j)
    requires j.effects == s.journal.effects + ran && j.asked == Asked(s, pass).asked
    ensures Sound(ladder, stages, Deployed(s.version, j, s.all + ran, s.lost))
  {
    forall e <- j.effects + s.lost ensures Explained(ladder, stages, s.version, j.asked, e) {
      assert e in s.journal.effects + s.lost + ran;
    }
  }

  lemma {:induction false} ClearSound(ladder: seq<Migration>, stages: seq<Stage>, version: Version)
    ensures Sound(ladder, stages, Deployed(version, EMPTY, [], []))
  {
  }

  lemma {:induction false} PassSound(ladder: seq<Migration>, stages: seq<Stage>, s: Deployed, pass: PassInput)
    requires ValidLadder(ladder) && Sound(ladder, stages, s)
    ensures Sound(ladder, stages, AfterPass(ladder, stages, s, pass))
  {
    if Anchored(stages, Pending(ladder, s.version, pass.desired)) {
      LoopRuns(ladder, stages, s, pass);
      PassExplained(ladder, stages, s, pass);
      var j := Loop(ladder, stages, s, pass).j;
      var ran := NewEffects(s.journal, j);
      assert j.effects == s.journal.effects + ran;
      LostSound(ladder, stages, s, pass, ran);
      StoredSound(ladder, stages, s, pass, j, ran);
      ClearSound(ladder, stages, pass.desired);
    }
  }

  // ---- whole runs ----

  /** The deployed state after a sequence of passes from a deployment at some version with clear ledgers. */
  function After(ladder: seq<Migration>, stages: seq<Stage>, start: Version, passes: seq<PassInput>): Deployed {
    if passes == [] then Deployed(start, EMPTY, [], [])
    else AfterPass(ladder, stages, After(ladder, stages, start, passes[..|passes| - 1]), passes[|passes| - 1])
  }

  lemma {:induction false} RunSound(ladder: seq<Migration>, stages: seq<Stage>, start: Version, passes: seq<PassInput>)
    requires ValidLadder(ladder)
    ensures Sound(ladder, stages, After(ladder, stages, start, passes))
  {
    if passes != [] {
      var s := After(ladder, stages, start, passes[..|passes| - 1]);
      RunSound(ladder, stages, start, passes[..|passes| - 1]);
      PassSound(ladder, stages, s, passes[|passes| - 1]);
    }
  }

  /** Of every migration only the list for its direction took effect, in list order, each action at most once. */
  ghost predicate OnceInOrder(ladder: seq<Migration>, s: Deployed) {
    forall m <- ladder ::
      Ran(s.all, m.name) <= (if m.to > s.version then m.actions else m.down) && Distinct(Ran(s.all, m.name))
  }

  /**
   Over any run of passes, stored or lost: what stored passes ran is a prefix of each migration's list, and a
   migration the ledger calls executed ran all of it; nothing ran for a migration that no version asked for
   crosses; and as long as no action ran in a lost pass, everything took effect at most once and in list order.
   */
  lemma {:induction false} ActionsRunAtMostOnceInOrder(ladder: seq<Migration>, stages: seq<Stage>, start: Version,
          passes: seq<PassInput>, m: Migration)
    requires ValidLadder(ladder) && m in ladder
    ensures var s := After(ladder, stages, start, passes);
      && Ran(s.journal.effects, m.name) <= (if m.to > s.version then m.actions else m.down)
      && (Key(m) in s.journal.migs ==>
           Ran(s.journal.effects, m.name) == if m.to > s.version then m.actions else m.down)
      && (Ran(s.all, m.name) != [] ==> exists d <- s.journal.asked :: d != s.version && Crosses(m, s.version, d))
      && (s.lost == [] ==> OnceInOrder(ladder, s))
  {
    RunSound(ladder, stages, start, passes);
    var s := After(ladder, stages, start, passes);
    TracksList(ladder, s, m);
    if s.lost == [] {
      forall x <- ladder { TracksList(ladder, s, x); }
    }
    if Ran(s.all, m.name) != [] {
      RanOwed(ladder, stages, s, m);
    }
  }

  lemma {:induction false} TracksList(ladder: seq<Migration>, s: Deployed, m: Migration)
    requires ValidLadder(ladder) && Faithful(ladder, s.version, s.journal) && m in ladder
    ensures var list, ran := if m.to > s.version then m.actions else m.down, Ran(s.journal.effects, m.name);
      ran <= list && Distinct(ran) && (Key(m) in s.journal.migs ==> ran == list)
  {
    assert Tracks(s.journal, m, s.version);
  }

  lemma {:induction false} RanOwed(ladder: seq<Migration>, stages: seq<Stage>, s: Deployed, m: Migration)
    requires ValidLadder(ladder) && Sound(ladder, stages, s) && m in ladder && Ran(s.all, m.name) != []
    ensures exists d <- s.journal.asked :: d != s.version && Crosses(m, s.version, d)
  {
    var e := Effect(m.name, Ran(s.all, m.name)[0]);
    RanHas(s.all, e);
    assert e.action in Ran(s.all, m.name);
    assert e in multiset(s.all);
    assert e in s.journal.effects + s.lost;
    var x, d :| x in ladder && d in s.journal.asked && RunsFor(ladder, stages, s.version, x, d, e);
    assert x == m;
  }

  /**
   When a pass records a higher version, every migration pending for it has run exactly its actions, and when it
   records a lower one, exactly its reverse actions, in this pass or an earlier one;
     and no other migration of the ladder has run any, unless another version was asked for
   since the ledgers were last cleared.
   */
  lemma {:induction false} AdvanceCompletes(ladder: seq<Migration>, stages: seq<Stage>, start: Version,
          passes: seq<PassInput>, pass: PassInput)
    requires ValidLadder(ladder)
    ensures var s := After(ladder, stages, start, passes);
      var pending := Pending(ladder, s.version, pass.desired);
      var o := Loop(ladder, stages, s, pass);
      Anchored(stages, pending) && o.ok && pass.stored ==>
        && AfterPass(ladder, stages, s, pass) == Deployed(pass.desired, EMPTY, [], [])
        && (forall m <- pending :: Ran(o.j.effects, m.name) == if pass.desired < s.version then m.down else m.actions)
        && (s.journal.asked <= {pass.desired} ==>
             forall m <- ladder | m !in pending :: Ran(s.all + NewEffects(s.journal, o.j), m.name) == [])
  {
    var s := After(ladder, stages, start, passes);
    var pending := Pending(ladder, s.version, pass.desired);
    var o := Loop(ladder, stages, s, pass);
    RunSound(ladder, stages, start, passes);
    if Anchored(stages, pending) && o.ok && pass.stored {
      forall m <- pending { PendingRan(ladder, stages, s, pass, m); }
      if s.journal.asked <= {pass.desired} {
        forall m <- ladder | m !in pending { OthersDidNot(ladder, stages, s, pass, m); }
      }
    }
  }

  lemma {:induction false} PendingRan(ladder: seq<Migration>, stages: seq<Stage>, s: Deployed, pass: PassInput,
          m: Migration)
    requires ValidLadder(ladder) && Sound(ladder, stages, s) && m in Pending(ladder, s.version, pass.desired)
    requires Anchored(stages, Pending(ladder, s.version, pass.desired)) && Loop(ladder, stages, s, pass).ok
    ensures Ran(Loop(ladder, stages, s, pass).j.effects, m.name) ==
      if pass.desired < s.version then m.down else m.actions
  {
    LoopRuns(ladder, stages, s, pass);
    PendingSelects(ladder, s.version, pass.desired, m);
    AllAnchored(stages, Pending(ladder, s.version, pass.desired), m);
    assert Tracks(Loop(ladder, stages, s, pass).j, m, s.version);
  }

  lemma {:induction false} OthersDidNot(ladder: seq<Migration>, stages: seq<Stage>, s: Deployed, pass: PassInput,
          m: Migration)
    requires ValidLadder(ladder) && Sound(ladder, stages, s) && s.journal.asked <= {pass.desired}
    requires m in ladder && m !in Pending(ladder, s.version, pass.desired)
    requires Anchored(stages, Pending(ladder, s.version, pass.desired))
    ensures Ran(s.all + NewEffects(s.journal, Loop(ladder, stages, s, pass).j), m.name) == []
  {
    // The same pass with its status lost.
    var lost := pass.(stored := false);
    PassSound(ladder, stages, s, lost);
    var t := AfterPass(ladder, stages, s, lost);
    PendingSelects(ladder, s.version, pass.desired, m);
    if Ran(t.all, m.name) != [] { RanOwed(ladder, stages, t, m); }
  }

  lemma {:induction false} AllAnchored(stages: seq<Stage>, pending: seq<Migration>, m: Migration)
    requires Anchored(stages, pending) && m in pending
    ensures AnchoredFrom(stages, 0, m)
  {
    AnchorExists(stages, m.stage);
    var s :| s in stages && s.name == AnchorOf(stages, m.stage);
    var k :| 0 <= k < |stages| && stages[k] == s;
    assert AnchorOf(stages, m.stage) == stages[k].name;
  }
}
