/**
 The version-migration ladder: which migrations a version transition crosses, the stage each one
 runs before, and the string-keyed ledgers that let a failed transition resume.
 */
module Migrations {
  import opened Strings

  type Version = int

  datatype Comparator =
    | AtLeast(v: Version) | Above(v: Version) | AtMost(v: Version) | Below(v: Version) | Exactly(v: Version)
  /** `from` lists the alternatives of a constraint, each a conjunction; empty means unconstrained. */
  datatype Migration = Migration(
    name: string, digest: string, to: Version, from: seq<seq<Comparator>>, stage: string,
    actions: seq<string>, down: seq<string>)
  datatype Direction = Up | Down
  datatype Stage = Stage(name: string, anchor: string)

  predicate Satisfies(c: Comparator, v: Version) {
    match c
    case AtLeast(b) => v >= b
    case Above(b) => v > b
    case AtMost(b) => v <= b
    case Below(b) => v < b
    case Exactly(b) => v == b
  }

  predicate Admits(m: Migration, current: Version) {
    m.from == [] || exists alternative <- m.from :: forall c <- alternative :: Satisfies(c, current)
  }

  // ---- selection ----

  /** The transition current -> desired fires m: upward it crosses m.to and admits current, downward it crosses back. */
  predicate Crosses(m: Migration, current: Version, desired: Version) {
    if current < desired then current < m.to <= desired && Admits(m, current)
    else desired < m.to <= current
  }

  function Rank(m: Migration, dir: Direction): int {
    if dir.Up? then m.to else -m.to
  }

  predicate Ordered(s: seq<Migration>, dir: Direction) {
    forall i, j | 0 <= i < j < |s| :: Rank(s[i], dir) <= Rank(s[j], dir)
  }

  /** Inserts m after every entry it does not precede, so equal ranks keep their arrival order. */
  function Insert(s: seq<Migration>, m: Migration, dir: Direction): seq<Migration> {
    if s == [] || Rank(s[|s| - 1], dir) <= Rank(m, dir) then s + [m]
    else Insert(s[..|s| - 1], m, dir) + [s[|s| - 1]]
  }

  /** A stable sort by target version, ascending for an upgrade and descending for a downgrade. */
  function StableSort(s: seq<Migration>, dir: Direction): seq<Migration> {
    if s == [] then [] else Insert(StableSort(s[..|s| - 1], dir), s[|s| - 1], dir)
  }

  function Crossed(s: seq<Migration>, current: Version, desired: Version): seq<Migration> {
    if s == [] then []
    else Crossed(s[..|s| - 1], current, desired) + if Crosses(s[|s| - 1], current, desired) then [s[|s| - 1]] else []
  }

  /** The pending migrations in run order: an upgrade sorts and then filters, a downgrade filters and then sorts. */
  function Pending(ladder: seq<Migration>, current: Version, desired: Version): seq<Migration> {
    if current == desired then []
    else if current < desired then Crossed(StableSort(ladder, Up), current, desired)
    else StableSort(Crossed(ladder, current, desired), Down)
  }

  function AtTarget(s: seq<Migration>, t: Version): seq<Migration> {
    if s == [] then [] else AtTarget(s[..|s| - 1], t) + if s[|s| - 1].to == t then [s[|s| - 1]] else []
  }

  lemma {:induction false} AtTargetAppend(s: seq<Migration>, m: Migration, t: Version)
    ensures AtTarget(s + [m], t) == AtTarget(s, t) + if m.to == t then [m] else []
  {
    assert (s + [m])[..|s|] == s;
  }

  lemma {:induction false} CrossedAppend(s: seq<Migration>, m: Migration, current: Version, desired: Version)
    ensures Crossed(s + [m], current, desired) ==
      Crossed(s, current, desired) + if Crosses(m, current, desired) then [m] else []
  {
    assert (s + [m])[..|s|] == s;
  }

  lemma {:induction false} InsertElements(s: seq<Migration>, m: Migration, dir: Direction)
    ensures multiset(Insert(s, m, dir)) == multiset(s) + multiset{m}
  {
    if s != [] && Rank(s[|s| - 1], dir) > Rank(m, dir) {
      InsertElements(s[..|s| - 1], m, dir);
      assert s == s[..|s| - 1] + [s[|s| - 1]];
    }
  }

  lemma {:induction false} InsertOrdered(s: seq<Migration>, m: Migration, dir: Direction)
    requires Ordered(s, dir)
    ensures Ordered(Insert(s, m, dir), dir)
  {
    if s != [] && Rank(s[|s| - 1], dir) > Rank(m, dir) {
      var init, last := s[..|s| - 1], s[|s| - 1];
      InsertOrdered(init, m, dir);
      InsertElements(init, m, dir);
      var r := Insert(init, m, dir);
      forall i | 0 <= i < |r| ensures Rank(r[i], dir) <= Rank(last, dir) {
        assert r[i] in multiset(r);
        assert r[i] == m || r[i] in init;
      }
    }
  }

  lemma {:induction false} InsertTies(s: seq<Migration>, m: Migration, dir: Direction, t: Version)
    ensures AtTarget(Insert(s, m, dir), t) == AtTarget(s, t) + if m.to == t then [m] else []
  {
    if s == [] || Rank(s[|s| - 1], dir) <= Rank(m, dir) {
      AtTargetAppend(s, m, t);
    } else {
      var init, last := s[..|s| - 1], s[|s| - 1];
      assert init + [last] == s && last.to != m.to;
      InsertTies(init, m, dir, t);
      AtTargetAppend(Insert(init, m, dir), last, t);
      AtTargetAppend(init, last, t);
      AppendsSwap(AtTarget(init, t), if m.to == t then [m] else [], if last.to == t then [last] else []);
    }
  }

  lemma {:induction false} AppendsSwap(s: seq<Migration>, a: seq<Migration>, b: seq<Migration>)
    requires a == [] || b == []
    ensures s + a + b == s + b + a
  {
  }

  lemma {:induction false} SortElements(s: seq<Migration>, dir: Direction)
    ensures multiset(StableSort(s, dir)) == multiset(s)
  {
    if s != [] {
      SortElements(s[..|s| - 1], dir);
      InsertElements(StableSort(s[..|s| - 1], dir), s[|s| - 1], dir);
      assert s == s[..|s| - 1] + [s[|s| - 1]];
    }
  }

  lemma {:induction false} SortOrdered(s: seq<Migration>, dir: Direction)
    ensures Ordered(StableSort(s, dir), dir)
  {
    if s != [] {
      SortOrdered(s[..|s| - 1], dir);
      InsertOrdered(StableSort(s[..|s| - 1], dir), s[|s| - 1], dir);
    }
  }

  lemma {:induction false} SortTies(s: seq<Migration>, dir: Direction, t: Version)
    ensures AtTarget(StableSort(s, dir), t) == AtTarget(s, t)
  {
    if s != [] {
      SortTies(s[..|s| - 1], dir, t);
      InsertTies(StableSort(s[..|s| - 1], dir), s[|s| - 1], dir, t);
    }
  }

  lemma {:induction false} CrossedSelects(s: seq<Migration>, current: Version, desired: Version, m: Migration)
    ensures m in Crossed(s, current, desired) <==> m in s && Crosses(m, current, desired)
  {
    if s != [] {
      CrossedSelects(s[..|s| - 1], current, desired, m);
      assert s == s[..|s| - 1] + [s[|s| - 1]];
    }
  }

  lemma {:induction false} CrossedKeeps(s: seq<Migration>, current: Version, desired: Version, t: Version)
    ensures AtTarget(Crossed(s, current, desired), t) == Crossed(AtTarget(s, t), current, desired)
  {
    if s != [] {
      var init, last := s[..|s| - 1], s[|s| - 1];
      CrossedKeeps(init, current, desired, t);
      AtTargetAppend(Crossed(init, current, desired), last, t);
      CrossedAppend(AtTarget(init, t), last, current, desired);
      if !Crosses(last, current, desired) { assert Crossed(s, current, desired) == Crossed(init, current, desired); }
      if last.to != t { assert AtTarget(s, t) == AtTarget(init, t); }
    }
  }

  lemma {:induction false} CrossedOrdered(s: seq<Migration>, current: Version, desired: Version, dir: Direction)
    requires Ordered(s, dir)
    ensures Ordered(Crossed(s, current, desired), dir)
  {
    if s != [] {
      var init, last := s[..|s| - 1], s[|s| - 1];
      CrossedOrdered(init, current, desired, dir);
      var r := Crossed(init, current, desired);
      forall i | 0 <= i < |r| ensures Rank(r[i], dir) <= Rank(last, dir) {
        CrossedSelects(init, current, desired, r[i]);
      }
    }
  }

  /**
   The pending list is the crossed migrations in target order, ties in ladder order: it is sorted, and at
   every target version it is exactly the ladder's own sequence of crossed migrations.
   */
  lemma {:induction false} PendingIsStableSelection(ladder: seq<Migration>, current: Version, desired: Version,
          t: Version)
    requires current != desired
    ensures var pending := Pending(ladder, current, desired);
      forall i, j | 0 <= i < j < |pending| ::
        if current < desired then pending[i].to <= pending[j].to else pending[i].to >= pending[j].to
    ensures AtTarget(Pending(ladder, current, desired), t) == Crossed(AtTarget(ladder, t), current, desired)
  {
    if current < desired {
      SortOrdered(ladder, Up);
      SortTies(ladder, Up, t);
      CrossedOrdered(StableSort(ladder, Up), current, desired, Up);
      CrossedKeeps(StableSort(ladder, Up), current, desired, t);
    } else {
      SortOrdered(Crossed(ladder, current, desired), Down);
      SortTies(Crossed(ladder, current, desired), Down, t);
      CrossedKeeps(ladder, current, desired, t);
    }
  }

  lemma {:induction false} PendingSelects(ladder: seq<Migration>, current: Version, desired: Version, m: Migration)
    ensures m in Pending(ladder, current, desired) <==>
      m in ladder && current != desired && Crosses(m, current, desired)
  {
    if current < desired {
      SortElements(ladder, Up);
      CrossedSelects(StableSort(ladder, Up), current, desired, m);
      assert m in StableSort(ladder, Up) <==> m in multiset(ladder);
    } else if current > desired {
      SortElements(Crossed(ladder, current, desired), Down);
      CrossedSelects(ladder, current, desired, m);
      assert m in StableSort(Crossed(ladder, current, desired), Down) <==>
        m in multiset(Crossed(ladder, current, desired));
    }
  }

  /**
   A migration of the ladder is pending exactly when an upgrade crosses its target from below and one of its
   alternatives admits the version it starts from, or a downgrade crosses its target from above.
   */
  lemma {:induction false} PendingIff(ladder: seq<Migration>, current: Version, desired: Version, m: Migration)
    ensures m in Pending(ladder, current, desired) <==>
      && m in ladder
      && if current < desired then
           && current < m.to <= desired
           && (m.from == [] || exists alternative <- m.from :: forall c <- alternative ::
                 match c
                 case AtLeast(b) => b <= current
                 case Above(b) => b < current
                 case AtMost(b) => current <= b
                 case Below(b) => current < b
                 case Exactly(b) => b == current)
         else desired < m.to <= current
  {
    PendingSelects(ladder, current, desired, m);
    forall alternative <- m.from
      ensures (forall c <- alternative :: Satisfies(c, current)) <==>
        forall c <- alternative ::
          match c
          case AtLeast(b) => b <= current
          case Above(b) => b < current
          case AtMost(b) => current <= b
          case Below(b) => current < b
          case Exactly(b) => b == current
    {
      forall c <- alternative
        ensures Satisfies(c, current) <==>
          match c
          case AtLeast(b) => b <= current
          case Above(b) => b < current
          case AtMost(b) => current <= b
          case Below(b) => current < b
          case Exactly(b) => b == current
      {
      }
    }
  }

  /** At one deployed version a migration can be pending in only one direction. */
  function DirectionAt(m: Migration, current: Version): Direction {
    if m.to > current then Up else Down
  }

  // ---- anchoring ----

  /** The stage of that anchor role, else of that name; the first stage for an empty anchor; "" when none. */
  function AnchorOf(stages: seq<Stage>, anchor: string): string {
    if anchor == "" then (if stages == [] then "" else stages[0].name)
    else
      var byRole := NameWhere(stages, anchor, true);
      if byRole != "" then byRole else NameWhere(stages, anchor, false)
  }

  function NameWhere(stages: seq<Stage>, key: string, role: bool): (r: string)
    ensures r != "" ==> exists s <- stages :: s.name == r
  {
    if stages == [] then ""
    else if (if role then stages[0].anchor else stages[0].name) == key then stages[0].name
    else NameWhere(stages[1..], key, role)
  }

  lemma {:induction false} NameWhereIs(stages: seq<Stage>, key: string, role: bool, i: nat)
    requires i < |stages| && (forall s <- stages :: s.name != "")
    requires (if role then stages[i].anchor else stages[i].name) == key
    requires forall j: nat | j < i :: (if role then stages[j].anchor else stages[j].name) != key
    ensures NameWhere(stages, key, role) == stages[i].name
  {
    if i > 0 {
      NameWhereIs(stages[1..], key, role, i - 1);
    }
  }

  lemma {:induction false} NameNowhere(stages: seq<Stage>, key: string, role: bool)
    requires forall s <- stages :: (if role then s.anchor else s.name) != key
    ensures NameWhere(stages, key, role) == ""
  {
    if stages != [] {
      assert stages[0] in stages;
      NameNowhere(stages[1..], key, role);
    }
  }

  /**
   An anchor picks the first stage that declares it as its role; without one, the stage of that name; the empty
   anchor picks the first stage.
   */
  lemma {:induction false} AnchorPicks(stages: seq<Stage>, anchor: string, i: nat)
    requires i < |stages| && forall s <- stages :: s.name != ""
    ensures anchor == "" ==> AnchorOf(stages, anchor) == stages[0].name
    ensures anchor != "" && stages[i].anchor == anchor && (forall j: nat | j < i :: stages[j].anchor != anchor) ==>
      AnchorOf(stages, anchor) == stages[i].name
    ensures anchor != "" && stages[i].name == anchor && (forall s <- stages :: s.anchor != anchor) ==>
      AnchorOf(stages, anchor) == anchor
    ensures anchor != "" && (forall s <- stages :: s.anchor != anchor && s.name != anchor) ==>
      AnchorOf(stages, anchor) == ""
  {
    if anchor != "" {
      if stages[i].anchor == anchor && forall j: nat | j < i :: stages[j].anchor != anchor {
        NameWhereIs(stages, anchor, true, i);
      }
      if forall s <- stages :: s.anchor != anchor {
        NameNowhere(stages, anchor, true);
        if stages[i].name == anchor { NameIs(stages, anchor); }
        if forall s <- stages :: s.name != anchor { NameNowhere(stages, anchor, false); }
      }
    }
  }

  lemma {:induction false} NameIs(stages: seq<Stage>, name: string)
    requires name != "" && exists s <- stages :: s.name == name
    ensures NameWhere(stages, name, false) == name
  {
    if stages[0].name != name {
      assert stages == [stages[0]] + stages[1..];
      NameIs(stages[1..], name);
    }
  }

  method AnchorStage(stages: seq<Stage>, anchor: string) returns (r: string)
    requires forall s <- stages :: s.name != ""
    ensures r == AnchorOf(stages, anchor)
    ensures r != "" ==> exists s <- stages :: s.name == r
  {
    if anchor == "" {
      return if |stages| > 0 then stages[0].name else "";
    }
    assert stages[0..] == stages;
    for i := 0 to |stages|
      invariant NameWhere(stages, anchor, true) == NameWhere(stages[i..], anchor, true)
    {
      if stages[i].anchor == anchor { return stages[i].name; }
    }
    for i := 0 to |stages|
      invariant NameWhere(stages, anchor, true) == ""
      invariant NameWhere(stages, anchor, false) == NameWhere(stages[i..], anchor, false)
    {
      if stages[i].name == anchor { return stages[i].name; }
    }
    return "";
  }

  /** The pending migrations anchored to a stage, in pending order. */
  function Bucket(stages: seq<Stage>, pending: seq<Migration>, stage: string): seq<Migration> {
    if pending == [] then []
    else
      Bucket(stages, pending[..|pending| - 1], stage)
        + if AnchorOf(stages, pending[|pending| - 1].stage) == stage then [pending[|pending| - 1]] else []
  }

  lemma {:induction false} BucketSelects(stages: seq<Stage>, pending: seq<Migration>, stage: string, m: Migration)
    ensures m in Bucket(stages, pending, stage) <==> m in pending && AnchorOf(stages, m.stage) == stage
  {
    if pending != [] {
      BucketSelects(stages, pending[..|pending| - 1], stage, m);
      assert pending == pending[..|pending| - 1] + [pending[|pending| - 1]];
    }
  }

  function BucketAt(byStage: map<string, seq<Migration>>, stage: string): seq<Migration> {
    if stage in byStage then byStage[stage] else []
  }

  lemma {:induction false} BucketGrows(stages: seq<Stage>, pending: seq<Migration>, i: nat, stage: string)
    requires i < |pending|
    ensures Bucket(stages, pending[..i + 1], stage) ==
      if AnchorOf(stages, pending[i].stage) == stage then Bucket(stages, pending[..i], stage) + [pending[i]]
      else Bucket(stages, pending[..i], stage)
  {
    assert pending[..i + 1][..i] == pending[..i];
  }

  /** byStage holds exactly each named stage's bucket. */
  ghost predicate Bucketed(stages: seq<Stage>, pending: seq<Migration>, byStage: map<string, seq<Migration>>) {
    forall s: string | s != "" :: BucketAt(byStage, s) == Bucket(stages, pending, s)
  }

  lemma {:induction false} BucketedGrows(stages: seq<Stage>, pending: seq<Migration>, i: nat,
          byStage: map<string, seq<Migration>>)
    requires i < |pending| && Bucketed(stages, pending[..i], byStage) && AnchorOf(stages, pending[i].stage) != ""
    ensures var stage := AnchorOf(stages, pending[i].stage);
      Bucketed(stages, pending[..i + 1], byStage[stage := BucketAt(byStage, stage) + [pending[i]]])
  {
    var stage := AnchorOf(stages, pending[i].stage);
    var more := byStage[stage := BucketAt(byStage, stage) + [pending[i]]];
    forall s: string | s != "" ensures BucketAt(more, s) == Bucket(stages, pending[..i + 1], s) {
      BucketGrows(stages, pending, i, s);
      assert BucketAt(byStage, s) == Bucket(stages, pending[..i], s);
    }
  }

  method ResolveAnchors(stages: seq<Stage>, pending: seq<Migration>)
    returns (ok: bool, byStage: map<string, seq<Migration>>)
    requires forall s <- stages :: s.name != ""
    ensures ok <==> forall m <- pending :: AnchorOf(stages, m.stage) != ""
    ensures ok ==> Bucketed(stages, pending, byStage)
  {
    byStage := map[];
    for i := 0 to |pending|
      invariant forall j: nat | j < i :: AnchorOf(stages, pending[j].stage) != ""
      invariant Bucketed(stages, pending[..i], byStage)
    {
      var stage := AnchorStage(stages, pending[i].stage);
      if stage == "" { return false, byStage; }
      BucketedGrows(stages, pending, i, byStage);
      byStage := byStage[stage := BucketAt(byStage, stage) + [pending[i]]];
    }
    assert pending[..|pending|] == pending;
    return true, byStage;
  }

  /** What the stage loop visits: each stage's bucket in stage order. */
  function Visits(stages: seq<Stage>, all: seq<Stage>, pending: seq<Migration>): (r: seq<Migration>) {
    if stages == [] then [] else Bucket(all, pending, stages[0].name) + Visits(stages[1..], all, pending)
  }

  predicate UniqueStages(stages: seq<Stage>) {
    forall i, j | 0 <= i < j < |stages| :: stages[i].name != stages[j].name
  }

  predicate Occurs(stages: seq<Stage>, name: string) {
    stages != [] && (stages[0].name == name || Occurs(stages[1..], name))
  }

  lemma {:induction false} OccursOnce(stages: seq<Stage>, name: string)
    ensures Occurs(stages, name) <==> exists s <- stages :: s.name == name
  {
    if stages != [] {
      OccursOnce(stages[1..], name);
      assert stages == [stages[0]] + stages[1..];
    }
  }

  lemma {:induction false} VisitsGrow(stages: seq<Stage>, all: seq<Stage>, pending: seq<Migration>, m: Migration)
    requires UniqueStages(stages)
    ensures multiset(Visits(stages, all, pending + [m])) ==
      multiset(Visits(stages, all, pending)) +
      if Occurs(stages, AnchorOf(all, m.stage)) then multiset{m} else multiset{}
  {
    if stages != [] {
      var s, rest := stages[0], stages[1..];
      VisitsGrow(rest, all, pending, m);
      assert (pending + [m])[..|pending|] == pending;
      if s.name == AnchorOf(all, m.stage) {
        OccursOnce(rest, s.name);
        assert !Occurs(rest, s.name);
        assert Bucket(all, pending + [m], s.name) == Bucket(all, pending, s.name) + [m];
      } else {
        assert Bucket(all, pending + [m], s.name) == Bucket(all, pending, s.name);
      }
    }
  }

  lemma {:induction false} AnchorExists(stages: seq<Stage>, anchor: string)
    requires AnchorOf(stages, anchor) != ""
    ensures exists s <- stages :: s.name == AnchorOf(stages, anchor)
  {
    if anchor == "" { assert stages[0] in stages; }
  }

  lemma {:induction false} AnchorOccurs(stages: seq<Stage>, anchor: string)
    requires AnchorOf(stages, anchor) != ""
    ensures Occurs(stages, AnchorOf(stages, anchor))
  {
    AnchorExists(stages, anchor);
    OccursOnce(stages, AnchorOf(stages, anchor));
  }

  /** When every anchor resolves, the stage loop visits each pending migration exactly as often as it is pending. */
  lemma {:induction false} AnchorsPartition(stages: seq<Stage>, pending: seq<Migration>)
    requires UniqueStages(stages) && forall m <- pending :: AnchorOf(stages, m.stage) != ""
    ensures multiset(Visits(stages, stages, pending)) == multiset(pending)
  {
    if pending == [] {
      VisitsNothing(stages, stages);
    } else {
      var init, last := pending[..|pending| - 1], pending[|pending| - 1];
      AnchorsPartition(stages, init);
      VisitsGrow(stages, stages, init, last);
      assert last in pending;
      AnchorOccurs(stages, last.stage);
      LastCounts(pending);
    }
  }

  lemma {:induction false} LastCounts<T>(s: seq<T>)
    requires s != []
    ensures s == s[..|s| - 1] + [s[|s| - 1]] && multiset(s) == multiset(s[..|s| - 1]) + multiset{s[|s| - 1]}
  {
    assert s == s[..|s| - 1] + [s[|s| - 1]];
  }

  lemma {:induction false} VisitsNothing(stages: seq<Stage>, all: seq<Stage>)
    ensures Visits(stages, all, []) == []
  {
    if stages != [] { VisitsNothing(stages[1..], all); }
  }

  // ---- the string keys of the ledgers ----

  function Key(m: Migration): string {
    m.name + "@" + m.digest
  }

  function LedgerKey(m: Migration, dir: Direction): string {
    if dir.Up? then Key(m) else Key(m) + "/down"
  }

  function Entry(m: Migration, dir: Direction, action: string): string {
    LedgerKey(m, dir) + "/" + action
  }

  /** A content digest: twelve hexadecimal digits. */
  predicate IsDigest(d: string) {
    |d| == 12 && forall c <- d :: '0' <= c <= '9' || 'a' <= c <= 'f'
  }

  /** The action names a ledger records under a key: a is one of them exactly when "<key>/a" is an entry. */
  method ActionsDoneFor(ledger: seq<string>, key: string) returns (done: set<string>)
    ensures forall a :: a in done <==> key + "/" + a in ledger
  {
    done := {};
    var prefix := key + "/";
    for i := 0 to |ledger|
      invariant forall a :: a in done <==> prefix + a in ledger[..i]
    {
      var e := ledger[i];
      assert ledger[..i + 1] == ledger[..i] + [e];
      if |prefix| <= |e| && e[..|prefix|] == prefix {
        assert prefix + e[|prefix|..] == e;
        done := done + {e[|prefix|..]};
      }
      forall a ensures prefix + a == e <==> |prefix| <= |e| && e[..|prefix|] == prefix && a == e[|prefix|..] {}
    }
    assert ledger[..|ledger|] == ledger;
  }

  /** Digests have one length, so a key determines name and content whatever the name holds. */
  lemma {:induction false} KeyUnique(m: Migration, m': Migration)
    requires IsDigest(m.digest) && IsDigest(m'.digest) && Key(m) == Key(m')
    ensures m.name == m'.name && m.digest == m'.digest
  {
    assert m.name == Key(m)[..|Key(m)| - 13] && m'.name == Key(m')[..|Key(m')| - 13];
    assert m.digest == Key(m)[|Key(m)| - 12..] && m'.digest == Key(m')[|Key(m')| - 12..];
  }

  function Tail(dir: Direction, a: string): string {
    if dir.Up? then a else "down/" + a
  }

  lemma {:induction false} EntryIs(m: Migration, dir: Direction, a: string)
    ensures Entry(m, dir, a) == Key(m) + "/" + Tail(dir, a)
  {
  }

  lemma {:induction false} TailsMeetIff(dir: Direction, a: string, dir': Direction, a': string)
    ensures Tail(dir, a) == Tail(dir', a') <==>
      if dir == dir' then a == a' else if dir.Up? then a == "down/" + a' else a' == "down/" + a
  {
    assert Tail(Down, a)[5..] == a && Tail(Down, a')[5..] == a';
  }

  /** The other name begins with m's whole key and a '/', and the rest of it is how m's tail t goes on. */
  predicate Nested(m: Migration, t: string, other: Migration, t': string) {
    && Key(m) + "/" <= other.name
    && t == other.name[|Key(m)| + 1..] + "@" + other.digest + "/" + t'
  }

  lemma {:induction false} NestedMeets(m: Migration, t: string, other: Migration, t': string)
    requires Nested(m, t, other, t')
    ensures Key(m) + "/" + t == Key(other) + "/" + t'
  {
    var z := other.name[|Key(m)| + 1..];
    assert other.name == Key(m) + "/" + z;
    assert Key(m) + "/" + (z + "@" + other.digest + "/" + t') == Key(m) + "/" + z + "@" + other.digest + "/" + t';
  }

  /** Where a longer name's '@' falls inside an entry of a shorter one: never inside the shorter one's key. */
  lemma {:induction false} MeetsNested(m: Migration, t: string, other: Migration, t': string)
    requires IsDigest(m.digest) && |m.name| < |other.name| && Key(m) + "/" + t == Key(other) + "/" + t'
    ensures Nested(m, t, other, t')
  {
    var e, n, k := Key(m) + "/" + t, |other.name|, |m.name|;
    assert e == Key(other) + "/" + t';
    assert e[n] == '@';
    assert e[k + 13] == '/';
    forall i | k < i < k + 13 ensures e[i] != '@' {
      assert e[i] == m.digest[i - k - 1] && m.digest[i - k - 1] in m.digest;
    }
    if n > k + 13 {
      assert other.name == e[..n];
      assert Key(m) + "/" == e[..k + 14];
      assert t == e[k + 14..];
      assert e[k + 14..] == other.name[k + 14..] + ("@" + other.digest + "/" + t');
    }
  }

  /** Two entries are one string exactly when content and tail agree, or one name is nested in the other's entries. */
  lemma {:induction false} EntriesMeetIff(m: Migration, dir: Direction, a: string, m': Migration, dir': Direction,
          a': string)
    requires IsDigest(m.digest) && IsDigest(m'.digest)
    ensures Entry(m, dir, a) == Entry(m', dir', a') <==>
      || (m.name == m'.name && m.digest == m'.digest && Tail(dir, a) == Tail(dir', a'))
      || Nested(m, Tail(dir, a), m', Tail(dir', a')) || Nested(m', Tail(dir', a'), m, Tail(dir, a))
  {
    var t, t' := Tail(dir, a), Tail(dir', a');
    EntryIs(m, dir, a);
    EntryIs(m', dir', a');
    if Nested(m, t, m', t') { NestedMeets(m, t, m', t'); }
    if Nested(m', t', m, t) { NestedMeets(m', t', m, t); }
    if Entry(m, dir, a) == Entry(m', dir', a') {
      if |m.name| < |m'.name| {
        MeetsNested(m, t, m', t');
      } else if |m'.name| < |m.name| {
        MeetsNested(m', t', m, t);
      } else {
        var e := Entry(m, dir, a);
        assert Key(m) == e[..|Key(m)|] && Key(m') == e[..|Key(m')|];
        KeyUnique(m, m');
        assert t == e[|Key(m)| + 1..] && t' == e[|Key(m')| + 1..];
      }
    }
  }

  datatype Record = Record(m: Migration, dir: Direction, action: string)

  function Entries(records: seq<Record>): seq<string> {
    seq(|records|, i requires 0 <= i < |records| => Entry(records[i].m, records[i].dir, records[i].action))
  }

  predicate IsRecord(r: Record, m: Migration, dir: Direction, a: string) {
    r.m.name == m.name && r.m.digest == m.digest && r.dir == dir && r.action == a
  }

  /** The record's entry reads as one for the action although it is another's. */
  predicate Mistaken(r: Record, m: Migration, dir: Direction, a: string) {
    || (r.m.name == m.name && r.m.digest == m.digest && r.dir != dir &&
        if dir.Up? then a == "down/" + r.action else r.action == "down/" + a)
    || Nested(m, Tail(dir, a), r.m, Tail(r.dir, r.action)) || Nested(r.m, Tail(r.dir, r.action), m, Tail(dir, a))
  }

  /**
   Reading the flat ledger back by key finds exactly the actions recorded for that content in that direction, and
   besides them only an up action named like a down action's entry, or one whose entry another name is nested in.
   */
  lemma {:induction false} LedgerRoundTrip(records: seq<Record>, m: Migration, dir: Direction, a: string)
    requires IsDigest(m.digest) && forall r <- records :: IsDigest(r.m.digest)
    ensures LedgerKey(m, dir) + "/" + a in Entries(records) <==>
      exists r <- records :: IsRecord(r, m, dir, a) || Mistaken(r, m, dir, a)
  {
    var ledger, e := Entries(records), Entry(m, dir, a);
    forall i | 0 <= i < |records|
      ensures ledger[i] == e <==> IsRecord(records[i], m, dir, a) || Mistaken(records[i], m, dir, a)
    {
      var r := records[i];
      EntriesMeetIff(m, dir, a, r.m, r.dir, r.action);
      TailsMeetIff(dir, a, r.dir, r.action);
    }
    if r :| r in records && (IsRecord(r, m, dir, a) || Mistaken(r, m, dir, a)) {
      var i :| 0 <= i < |records| && records[i] == r;
      assert ledger[i] == e;
    }
  }

  // ---- pruning ----

  function EntryName(migKey: string): string {
    Before(migKey, '@')
  }

  predicate Superseded(e: string, name: string, keep: string, action: bool) {
    var migKey := if action then Before(e, '/') else e;
    EntryName(migKey) == name && migKey != keep
  }

  function Kept(entries: seq<string>, name: string, keep: string, action: bool): seq<string> {
    if entries == [] then []
    else
      Kept(entries[..|entries| - 1], name, keep, action)
        + if Superseded(entries[|entries| - 1], name, keep, action) then [] else [entries[|entries| - 1]]
  }

  method DropSupersededLedger(entries: seq<string>, name: string, keep: string, action: bool) returns (r: seq<string>)
    ensures r == Kept(entries, name, keep, action)
  {
    r := [];
    for i := 0 to |entries|
      invariant r == Kept(entries[..i], name, keep, action)
    {
      assert entries[..i + 1][..i] == entries[..i];
      if !Superseded(entries[i], name, keep, action) { r := r + [entries[i]]; }
    }
    assert entries[..|entries|] == entries;
  }

  lemma {:induction false} NothingSuperseded(entries: seq<string>, name: string, keep: string, action: bool)
    requires forall e <- entries :: !Superseded(e, name, keep, action)
    ensures Kept(entries, name, keep, action) == entries
  {
    if entries != [] {
      var init, last := entries[..|entries| - 1], entries[|entries| - 1];
      NothingSuperseded(init, name, keep, action);
      assert last in entries && init + [last] == entries;
    }
  }

  // ---- what a migration's completion prunes ----

  /** The part of a name before its first '@' or '/'. */
  function Head(s: string): string {
    EntryName(Before(s, '/'))
  }

  predicate Plain(n: string) {
    '@' !in n && '/' !in n
  }

  predicate Begins(n: string, n': string) {
    n + "@" <= n' || n + "/" <= n'
  }

  lemma {:induction false} HeadIsIff(n: string, n': string)
    ensures Head(n') == n <==> Plain(n) && (n' == n || Begins(n, n'))
  {
    var p := Before(n', '/');
    BeforeIsIff(n', '/', p);
    BeforeIsIff(n', '/', n);
    BeforeIsIff(p, '@', n);
    if Plain(n) && n + "@" <= n' { SeparatorStays(n, n'); }
  }

  lemma {:induction false} SeparatorStays(n: string, n': string)
    requires Plain(n) && n + "@" <= n'
    ensures n + "@" <= Before(n', '/')
  {
    var rest := n'[|n| + 1..];
    assert n' == (n + "@") + rest && '/' !in n + "@";
    BeforeConcat(n + "@", rest, '/');
  }

  lemma {:induction false} KeyHead(name: string, digest: string)
    requires IsDigest(digest)
    ensures '/' !in name ==> '/' !in name + "@" + digest
    ensures Before(name + "@" + digest, '@') == Before(name, '@')
  {
    BeforeConcat(name, "@" + digest, '@');
    assert Before("@" + digest, '@') == "" && name + "@" + digest == name + ("@" + digest);
  }

  lemma {:induction false} CutInName(m: Migration, dir: Direction, a: string)
    requires '/' in m.name
    ensures Before(Entry(m, dir, a), '/') == Before(m.name, '/')
  {
    EntryIs(m, dir, a);
    var entry, n := Entry(m, dir, a), |m.name|;
    assert entry[..n] == m.name && entry == entry[..n] + entry[n..];
    BeforeConcat(m.name, entry[n..], '/');
  }

  lemma {:induction false} CutInKey(m: Migration, dir: Direction, a: string)
    requires IsDigest(m.digest) && '/' !in m.name
    ensures Before(Entry(m, dir, a), '/') == Key(m)
  {
    EntryIs(m, dir, a);
    KeyHead(m.name, m.digest);
    BeforeSeparator(Key(m), '/', Tail(dir, a));
  }

  /**
   An entry is cut down to the head of its migration's name, at a key that is that migration's unless it holds a
   '/'.
   */
  lemma {:induction false} EntryCut(m: Migration, dir: Direction, a: string)
    requires IsDigest(m.digest)
    ensures Before(Entry(m, dir, a), '/') == if '/' in m.name then Before(m.name, '/') else Key(m)
    ensures Head(Entry(m, dir, a)) == Head(m.name)
  {
    if '/' in m.name {
      CutInName(m, dir, a);
    } else {
      CutInKey(m, dir, a);
      KeyHead(m.name, m.digest);
      BeforeNone(m.name, '/');
    }
  }

  /**
   Completing m prunes an action entry of another migration exactly when m's name is plain, without '@' or '/', and
   the other is older content of that name, or has a name that goes on behind it with an '@' or a '/', unless with
   m's very key. When m's own name is not plain it prunes none, not even its own older content.
   */
  lemma {:induction false} PrunesExactly(m: Migration, other: Migration, dir: Direction, a: string)
    requires IsDigest(m.digest) && IsDigest(other.digest)
    ensures Superseded(Entry(other, dir, a), m.name, Key(m), true) <==>
      Plain(m.name) && ((other.name == m.name && other.digest != m.digest) ||
                        (Begins(m.name, other.name) && !(Key(m) + "/" <= other.name)))
  {
    EntryCut(other, dir, a);
    HeadIsIff(m.name, other.name);
    if Plain(m.name) && other.name == m.name && Key(other) == Key(m) { KeyUnique(other, m); }
    if Plain(m.name) && Begins(m.name, other.name) { CutIsKey(m, other); }
  }

  lemma {:induction false} PrefixHolds(p: string, s: string, c: char)
    requires p + [c] <= s
    ensures c in s
  {
    assert s[|p|] == c;
  }

  lemma {:induction false} CutIsKey(m: Migration, other: Migration)
    requires IsDigest(m.digest) && IsDigest(other.digest) && Plain(m.name) && Begins(m.name, other.name)
    ensures Key(m) + "/" <= other.name <==>
      (if '/' in other.name then Before(other.name, '/') else Key(other)) == Key(m)
  {
    KeyHead(m.name, m.digest);
    BeforeIsIff(other.name, '/', Key(m));
    if '/' !in other.name {
      if Key(m) + "/" <= other.name { PrefixHolds(Key(m), other.name, '/'); }
      if Key(other) == Key(m) { KeyUnique(other, m); }
    }
  }

  /** The same for a key: only an '@' separates there. */
  lemma {:induction false} PrunesKeyExactly(m: Migration, other: Migration)
    requires IsDigest(m.digest) && IsDigest(other.digest)
    ensures Superseded(Key(other), m.name, Key(m), false) <==>
      '@' !in m.name && ((other.name == m.name && other.digest != m.digest) || m.name + "@" <= other.name)
  {
    KeyHead(other.name, other.digest);
    BeforeIsIff(other.name, '@', m.name);
    if Key(other) == Key(m) { KeyUnique(other, m); }
  }

  // ---- names that do not interfere ----

  /** The other name begins with n, an '@', what could be n's digest, and a '/'. */
  predicate Embeds(n: string, n': string) {
    && |n'| >= |n| + 14 && n + "@" <= n'
    && IsDigest(n'[|n| + 1..|n| + 13]) && n'[|n| + 13] == '/'
  }

  /** A migration named n could prune, or have its entries confused with, those of one named n'. */
  predicate Shadows(n: string, n': string) {
    n != n' && (Head(n') == n || Embeds(n, n'))
  }

  lemma {:induction false} NestedEmbeds(m: Migration, t: string, other: Migration, t': string)
    requires IsDigest(m.digest) && Nested(m, t, other, t')
    ensures Embeds(m.name, other.name)
  {
    assert other.name[..|Key(m)| + 1] == Key(m) + "/";
    assert other.name[|m.name| + 1..|m.name| + 13] == m.digest;
  }

  /** Migrations neither of whose names shadows the other share no entry. */
  lemma {:induction false} ForeignEntry(m: Migration, dir: Direction, a: string, other: Migration, dir': Direction,
          a': string)
    requires IsDigest(m.digest) && IsDigest(other.digest) && m.name != other.name
    requires !Shadows(m.name, other.name) && !Shadows(other.name, m.name)
    ensures Entry(m, dir, a) != Entry(other, dir', a')
  {
    var t, t' := Tail(dir, a), Tail(dir', a');
    EntriesMeetIff(m, dir, a, other, dir', a');
    if Nested(m, t, other, t') { NestedEmbeds(m, t, other, t'); }
    if Nested(other, t', m, t) { NestedEmbeds(other, t', m, t); }
  }

  /** A migration whose name does not shadow the other's prunes none of its entries, nor any of its own. */
  lemma {:induction false} UnshadowedKeepsEntries(m: Migration, other: Migration, dir: Direction, a: string)
    requires IsDigest(m.digest) && IsDigest(other.digest) && !Shadows(m.name, other.name)
    requires m.name == other.name ==> m.digest == other.digest
    ensures !Superseded(Entry(other, dir, a), m.name, Key(m), true)
  {
    PrunesExactly(m, other, dir, a);
    HeadIsIff(m.name, other.name);
  }
}
