/** The dependsOn walk that refuses a StageSet whose dependencies lead back to it. */
module DependencyCycle {
  import opened Strings

  datatype Dependency = Dependency(ns: string, name: string) // ns "" means the depending StageSet's own
  datatype StageSet = StageSet(ns: string, name: string, dependsOn: seq<Dependency>)

  /** What reading the StageSet a key names answers; an unlisted key is not found. */
  datatype Read = Found(ss: StageSet) | Failed

  type Graph = map<string, Read>

  function KeyOf(ns: string, name: string): string {
    ns + "/" + name
  }

  function DependencyKeys(ss: StageSet): seq<string> {
    seq(|ss.dependsOn|, i requires 0 <= i < |ss.dependsOn| =>
      KeyOf(if ss.dependsOn[i].ns == "" then ss.ns else ss.dependsOn[i].ns, ss.dependsOn[i].name))
  }

  /** A dependency without a namespace of its own names a StageSet in the depending one's namespace. */
  lemma {:induction false} DependencyKeysAre(ss: StageSet, k: string)
    ensures k in DependencyKeys(ss) <==> exists d <- ss.dependsOn ::
      k == (if d.ns == "" then ss.ns else d.ns) + "/" + d.name
  {
    if k in DependencyKeys(ss) {
      var i :| 0 <= i < |DependencyKeys(ss)| && DependencyKeys(ss)[i] == k;
      assert ss.dependsOn[i] in ss.dependsOn;
    }
    if d :| d in ss.dependsOn && k == (if d.ns == "" then ss.ns else d.ns) + "/" + d.name {
      var i :| 0 <= i < |ss.dependsOn| && ss.dependsOn[i] == d;
      assert DependencyKeys(ss)[i] == k;
    }
  }

  /** The keys the StageSet named k depends on; a missing or malformed one is a leaf. */
  function Successors(g: Graph, k: string): seq<string> {
    if '/' in k && k in g && g[k].Found? then DependencyKeys(g[k].ss) else []
  }

  /** A non-empty chain of dependencies starting at one of ss's own. */
  ghost predicate IsChain(ss: StageSet, g: Graph, p: seq<string>) {
    && p != [] && p[0] in DependencyKeys(ss)
    && forall i: nat | i + 1 < |p| :: p[i + 1] in Successors(g, p[i])
  }

  ghost predicate LeadsTo(ss: StageSet, g: Graph, k: string) {
    exists p: seq<string> :: IsChain(ss, g, p) && p[|p| - 1] == k
  }

  lemma {:induction false} ChainGrows(ss: StageSet, g: Graph, k: string, next: string)
    requires LeadsTo(ss, g, k) && next in Successors(g, k)
    ensures LeadsTo(ss, g, next)
  {
    var p :| IsChain(ss, g, p) && p[|p| - 1] == k;
    var q := p + [next];
    assert IsChain(ss, g, q) && q[|q| - 1] == next;
  }

  lemma {:induction false} ChainStarts(ss: StageSet, g: Graph, k: string)
    requires k in DependencyKeys(ss)
    ensures LeadsTo(ss, g, k)
  {
    assert IsChain(ss, g, [k]) && [k][|[k]| - 1] == k;
  }

  /** A set that holds ss's own dependencies and the successors of all it holds. */
  ghost predicate Encloses(ss: StageSet, g: Graph, closed: set<string>) {
    && (forall k <- DependencyKeys(ss) :: k in closed)
    && (forall k <- closed, d <- Successors(g, k) :: d in closed)
  }

  /** A chain never leaves such a set. */
  lemma {:induction false} ChainStaysInside(ss: StageSet, g: Graph, p: seq<string>, closed: set<string>, n: nat)
    requires IsChain(ss, g, p) && n < |p| && Encloses(ss, g, closed)
    ensures p[n] in closed
  {
    if n > 0 {
      ChainStaysInside(ss, g, p, closed, n - 1);
    }
  }

  lemma {:induction false} Enclosed(ss: StageSet, g: Graph) returns (all: set<string>)
    ensures Encloses(ss, g, all)
  {
    all := (set k | k in DependencyKeys(ss)) + (set k, d | k in g && d in Successors(g, k) :: d);
  }

  /** All that is queued can be reached, and all that must be visited is seen or queued. */
  ghost predicate Frontier(ss: StageSet, g: Graph, all: set<string>, seen: set<string>, queue: seq<string>) {
    && (forall k <- queue :: LeadsTo(ss, g, k) && k in all)
    && (forall k <- DependencyKeys(ss) :: k in seen || k in queue)
    && (forall k <- seen, d <- Successors(g, k) :: d in seen || d in queue)
  }

  lemma {:induction false} Started(ss: StageSet, g: Graph, all: set<string>)
    requires Encloses(ss, g, all)
    ensures Frontier(ss, g, all, {}, DependencyKeys(ss))
  {
    forall k <- DependencyKeys(ss) { ChainStarts(ss, g, k); }
  }

  lemma {:induction false} Visited(ss: StageSet, g: Graph, all: set<string>, seen: set<string>, queue: seq<string>)
    requires Encloses(ss, g, all) && queue != [] && Frontier(ss, g, all, seen, queue)
    ensures LeadsTo(ss, g, queue[0]) && queue[0] in all
    ensures queue[0] in seen ==> Frontier(ss, g, all, seen, queue[1..])
    ensures Frontier(ss, g, all, seen + {queue[0]}, queue[1..] + Successors(g, queue[0]))
  {
    var k, rest := queue[0], queue[1..];
    var after := rest + Successors(g, k);
    assert k in queue;
    assert forall x :: x in queue <==> x == k || x in rest;
    assert forall x :: x in after <==> x in rest || x in Successors(g, k);
    forall d <- Successors(g, k) ensures LeadsTo(ss, g, d) && d in all { ChainGrows(ss, g, k, d); }
  }

  lemma {:induction false} Exhausted(ss: StageSet, g: Graph, all: set<string>, seen: set<string>)
    requires Frontier(ss, g, all, seen, [])
    ensures Encloses(ss, g, seen)
  {
    assert forall k: string :: k !in [];
  }

  lemma {:induction false} OnlyEnclosed(ss: StageSet, g: Graph, closed: set<string>, k: string)
    requires Encloses(ss, g, closed) && LeadsTo(ss, g, k)
    ensures k in closed
  {
    var p :| IsChain(ss, g, p) && p[|p| - 1] == k;
    ChainStaysInside(ss, g, p, closed, |p| - 1);
  }

  /**
   Breadth-first from the dependencies of ss. It reports a cycle exactly when a non-empty chain leads from ss
   back to its own key; it fails only on a StageSet it reaches and cannot read, having found no cycle yet.
   */
  method HasDependencyCycle(ss: StageSet, g: Graph) returns (cycle: bool, err: bool)
    ensures !err ==> (cycle <==> LeadsTo(ss, g, KeyOf(ss.ns, ss.name)))
    ensures err ==> !cycle && exists k <- g :: g[k].Failed? && LeadsTo(ss, g, k)
  {
    var start := KeyOf(ss.ns, ss.name);
    var seen: set<string> := {};
    var queue := DependencyKeys(ss);
    ghost var all := Enclosed(ss, g);
    Started(ss, g, all);
    while queue != []
      invariant start !in seen && Frontier(ss, g, all, seen, queue)
      decreases all - seen, |queue|
    {
      var k := queue[0];
      Visited(ss, g, all, seen, queue);
      queue := queue[1..];
      if k == start { return true, false; }
      if k in seen { continue; }
      seen := seen + {k};
      if '/' in k && k in g && g[k].Failed? { return false, true; }
      queue := queue + Successors(g, k);
    }
    Exhausted(ss, g, all, seen);
    if LeadsTo(ss, g, start) { OnlyEnclosed(ss, g, seen, start); }
    return false, false;
  }

  // ---- two StageSets that depend on each other ----

  /**
   Two StageSets of different names that each name the other without a namespace: a cycle when they share one, none
   when they do not and neither dependency exists.
   */
  lemma {:induction false} OwnNamespaceDecides(a: StageSet, b: StageSet, g: Graph)
    requires '/' !in a.ns && '/' !in b.ns
    requires a.dependsOn == [Dependency("", b.name)] && b.dependsOn == [Dependency("", a.name)]
    requires g == map[KeyOf(a.ns, a.name) := Found(a), KeyOf(b.ns, b.name) := Found(b)] && a.name != b.name
    ensures LeadsTo(a, g, KeyOf(a.ns, a.name)) <==> a.ns == b.ns
  {
    var ka, kb, kab := KeyOf(a.ns, a.name), KeyOf(b.ns, b.name), KeyOf(a.ns, b.name);
    assert DependencyKeys(a) == [kab];
    assert ka[|a.ns|] == '/' && kb[|b.ns|] == '/';
    if a.ns == b.ns {
      KeysDiffer(a.ns, a.name, b.name);
      ChainStarts(a, g, kab);
      assert Successors(g, kab) == [ka];
      ChainGrows(a, g, kab, ka);
    } else {
      NotAKey(a, b, g);
      assert Encloses(a, g, {kab});
      if LeadsTo(a, g, ka) {
        OnlyEnclosed(a, g, {kab}, ka);
        KeysDiffer(a.ns, a.name, b.name);
      }
    }
  }

  lemma {:induction false} KeysDiffer(ns: string, x: string, y: string)
    ensures KeyOf(ns, x) == KeyOf(ns, y) ==> x == y
  {
    assert KeyOf(ns, x)[|ns| + 1..] == x && KeyOf(ns, y)[|ns| + 1..] == y;
  }

  lemma {:induction false} NotAKey(a: StageSet, b: StageSet, g: Graph)
    requires '/' !in a.ns && '/' !in b.ns && a.ns != b.ns && a.name != b.name
    requires g.Keys == {KeyOf(a.ns, a.name), KeyOf(b.ns, b.name)}
    ensures KeyOf(a.ns, b.name) !in g
  {
    KeysDiffer(a.ns, a.name, b.name);
    if KeyOf(a.ns, b.name) == KeyOf(b.ns, b.name) {
      SplitUnique(a.ns, b.name, b.ns, b.name, '/');
    }
  }
}
