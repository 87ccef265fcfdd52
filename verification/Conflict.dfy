/** Conflict handling: which objects an apply may delete and recreate, and the token that marks them. */
module Conflict {
  import opened Wrappers

  datatype Action = Fail | Recreate | KeepExisting

  datatype Id = Id(apiVersion: string, kind: string, ns: string, name: string)

  /** An object as desired or as live, with the two marker annotations; "" when absent. */
  datatype Object = Object(id: Id, force: string, keepExisting: string)

  /** A target field left "" matches anything. */
  datatype Rule = Rule(target: Id, action: Action, allowDataLoss: bool)
  datatype Policy = Policy(default: Option<Action>, rules: seq<Rule>)
  datatype StageSpec = StageSpec(force: bool, policy: Option<Policy>)

  predicate Matches(id: Id, t: Id) {
    && (t.apiVersion == "" || t.apiVersion == id.apiVersion)
    && (t.kind == "" || t.kind == id.kind)
    && (t.name == "" || t.name == id.name)
    && (t.ns == "" || t.ns == id.ns)
  }

  predicate StatefulData(id: Id) {
    id.apiVersion == "v1" && (id.kind == "PersistentVolumeClaim" || id.kind == "PersistentVolume")
  }

  function EffectiveDefault(s: StageSpec): Action {
    if s.policy.Some? && s.policy.value.default.Some? then s.policy.value.default.value
    else if s.force then Recreate else Fail
  }

  function Rules(s: StageSpec): seq<Rule> {
    if s.policy.Some? then s.policy.value.rules else []
  }

  /** Rule i is the first that matches. */
  ghost predicate FirstMatch(s: StageSpec, id: Id, i: nat) {
    && i < |Rules(s)| && Matches(id, Rules(s)[i].target)
    && forall j: nat | j < i :: !Matches(id, Rules(s)[j].target)
  }

  /** An object's action: its own annotation, else the first matching rule, else the default. */
  ghost predicate Resolves(s: StageSpec, o: Object, a: Action, allowDataLoss: bool, fromRule: bool) {
    if o.force != "" then a == Recreate && !allowDataLoss && !fromRule
    else if exists i: nat :: FirstMatch(s, o.id, i) then
      fromRule && exists i: nat ::
        FirstMatch(s, o.id, i) && a == Rules(s)[i].action && allowDataLoss == Rules(s)[i].allowDataLoss
    else a == EffectiveDefault(s) && !allowDataLoss && !fromRule
  }

  method ActionFor(s: StageSpec, o: Object) returns (a: Action, allowDataLoss: bool, fromRule: bool)
    ensures Resolves(s, o, a, allowDataLoss, fromRule)
  {
    if o.force != "" { return Recreate, false, false; }
    if s.policy.Some? {
      var rules := s.policy.value.rules;
      for i := 0 to |rules|
        invariant forall j: nat | j < i :: !Matches(o.id, rules[j].target)
      {
        if Matches(o.id, rules[i].target) {
          assert FirstMatch(s, o.id, i);
          return rules[i].action, rules[i].allowDataLoss, true;
        }
      }
    }
    return EffectiveDefault(s), false, false;
  }

  ghost predicate IsRecreated(s: StageSpec, o: Object) {
    exists allow: bool, rule: bool :: Resolves(s, o, Recreate, allow, rule)
  }

  ghost predicate IsKept(s: StageSpec, o: Object) {
    exists allow: bool, rule: bool :: Resolves(s, o, KeepExisting, allow, rule)
  }

  /** A rule without allowDataLoss would recreate stored data. */
  ghost predicate Refuses(s: StageSpec, o: Object) {
    StatefulData(o.id) && Resolves(s, o, Recreate, false, true)
  }

  ghost function Stamped(s: StageSpec, o: Object, token: string): Object {
    if IsRecreated(s, o) then o.(force := token)
    else if IsKept(s, o) then o.(keepExisting := "true")
    else o
  }

  lemma {:induction false} ResolvesOnce(s: StageSpec, o: Object, a: Action, al: bool, fr: bool, a': Action, al': bool,
          fr': bool)
    requires Resolves(s, o, a, al, fr) && Resolves(s, o, a', al', fr')
    ensures a == a' && al == al' && fr == fr'
  {
  }

  /** The selectors of one apply: the token to force with, when some object is recreated. */
  datatype Handling = Handling(force: Option<string>, ifNotPresent: bool)

  lemma {:induction false} OnlyAction(s: StageSpec, o: Object, a: Action, allow: bool, rule: bool)
    requires Resolves(s, o, a, allow, rule)
    ensures IsRecreated(s, o) <==> a == Recreate
    ensures IsKept(s, o) <==> a == KeepExisting
    ensures Refuses(s, o) <==> StatefulData(o.id) && a == Recreate && rule && !allow
  {
    forall a': Action, al: bool, fr: bool | Resolves(s, o, a', al, fr) ensures a' == a && al == allow && fr == rule {
      ResolvesOnce(s, o, a, allow, rule, a', al, fr);
    }
  }

  /** What one object's action leaves of it, and of the selectors. */
  function Marked(o: Object, h: Handling, a: Action, token: string): (Object, Handling) {
    match a
    case Recreate => (o.(force := token), h.(force := Some(token)))
    case KeepExisting => (o.(keepExisting := "true"), h.(ifNotPresent := true))
    case Fail => (o, h)
  }

  /** The first n objects are stamped and none of them refused, and h selects for exactly those. */
  ghost predicate Handled(s: StageSpec, before: seq<Object>, now: seq<Object>, n: nat, token: string, h: Handling) {
    && n <= |before| == |now|
    && (forall j | n <= j < |before| :: now[j] == before[j])
    && (forall j | 0 <= j < n :: now[j] == Stamped(s, before[j], token) && !Refuses(s, before[j]))
    && h.force == (if exists j | 0 <= j < n :: IsRecreated(s, before[j]) then Some(token) else None)
    && (h.ifNotPresent <==> exists j | 0 <= j < n :: IsKept(s, before[j]))
  }

  lemma {:induction false} HandledNext(s: StageSpec, before: seq<Object>, now: seq<Object>, n: nat, token: string,
          h: Handling,
                                       a: Action, allow: bool, rule: bool)
    requires Handled(s, before, now, n, token, h) && n < |before| && Resolves(s, before[n], a, allow, rule)
    ensures now[n] == before[n]
    ensures Refuses(s, before[n]) <==> StatefulData(before[n].id) && a == Recreate && rule && !allow
    ensures !Refuses(s, before[n]) ==>
      var m := Marked(now[n], h, a, token);
      Handled(s, before, now[n := m.0], n + 1, token, m.1)
  {
    OnlyAction(s, before[n], a, allow, rule);
  }

  /**
   Stamps every object in place with its marker. It refuses exactly when some rule would recreate stored data
   without allowDataLoss; otherwise the selectors are set exactly when some object carries their marker.
   */
  method ResolveConflictHandling(objects: array<Object>, s: StageSpec, token: string) returns (ok: bool, h: Handling)
    modifies objects
    ensures ok <==> forall i | 0 <= i < objects.Length :: !Refuses(s, old(objects[i]))
    ensures ok ==> Handled(s, old(objects[..]), objects[..], objects.Length, token, h)
  {
    h := Handling(None, false);
    for i := 0 to objects.Length
      invariant Handled(s, old(objects[..]), objects[..], i, token, h)
    {
      ghost var now, last := objects[..], h;
      var action, allow, rule := ActionFor(s, objects[i]);
      HandledNext(s, old(objects[..]), now, i, token, h, action, allow, rule);
      match action {
        case Recreate =>
          if rule && !allow && StatefulData(objects[i].id) { return false, Handling(None, false); }
          objects[i] := objects[i].(force := token);
          h := h.(force := Some(token));
        case KeepExisting =>
          objects[i] := objects[i].(keepExisting := "true");
          h := h.(ifNotPresent := true);
        case Fail =>
      }
      assert objects[..] == now[i := Marked(now[i], last, action, token).0];
    }
    ok := true;
  }

  // ---- what is decided, read off the object and the spec ----

  /** The rule's target names the object, in every field it sets. */
  predicate Targets(t: Id, id: Id) {
    && t.apiVersion in {"", id.apiVersion} && t.kind in {"", id.kind}
    && t.ns in {"", id.ns} && t.name in {"", id.name}
  }

  /** r is the first rule that targets the object. */
  ghost predicate FirstRule(s: StageSpec, id: Id, r: Rule) {
    s.policy.Some? && exists i: nat | i < |s.policy.value.rules| ::
      && s.policy.value.rules[i] == r && Targets(r.target, id)
      && forall j: nat | j < i :: !Targets(s.policy.value.rules[j].target, id)
  }

  lemma {:induction false} FirstRuleIs(s: StageSpec, id: Id, r: Rule)
    ensures FirstRule(s, id, r) <==> exists i: nat :: FirstMatch(s, id, i) && Rules(s)[i] == r
  {
    assert forall t :: Matches(id, t) <==> Targets(t, id);
    if FirstRule(s, id, r) {
      var i: nat :| i < |s.policy.value.rules| && s.policy.value.rules[i] == r &&
        forall j: nat | j < i :: !Targets(s.policy.value.rules[j].target, id);
      assert FirstMatch(s, id, i);
    }
  }

  lemma {:induction false} ByFirstRule(s: StageSpec, o: Object, i: nat)
    requires o.force == "" && FirstMatch(s, o.id, i)
    ensures forall r: Rule :: FirstRule(s, o.id, r) <==> r == Rules(s)[i]
    ensures forall a: Action, allow: bool, rule: bool ::
      Resolves(s, o, a, allow, rule) <==> a == Rules(s)[i].action && allow == Rules(s)[i].allowDataLoss && rule
  {
    forall r: Rule { FirstRuleIs(s, o.id, r); }
    assert forall j: nat | FirstMatch(s, o.id, j) :: i == j;
  }

  lemma {:induction false} ByNoRule(s: StageSpec, o: Object)
    requires o.force == "" && !exists i: nat :: FirstMatch(s, o.id, i)
    ensures forall r: Rule :: !FirstRule(s, o.id, r)
    ensures forall a: Action, allow: bool, rule: bool ::
      Resolves(s, o, a, allow, rule) <==> a == EffectiveDefault(s) && !allow && !rule
  {
    forall r: Rule { FirstRuleIs(s, o.id, r); }
  }

  /**
   An object is recreated exactly when its author forces it, or else its first rule says so, or it has none and the
   policy's default says so, or there is no default and the stage forces.
   */
  lemma {:induction false} RecreatedIff(s: StageSpec, o: Object)
    ensures IsRecreated(s, o) <==>
      || o.force != ""
      || (exists r: Rule :: FirstRule(s, o.id, r) && r.action == Recreate)
      || ((forall r: Rule :: !FirstRule(s, o.id, r)) &&
           if s.policy.Some? && s.policy.value.default.Some? then s.policy.value.default == Some(Recreate) else s.force)
  {
    if o.force != "" {
      assert Resolves(s, o, Recreate, false, false);
    } else if i: nat :| FirstMatch(s, o.id, i) {
      ByFirstRule(s, o, i);
      assert FirstRule(s, o.id, Rules(s)[i]);
      assert Resolves(s, o, Rules(s)[i].action, Rules(s)[i].allowDataLoss, true);
    } else {
      ByNoRule(s, o);
      assert Resolves(s, o, EffectiveDefault(s), false, false);
    }
  }

  /**
   A stage is refused exactly for an object that holds data, a PersistentVolumeClaim or a PersistentVolume, which its
   author does not force and whose first rule recreates it without allowing the loss of data.
   */
  lemma {:induction false} RefusedIff(s: StageSpec, o: Object)
    ensures Refuses(s, o) <==>
      && o.id.apiVersion == "v1" && o.id.kind in {"PersistentVolumeClaim", "PersistentVolume"}
      && o.force == "" && exists r: Rule :: FirstRule(s, o.id, r) && r.action == Recreate && !r.allowDataLoss
  {
    if o.force == "" {
      if i: nat :| FirstMatch(s, o.id, i) { ByFirstRule(s, o, i); } else { ByNoRule(s, o); }
    }
  }

  // ---- histories of applies ----

  /** What the cluster holds: the force annotation each live object was left with, "" when none. */
  type Live = map<Id, string>

  datatype Apply = Apply(stage: StageSpec, desired: seq<Object>, token: string)

  /** The server forces an object whose desired or live annotation equals the selector's value. */
  ghost predicate ForceSelected(a: Apply, live: Live, o: Object) {
    && (exists x <- a.desired :: IsRecreated(a.stage, x))
    && (Stamped(a.stage, o, a.token).force == a.token || (o.id in live && live[o.id] == a.token))
  }

  /** After an apply a live object carries the annotation it was stamped with, or keeps what it had. */
  ghost predicate Applied(a: Apply, live: Live, live': Live) {
    forall id <- live' ::
      || (id in live && live'[id] == live[id])
      || live'[id] == ""
      || exists o <- a.desired :: o.id == id && live'[id] == Stamped(a.stage, o, a.token).force
  }

  /** No object the history starts with carries a token of one of its applies. */
  ghost predicate StartsClear(applies: seq<Apply>, live: Live) {
    forall id <- live, i: nat | i < |applies| :: live[id] != applies[i].token
  }

  ghost predicate IsHistory(applies: seq<Apply>, lives: seq<Live>) {
    && |lives| == |applies| + 1 && StartsClear(applies, lives[0])
    && forall i: nat | i < |applies| :: Applied(applies[i], lives[i], lives[i + 1])
  }

  /** Tokens are minted afresh: non-empty, pairwise distinct, and no author wrote one on a desired object. */
  ghost predicate FreshTokens(applies: seq<Apply>) {
    && (forall i: nat | i < |applies| :: applies[i].token != "")
    && (forall i: nat, j: nat | i < j < |applies| :: applies[i].token != applies[j].token)
    && (forall i: nat, j: nat | i < |applies| && j < |applies| ::
         forall o <- applies[i].desired :: o.force != applies[j].token)
  }

  /** No live annotation carries the token of an apply still to come. */
  lemma {:induction false} LiveIsStale(applies: seq<Apply>, lives: seq<Live>, k: nat, j: nat, id: Id)
    requires IsHistory(applies, lives) && FreshTokens(applies) && k <= j < |applies| && id in lives[k]
    ensures lives[k][id] != applies[j].token
  {
    if k > 0 {
      var a := applies[k - 1];
      assert Applied(a, lives[k - 1], lives[k]);
      if id in lives[k - 1] { LiveIsStale(applies, lives, k - 1, j, id); }
      if o :| o in a.desired && o.id == id && lives[k][id] == Stamped(a.stage, o, a.token).force {
        assert o.force != applies[j].token;
        assert a.token != applies[j].token;
      }
    }
  }

  /**
   Across any history of applies with fresh tokens, the force selector of an apply selects one of its objects,
   by its desired or its leftover live annotation, exactly when this apply resolved that object to Recreate.
   */
  lemma {:induction false} ForcedIffRecreated(applies: seq<Apply>, lives: seq<Live>, k: nat, o: Object)
    requires IsHistory(applies, lives) && FreshTokens(applies) && k < |applies| && o in applies[k].desired
    ensures ForceSelected(applies[k], lives[k], o) <==> IsRecreated(applies[k].stage, o)
  {
    if o.id in lives[k] { LiveIsStale(applies, lives, k, k, o.id); }
    assert o.force != applies[k].token;
  }

  /** With one constant token instead, an object recreated once would be forced again under a Fail policy. */
  lemma {:induction false} ConstantTokenForcesStale(token: string, data: Id, other: Id)
    requires token != "" && data != other
    ensures var plain := StageSpec(false, None);
      var a := Apply(plain, [Object(data, "", ""), Object(other, "yes", "")], token);
      ForceSelected(a, map[data := token], Object(data, "", "")) && !IsRecreated(plain, Object(data, "", ""))
  {
    var plain := StageSpec(false, None);
    var forced := Object(other, "yes", "");
    assert Resolves(plain, forced, Recreate, false, false);
    assert IsRecreated(plain, forced);
    var a := Apply(plain, [Object(data, "", ""), forced], token);
    assert a.desired[1] == forced;
  }

  // ---- the other selector, whose value is constant ----

  /**
   The server leaves an existing object alone when its desired annotation, or the leftover one where the apply
   library reads it, is the constant. `leftover` holds the live annotations it reads.
   */
  ghost predicate KeepSelected(a: Apply, leftover: Live, o: Object) {
    && (exists x <- a.desired :: IsKept(a.stage, x))
    && (Stamped(a.stage, o, a.token).keepExisting == "true" || (o.id in leftover && leftover[o.id] == "true"))
  }

  /** The constant stands on the object without this apply having put it there. */
  predicate CarriesConstant(leftover: Live, o: Object) {
    o.keepExisting == "true" || (o.id in leftover && leftover[o.id] == "true")
  }

  /**
   The selector picks exactly the objects resolved to KeepExisting if and only if no other object carries the
   constant, from its author or an earlier apply, or none is resolved to KeepExisting at all.
   */
  lemma {:induction false} KeptIffResolved(a: Apply, leftover: Live)
    ensures (forall o <- a.desired :: KeepSelected(a, leftover, o) <==> IsKept(a.stage, o)) <==>
      || (forall o <- a.desired :: !IsKept(a.stage, o))
      || (forall o <- a.desired :: CarriesConstant(leftover, o) ==> IsKept(a.stage, o))
  {
    forall o <- a.desired
      ensures IsKept(a.stage, o) ==> KeepSelected(a, leftover, o)
      ensures !IsKept(a.stage, o) ==> (KeepSelected(a, leftover, o) <==>
        (exists x <- a.desired :: IsKept(a.stage, x)) && CarriesConstant(leftover, o))
    {
      if IsKept(a.stage, o) { KeptIsNotRecreated(a.stage, o); }
    }
  }

  lemma {:induction false} KeptIsNotRecreated(s: StageSpec, o: Object)
    requires IsKept(s, o)
    ensures !IsRecreated(s, o)
  {
    var allow: bool, rule: bool :| Resolves(s, o, KeepExisting, allow, rule);
    OnlyAction(s, o, KeepExisting, allow, rule);
  }

  /** An object whose author wrote the annotation is left alone under a Fail policy once another object is kept. */
  lemma {:induction false} AuthorsKeepIsTaken(o: Object, kept: Object, rule: Rule)
    requires o.keepExisting == "true" && o.force == "" && kept.force == ""
    requires rule.action == KeepExisting && Matches(kept.id, rule.target) && !Matches(o.id, rule.target)
    ensures var s := StageSpec(false, Some(Policy(None, [rule])));
      KeepSelected(Apply(s, [o, kept], "t"), map[], o) && !IsKept(s, o) && !IsRecreated(s, o)
  {
    var s := StageSpec(false, Some(Policy(None, [rule])));
    assert FirstMatch(s, kept.id, 0);
    assert Resolves(s, kept, KeepExisting, rule.allowDataLoss, true);
    assert Resolves(s, o, Fail, false, false);
    OnlyAction(s, o, Fail, false, false);
    assert [o, kept][1] == kept && IsKept(s, kept);
  }
}
