/**
 The cache of minted ServiceAccount tokens and the cache of tenant connections built on it. Each
 critical section of the token cache is one atomic step; between the steps of one mint anything
 may happen, including any number of Forget calls and the mints of other keys.
 */
module TokenCache {
  import opened Wrappers
  import opened Strings

  type Key = string
  type Token = string
  type Time = int

  datatype Cached = Cached(token: Token, expires: Time)
  datatype Contents = Contents(tokens: map<Key, Cached>, epochs: map<Key, nat>)

  function Epoch(c: Contents, key: Key): nat {
    if key in c.epochs then c.epochs[key] else 0
  }

  /** A hit has strictly more than the refresh margin left. */
  function Hit(c: Contents, key: Key, now: Time, margin: int): Option<Token> {
    if key in c.tokens && c.tokens[key].expires - now > margin then Some(c.tokens[key].token) else None
  }

  /** The write after a mint, dropped when the key's epoch moved since it was captured. */
  function Written(c: Contents, key: Key, epochAtMint: nat, minted: Cached): Contents {
    if Epoch(c, key) == epochAtMint then c.(tokens := c.tokens[key := minted]) else c
  }

  function Evicted(c: Contents, key: Key): Contents {
    Contents(c.tokens - {key}, c.epochs[key := Epoch(c, key) + 1])
  }

  /** The mutable cache; every method is one section under its mutex. */
  class Cache {
    const margin: int
    var tokens: map<Key, Cached>
    var epochs: map<Key, nat>

    constructor (margin: int)
      ensures this.margin == margin && View() == Contents(map[], map[])
    {
      this.margin := margin;
      tokens, epochs := map[], map[];
    }

    ghost function View(): Contents
      reads this
    {
      Contents(tokens, epochs)
    }

    method Lookup(key: Key, now: Time) returns (r: Option<Token>)
      ensures r == Hit(View(), key, now, margin)
    {
      if key !in tokens || tokens[key].expires - now <= margin { return None; }
      return Some(tokens[key].token);
    }

    method CaptureEpoch(key: Key) returns (epoch: nat)
      ensures epoch == Epoch(View(), key)
    {
      epoch := if key in epochs then epochs[key] else 0;
    }

    method Write(key: Key, epochAtMint: nat, minted: Cached)
      modifies this
      ensures View() == Written(old(View()), key, epochAtMint, minted)
    {
      var epoch := CaptureEpoch(key);
      if epoch == epochAtMint { tokens := tokens[key := minted]; }
    }

    method Forget(key: Key)
      modifies this
      ensures View() == Evicted(old(View()), key)
    {
      var epoch := CaptureEpoch(key);
      tokens := tokens - {key};
      epochs := epochs[key := epoch + 1];
    }

    /** A Token call that nothing interleaves with; `minted` is what the API server answers, if asked. */
    method Token(key: Key, now: Time, minted: Option<Cached>) returns (r: Option<Token>)
      modifies this
      ensures Hit(old(View()), key, now, margin).Some? ==>
        r == Hit(old(View()), key, now, margin) && View() == old(View())
      ensures Hit(old(View()), key, now, margin).None? && minted.Some? ==>
        r == Some(minted.value.token) && View() == old(View()).(tokens := old(tokens)[key := minted.value])
      ensures Hit(old(View()), key, now, margin).None? && minted.None? ==> r == None && View() == old(View())
    {
      r := Lookup(key, now);
      if r.Some? { return; }
      var epochAtMint := CaptureEpoch(key);
      if minted.None? { return None; }
      Write(key, epochAtMint, minted.value);
      return Some(minted.value.token);
    }
  }

  // ---- every interleaving of Token and Forget calls ----

  /**
   Where the one mint in flight for a key stands. `at` and `born` are the event counts of the capture and of the
   mint's start.
   */
  datatype Flight =
    | Entered
    | Missed
    | Captured(epoch: nat, at: nat)
    | Minting(epoch: nat, at: nat, born: nat)
    | Minted(epoch: nat, at: nat, born: nat, minted: Cached)

  /**
   `births` is the start of the mint each cached token came from; `mints` what each mint returned; `forgets` each
   key's latest Forget.
   */
  datatype System = System(
    cache: Contents, flights: map<Key, Flight>, clock: nat,
    births: map<Key, nat>, mints: map<nat, (Key, Cached)>, forgets: map<Key, nat>)

  datatype Step =
    | Join(key: Key)                        // a caller missed and leads the flight for its key; waiters change nothing
    | Recheck(key: Key, now: Time)          // the second lookup, inside the flight
    | Capture(key: Key)
    | MintBegins(key: Key)
    | MintEnds(key: Key, minted: Option<Cached>)
    | Write(key: Key)                       // the guarded write; leader and waiters get the token either way
    | Forget(key: Key)

  ghost predicate Next(margin: int, s: System, s': System, step: Step) {
    s'.clock == s.clock + 1 &&
    var key := step.key;
    match step
    case Join(_) => key !in s.flights && s' == s.(clock := s.clock + 1, flights := s.flights[key := Entered])
    case Recheck(_, now) =>
      && key in s.flights && s.flights[key] == Entered
      && s' == s.(clock := s.clock + 1,
                  flights := if Hit(s.cache, key, now, margin).Some? then s.flights - {key}
                    else s.flights[key := Missed])
    case Capture(_) =>
      && key in s.flights && s.flights[key] == Missed
      && s' == s.(clock := s.clock + 1, flights := s.flights[key := Captured(Epoch(s.cache, key), s.clock)])
    case MintBegins(_) =>
      && key in s.flights && s.flights[key].Captured?
      && var f := s.flights[key];
         s' == s.(clock := s.clock + 1, flights := s.flights[key := Minting(f.epoch, f.at, s.clock)])
    case MintEnds(_, minted) =>
      && key in s.flights && s.flights[key].Minting?
      && var f := s.flights[key];
         if minted.None? then s' == s.(clock := s.clock + 1, flights := s.flights - {key})
         else s' == s.(clock := s.clock + 1, flights := s.flights[key := Minted(f.epoch, f.at, f.born, minted.value)],
                       mints := s.mints[f.born := (key, minted.value)])
    case Write(_) =>
      && key in s.flights && s.flights[key].Minted?
      && var f := s.flights[key];
         s' == s.(clock := s.clock + 1, flights := s.flights - {key}, cache := Written(s.cache, key, f.epoch, f.minted),
                  births := if Epoch(s.cache, key) == f.epoch then s.births[key := f.born] else s.births)
    case Forget(_) =>
      s' == s.(clock := s.clock + 1, cache := Evicted(s.cache, key), births := s.births - {key},
                  forgets := s.forgets[key := s.clock])
  }

  ghost predicate Init(s: System) {
    s == System(Contents(map[], map[]), map[], 0, map[], map[], map[])
  }

  ghost predicate IsRun(margin: int, run: seq<System>, steps: seq<Step>) {
    && |run| == |steps| + 1 && Init(run[0])
    && forall i: nat | i < |steps| :: Next(margin, run[i], run[i + 1], steps[i])
  }

  /** No Forget of the key at or after that event. */
  ghost predicate NoForgetSince(s: System, key: Key, event: nat) {
    key in s.forgets ==> s.forgets[key] < event
  }

  ghost predicate FlightSound(s: System, key: Key, f: Flight) {
    && (f.Captured? || f.Minting? || f.Minted? ==>
         && f.epoch <= Epoch(s.cache, key) && f.at < s.clock
         && (f.epoch == Epoch(s.cache, key) <==> NoForgetSince(s, key, f.at)))
    && (f.Minting? || f.Minted? ==> f.at < f.born < s.clock)
    && (f.Minting? ==> f.born !in s.mints)
    && (f.Minted? ==> f.born in s.mints && s.mints[f.born] == (key, f.minted))
  }

  /**
   The cached token of a key is what some mint for that key returned, and that mint began after the key's latest
   Forget.
   */
  ghost predicate EntrySound(s: System, key: Key) {
    && key in s.births && NoForgetSince(s, key, s.births[key])
    && s.births[key] in s.mints && key in s.cache.tokens && s.mints[s.births[key]] == (key, s.cache.tokens[key])
  }

  ghost predicate Sound(s: System) {
    && (forall key <- s.forgets :: s.forgets[key] < s.clock)
    && (forall key <- s.flights :: FlightSound(s, key, s.flights[key]))
    && (forall key <- s.cache.tokens :: EntrySound(s, key))
    && (forall b <- s.mints :: b < s.clock)
    && (forall k: Key, k': Key | k in s.flights && k' in s.flights && k != k' ::
      DistinctMints(s.flights[k], s.flights[k']))
  }

  predicate DistinctMints(f: Flight, f': Flight) {
    f.Minting? && f'.Minting? ==> f.born != f'.born
  }

  lemma {:induction false} ForgetSound(margin: int, s: System, s': System, step: Step)
    requires Sound(s) && Next(margin, s, s', step) && step.Forget?
    ensures Sound(s')
  {
    forall key <- s'.flights ensures FlightSound(s', key, s'.flights[key]) {
      assert FlightSound(s, key, s.flights[key]);
    }
    forall key <- s'.cache.tokens ensures EntrySound(s', key) {
      assert EntrySound(s, key);
    }
  }

  lemma {:induction false} WriteSound(margin: int, s: System, s': System, step: Step)
    requires Sound(s) && Next(margin, s, s', step) && step.Write?
    ensures Sound(s')
  {
    assert FlightSound(s, step.key, s.flights[step.key]);
    forall key <- s'.flights ensures FlightSound(s', key, s'.flights[key]) {
      assert FlightSound(s, key, s.flights[key]);
    }
    forall key <- s'.cache.tokens ensures EntrySound(s', key) {
      if key in s.cache.tokens { assert EntrySound(s, key); }
    }
  }

  lemma {:induction false} MintEndsFlight(margin: int, s: System, s': System, step: Step, key: Key)
    requires Sound(s) && Next(margin, s, s', step) && step.MintEnds? && key in s'.flights
    ensures FlightSound(s', key, s'.flights[key])
  {
    var own := s.flights[step.key];
    assert FlightSound(s, step.key, own) && FlightSound(s, key, s.flights[key]);
    if key != step.key { assert DistinctMints(s.flights[key], own); }
  }

  lemma {:induction false} MintEndsSound(margin: int, s: System, s': System, step: Step)
    requires Sound(s) && Next(margin, s, s', step) && step.MintEnds?
    ensures Sound(s')
  {
    assert FlightSound(s, step.key, s.flights[step.key]);
    forall key <- s'.flights ensures FlightSound(s', key, s'.flights[key]) {
      MintEndsFlight(margin, s, s', step, key);
    }
    forall key <- s'.cache.tokens ensures EntrySound(s', key) {
      assert EntrySound(s, key);
    }
  }

  /** The steps before the mint's answer touch only the key's own flight. */
  lemma {:induction false} FlightStepSound(margin: int, s: System, s': System, step: Step)
    requires Sound(s) && Next(margin, s, s', step) && (step.Join? || step.Recheck? || step.Capture? || step.MintBegins?)
    ensures Sound(s')
  {
    if step.key in s.flights { assert FlightSound(s, step.key, s.flights[step.key]); }
    forall key <- s'.flights ensures FlightSound(s', key, s'.flights[key]) {
      if key in s.flights { assert FlightSound(s, key, s.flights[key]); }
    }
    forall k: Key, k': Key | k in s'.flights && k' in s'.flights && k != k'
      ensures DistinctMints(s'.flights[k], s'.flights[k'])
    {
      if k in s.flights && k' in s.flights {
        assert FlightSound(s, k, s.flights[k]) && FlightSound(s, k', s.flights[k']);
        assert DistinctMints(s.flights[k], s.flights[k']);
      }
    }
    forall key <- s'.cache.tokens ensures EntrySound(s', key) {
      assert EntrySound(s, key);
    }
  }

  lemma {:induction false} RunSound(margin: int, run: seq<System>, steps: seq<Step>, k: nat)
    requires IsRun(margin, run, steps) && k < |run|
    ensures Sound(run[k])
  {
    if k > 0 {
      RunSound(margin, run, steps, k - 1);
      var s, s', step := run[k - 1], run[k], steps[k - 1];
      if step.Forget? {
        ForgetSound(margin, s, s', step);
      } else if step.Write? {
        WriteSound(margin, s, s', step);
      } else if step.MintEnds? {
        MintEndsSound(margin, s, s', step);
      } else {
        FlightStepSound(margin, s, s', step);
      }
    }
  }

  /**
   In every interleaving, a lookup that hits returns a token with more than the refresh margin left, which came
   from a mint for that very key that began after the key's latest Forget.
   */
  lemma {:induction false} HitIsNeverEvicted(margin: int, run: seq<System>, steps: seq<Step>, k: nat, key: Key,
          now: Time)
    requires IsRun(margin, run, steps) && k < |run|
    requires Hit(run[k].cache, key, now, margin).Some?
    ensures var s := run[k];
      exists born: nat | born in s.mints ::
        && s.mints[born].0 == key && s.mints[born].1.token == Hit(s.cache, key, now, margin).value
        && s.mints[born].1.expires - now > margin
        && NoForgetSince(s, key, born)
  {
    RunSound(margin, run, steps, k);
    assert EntrySound(run[k], key);
  }

  /**
   The token a flight hands to its leader and waiters is kept exactly when no Forget of its key came since the
   flight captured the epoch. Otherwise they still receive it, although a Forget has come since.
   */
  lemma {:induction false} MintIsKeptIff(margin: int, run: seq<System>, steps: seq<Step>, k: nat, key: Key)
    requires IsRun(margin, run, steps) && k + 1 < |run| && steps[k] == Write(key)
    ensures key in run[k].flights && run[k].flights[key].Minted?
    ensures var f := run[k].flights[key];
      if NoForgetSince(run[k], key, f.at)
      then run[k + 1].cache == run[k].cache.(tokens := run[k].cache.tokens[key := f.minted])
      else run[k + 1].cache == run[k].cache
  {
    RunSound(margin, run, steps, k);
    assert Next(margin, run[k], run[k + 1], steps[k]);
    assert FlightSound(run[k], key, run[k].flights[key]);
  }

  /** Forgetting or writing one key leaves what is found under every other. */
  lemma {:induction false} OnlyItsKey(c: Contents, key: Key, key': Key, epoch: nat, minted: Cached, now: Time,
          margin: int)
    ensures Hit(Evicted(c, key), key', now, margin) == if key' == key then None else Hit(c, key', now, margin)
    ensures key' != key ==> Hit(Written(c, key, epoch, minted), key', now, margin) == Hit(c, key', now, margin)
    ensures key' != key ==> Epoch(Evicted(c, key), key') == Epoch(c, key')
  {
  }

  /** A token just kept is what the next lookups find, as long as it has more than the refresh margin left. */
  lemma {:induction false} KeptTokenHits(margin: int, run: seq<System>, steps: seq<Step>, k: nat, key: Key, now: Time)
    requires IsRun(margin, run, steps) && k + 1 < |run| && steps[k] == Write(key)
    ensures key in run[k].flights && run[k].flights[key].Minted?
    ensures var f := run[k].flights[key];
      NoForgetSince(run[k], key, f.at) ==>
        Hit(run[k + 1].cache, key, now, margin) ==
        if f.minted.expires - now > margin then Some(f.minted.token) else None
  {
    MintIsKeptIff(margin, run, steps, k, key);
  }

  // ---- connections ----

  /** A client is known by the bearer token baked into it. */
  datatype Client = Client(bearer: Token)
  datatype Target = Target(client: Client, token: Token)

  function CacheKey(ns: string, sa: string): Key {
    ns + "/" + sa
  }

  function LocalTargetKey(ns: string, sa: string): string {
    "local/" + CacheKey(ns, sa)
  }

  /** Namespaces hold no '/', so distinct tenants never share a credential or a connection. */
  lemma {:induction false} TenantKeysDistinct(ns: string, sa: string, ns': string, sa': string)
    requires '/' !in ns && '/' !in ns'
    ensures CacheKey(ns, sa) == CacheKey(ns', sa') ==> ns == ns' && sa == sa'
    ensures LocalTargetKey(ns, sa) == LocalTargetKey(ns', sa') ==> ns == ns' && sa == sa'
  {
    if LocalTargetKey(ns, sa) == LocalTargetKey(ns', sa') {
      assert CacheKey(ns, sa) == LocalTargetKey(ns, sa)[6..];
      assert CacheKey(ns', sa') == LocalTargetKey(ns', sa')[6..];
    }
    if CacheKey(ns, sa) == CacheKey(ns', sa') {
      SplitUnique(ns, sa, ns', sa', '/');
    }
  }

  class Tenants {
    var targets: map<string, Target>

    ghost predicate Valid()
      reads this
    {
      forall k <- targets :: targets[k].client.bearer == targets[k].token
    }

    constructor ()
      ensures Valid() && targets == map[]
    {
      targets := map[];
    }

    /** The connection for a tenant whose token was just obtained: reused only while its baked-in token is that one. */
    method ResolveLocal(ns: string, sa: string, token: Token) returns (c: Client)
      requires Valid()
      modifies this
      ensures Valid() && c.bearer == token
      ensures var key := LocalTargetKey(ns, sa);
        if key in old(targets) && old(targets)[key].token == token
        then targets == old(targets) && c == old(targets)[key].client
        else targets == old(targets)[key := Target(c, token)]
    {
      var key := LocalTargetKey(ns, sa);
      if key in targets && targets[key].token == token {
        return targets[key].client;
      }
      c := Client(token);
      targets := targets[key := Target(c, token)];
    }

    method ForgetTenant(cache: Cache, ns: string, sa: string)
      requires Valid()
      modifies this, cache
      ensures Valid() && targets == old(targets) - {LocalTargetKey(ns, sa)}
      ensures cache.View() == Evicted(old(cache.View()), CacheKey(ns, sa))
    {
      cache.Forget(CacheKey(ns, sa));
      targets := targets - {LocalTargetKey(ns, sa)};
    }
  }
}
