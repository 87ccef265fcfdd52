/**
 Reading an artifact: the byte cap on the decompressed stream, the names a tar entry may take, and
 the extraction loop that keeps entry sizes and the running total within bounds.
 */
module Artifact {
  import opened Wrappers
  import opened Strings

  // ---- the capped stream ----

  datatype Signal = More | EOF | Corrupt | Capped

  /** A reader that makes progress: asked for at least one byte before the end, it delivers at least one. */
  class Source {
    const data: string
    const end: Signal // how the stream ends: EOF, or an error of its own
    var pos: nat

    constructor (data: string, end: Signal)
      requires end == EOF || end == Corrupt
      ensures this.data == data && this.end == end && pos == 0
    {
      this.data, this.end, pos := data, end, 0;
    }

    /** Delivers any number of bytes it may, with the end signal alongside the last of them or after. */
    method Read(k: nat) returns (out: string, s: Signal)
      requires pos <= |data|
      modifies this
      ensures old(pos) <= pos <= |data| && out == data[old(pos)..pos] && |out| <= k
      ensures k > 0 && old(pos) < |data| ==> |out| > 0
      ensures s == More || (s == end && pos == |data|)
      ensures k > 0 && old(pos) == |data| ==> s == end
    {
      var rest := |data| - pos;
      var n: nat := if k <= rest then k else rest;
      if * {
        if n > 1 { n := 1; }
      }
      out := data[pos..pos + n];
      s := More;
      if pos + n == |data| {
        if n == 0 && k > 0 { s := end; }
        if * { s := end; }
      }
      pos := pos + n;
    }
  }

  class CappedReader {
    const r: Source
    var remaining: int

    constructor (r: Source, cap: nat)
      ensures this.r == r && remaining == cap
    {
      this.r, remaining := r, cap;
    }

    /** One read: spent, it probes for a further byte; otherwise it asks for no more than remains. */
    method Read(k: nat) returns (out: string, s: Signal)
      requires r.pos <= |r.data|
      modifies this, r
      ensures old(r.pos) <= r.pos <= |r.data|
      ensures old(remaining) <= 0 ==>
        && out == "" && remaining == old(remaining)
        && (if old(r.pos) < |r.data| then s == Capped else s == r.end || (s == EOF && r.end == More))
      ensures old(remaining) > 0 ==>
        && out == r.data[old(r.pos)..r.pos] && |out| <= k && remaining == old(remaining) - |out| && remaining >= 0
        && (s == More || (s == r.end && r.pos == |r.data|))
        && (k > 0 && old(r.pos) < |r.data| ==> |out| > 0)
        && (k > 0 && old(r.pos) == |r.data| ==> s == r.end)
    {
      if remaining <= 0 {
        var probe, e := r.Read(1);
        if |probe| > 0 { return "", Capped; }
        if e == More { e := EOF; }
        return "", e;
      }
      var want: nat := if k > remaining then remaining else k;
      out, s := r.Read(want);
      remaining := remaining - |out|;
    }

    /**
     Reading to the first signal, in any sizes: a stream no longer than the cap arrives whole with its own end
     signal; a longer one is cut at the cap and ends in the cap error.
     */
    method ReadAll(cap: nat, sizes: nat -> nat) returns (out: string, s: Signal)
      requires r.pos == 0 && remaining == cap && (r.end == EOF || r.end == Corrupt)
      requires forall i :: sizes(i) > 0
      modifies this, r
      ensures if |r.data| <= cap then out == r.data && s == r.end else out == r.data[..cap] && s == Capped
    {
      out, s := "", More;
      var i := 0;
      while s == More
        invariant r.pos <= |r.data|
        invariant s == More ==> remaining == cap - |out| && remaining >= 0 && r.pos == |out| && out == r.data[..r.pos]
        invariant s != More ==>
          if |r.data| <= cap then out == r.data && s == r.end else out == r.data[..cap] && s == Capped
        decreases if s == More then 1 + |r.data| - r.pos else 0
      {
        var chunk;
        ghost var at := r.pos;
        chunk, s := Read(sizes(i));
        assert r.data[..at] + r.data[at..r.pos] == r.data[..r.pos];
        out := out + chunk;
        i := i + 1;
      }
    }
  }

  // ---- entry names ----

  /** One step of a lexical path clean on the segments of a relative path. */
  function Push(stack: seq<string>, part: string): seq<string> {
    if part == "" || part == "." then stack
    else if part == ".." && stack != [] && stack[|stack| - 1] != ".." then stack[..|stack| - 1]
    else stack + [part]
  }

  function CleanParts(parts: seq<string>): seq<string> {
    if parts == [] then [] else Push(CleanParts(parts[..|parts| - 1]), parts[|parts| - 1])
  }

  function Clean(raw: string): string {
    var parts := CleanParts(Split(raw, '/'));
    if parts == [] then "." else Join(parts, '/')
  }

  predicate IsSafePathByte(c: char) {
    'a' <= c <= 'z' || 'A' <= c <= 'Z' || '0' <= c <= '9' || c == '.' || c == '_' || c == '-' || c == '/'
  }

  predicate DotPart(part: string) {
    part != "" && part[0] == '.'
  }

  function TrimPrefix(s: string, p: string): string {
    if |p| <= |s| && s[..|p|] == p then s[|p|..] else s
  }

  predicate HasPrefix(s: string, p: string) {
    |p| <= |s| && s[..|p|] == p
  }

  function NormaliseEntry(raw: string, prefix: string): Option<string> {
    if raw == "" || raw[0] == '/' || '\0' in raw || '\\' in raw then None
    else
      var cleaned := Clean(raw);
      if exists part <- Split(cleaned, '/') :: DotPart(part) then None
      else if exists c <- cleaned :: !IsSafePathByte(c) then None
      else if prefix == "" then Some(cleaned)
      else if cleaned != prefix && !HasPrefix(cleaned, prefix + "/") then None
      else
        var name := TrimPrefix(TrimPrefix(cleaned, prefix), "/");
        if name == "" then None else Some(name)
  }

  /** A relative path of non-empty segments, none hidden or "..", of safe bytes only. */
  ghost predicate SafeName(name: string) {
    && name != ""
    && (forall part <- Split(name, '/') :: part != "" && !DotPart(part))
    && forall c <- name :: IsSafePathByte(c)
  }

  lemma {:induction false} CleanPartsSolid(parts: seq<string>)
    requires forall p <- parts :: '/' !in p
    ensures forall p <- CleanParts(parts) :: p != "" && '/' !in p
  {
    if parts != [] {
      var init, last := parts[..|parts| - 1], parts[|parts| - 1];
      forall p <- init ensures '/' !in p { assert p in parts; }
      CleanPartsSolid(init);
      assert last in parts;
      forall p <- CleanParts(parts) ensures p != "" && '/' !in p {
        assert p in CleanParts(init) || p == last;
      }
    }
  }

  lemma {:induction false} SplitConcat(x: string, c: char, y: string)
    ensures Split(x + [c] + y, c) == Split(x, c) + Split(y, c)
  {
    var s := x + [c] + y;
    if x == "" {
      assert s[1..] == y;
    } else {
      assert s[1..] == x[1..] + [c] + y;
      SplitConcat(x[1..], c, y);
    }
  }

  lemma {:induction false} CleanIsSafe(raw: string)
    requires !(exists part <- Split(Clean(raw), '/') :: DotPart(part))
    requires !(exists c <- Clean(raw) :: !IsSafePathByte(c))
    ensures SafeName(Clean(raw))
  {
    var parts := CleanParts(Split(raw, '/'));
    CleanPartsSolid(Split(raw, '/'));
    if parts == [] {
      SplitWhole(".", '/');
      assert "." in Split(".", '/') && DotPart(".");
    } else {
      SplitJoin(parts, '/');
      assert parts[0] in parts;
    }
  }

  lemma {:induction false} RestIsSafe(prefix: string, rest: string)
    requires SafeName(prefix + "/" + rest) && rest != ""
    ensures SafeName(rest)
  {
    var whole := prefix + "/" + rest;
    SplitConcat(prefix, '/', rest);
    forall part <- Split(rest, '/') ensures part != "" && !DotPart(part) {
      assert part in Split(whole, '/');
    }
    forall c <- rest ensures IsSafePathByte(c) { assert c in whole; }
  }

  /** Every accepted entry name is safe, whatever the raw name and prefix. */
  lemma {:induction false} AcceptedNamesAreSafe(raw: string, prefix: string)
    requires NormaliseEntry(raw, prefix).Some?
    ensures SafeName(NormaliseEntry(raw, prefix).value)
  {
    var cleaned, name := Clean(raw), NormaliseEntry(raw, prefix).value;
    CleanIsSafe(raw);
    if prefix != "" && cleaned != prefix {
      BehindPrefix(cleaned, prefix);
      RestIsSafe(prefix, name);
    }
  }

  lemma {:induction false} BehindPrefix(cleaned: string, prefix: string)
    requires prefix + "/" <= cleaned
    ensures cleaned == prefix + "/" + cleaned[|prefix| + 1..]
    ensures cleaned[..|prefix|] == prefix && cleaned[|prefix|..] == "/" + cleaned[|prefix| + 1..]
  {
  }

  lemma {:induction false} CleanPartsPlain(parts: seq<string>)
    requires forall p <- parts :: p != "" && !DotPart(p)
    ensures CleanParts(parts) == parts
  {
    if parts != [] {
      var init, last := parts[..|parts| - 1], parts[|parts| - 1];
      forall p <- init ensures p in parts {}
      assert last in parts;
      CleanPartsPlain(init);
      assert Push(init, last) == init + [last];
      assert init + [last] == parts;
    }
  }

  lemma {:induction false} SafeIsClean(name: string)
    requires SafeName(name)
    ensures Clean(name) == name && name[0] != '/'
  {
    CleanPartsPlain(Split(name, '/'));
    JoinSplit(name, '/');
    assert Split(name, '/')[0] in Split(name, '/');
  }

  lemma {:induction false} SafeUnderSafe(prefix: string, name: string)
    requires SafeName(prefix) && SafeName(name)
    ensures SafeName(prefix + "/" + name)
  {
    SplitConcat(prefix, '/', name);
  }

  /** A safe name is accepted as it is, and below a safe prefix it is the part behind the prefix that is kept. */
  lemma {:induction false} SafeNamesAreAccepted(name: string, prefix: string)
    requires SafeName(name) && (prefix == "" || SafeName(prefix))
    ensures NormaliseEntry(if prefix == "" then name else prefix + "/" + name, prefix) == Some(name)
  {
    var raw := if prefix == "" then name else prefix + "/" + name;
    if prefix != "" { SafeUnderSafe(prefix, name); }
    SafeIsClean(raw);
    AcceptedIff(raw, prefix, name);
  }

  // ---- what the names mean, byte by byte and segment by segment ----

  /**
   An entry is accepted under a name exactly when its raw name is relative, without a NUL or a backslash anywhere, and
   cleans to a safe name that is the prefix, a slash and that name, or the name itself without a prefix.
   */
  lemma {:induction false} AcceptedIff(raw: string, prefix: string, name: string)
    ensures NormaliseEntry(raw, prefix) == Some(name) <==>
      && raw != "" && raw[0] != '/' && '\0' !in raw && '\\' !in raw
      && SafeName(Clean(raw)) && name != ""
      && Clean(raw) == if prefix == "" then name else prefix + "/" + name
  {
    var cleaned := Clean(raw);
    if !(exists part <- Split(cleaned, '/') :: DotPart(part)) && !(exists c <- cleaned :: !IsSafePathByte(c)) {
      CleanIsSafe(raw);
    }
    if prefix != "" && prefix + "/" <= cleaned {
      BehindPrefix(cleaned, prefix);
      assert (prefix + "/" + name)[|prefix| + 1..] == name;
    }
  }

  /** A segment begins behind every '/'. */
  predicate GoodStart(s: string, i: nat) {
    i < |s| && s[i] != '/' && s[i] != '.'
  }

  lemma {:induction false} FirstSegment(s: string)
    ensures Split(s, '/')[0] != "" && !DotPart(Split(s, '/')[0]) <==> GoodStart(s, 0)
  {
  }

  predicate GoodPart(part: string) {
    part != "" && !DotPart(part)
  }

  lemma {:induction false} LaterSegments(s: string)
    ensures (forall part <- Split(s, '/')[1..] :: GoodPart(part)) <==>
      forall i: nat | i < |s| && s[i] == '/' :: GoodStart(s, i + 1)
  {
    if s != "" {
      var t, parts := s[1..], Split(s[1..], '/');
      LaterSegments(t);
      FirstSegment(t);
      assert (forall part <- parts :: GoodPart(part)) <==>
        GoodPart(parts[0]) && forall part <- parts[1..] :: GoodPart(part)
        by { assert parts == [parts[0]] + parts[1..]; }
      assert Split(s, '/')[1..] == if s[0] == '/' then parts else parts[1..];
      StartsLater(s);
    }
  }

  lemma {:induction false} StartsLater(s: string)
    requires s != ""
    ensures (forall i: nat | i < |s| && s[i] == '/' :: GoodStart(s, i + 1)) <==>
      && (s[0] == '/' ==> GoodStart(s[1..], 0))
      && forall i: nat | i < |s[1..]| && s[1..][i] == '/' :: GoodStart(s[1..], i + 1)
  {
    var t := s[1..];
    forall i: nat ensures GoodStart(t, i) <==> GoodStart(s, i + 1) {}
    if forall i: nat | i < |s| && s[i] == '/' :: GoodStart(s, i + 1) {
      forall i: nat | i < |t| && t[i] == '/' ensures GoodStart(t, i + 1) { assert s[i + 1] == '/'; }
    }
    if (s[0] == '/' ==> GoodStart(t, 0)) && forall i: nat | i < |t| && t[i] == '/' :: GoodStart(t, i + 1) {
      forall i: nat | i < |s| && s[i] == '/' ensures GoodStart(s, i + 1) {
        if i > 0 { assert t[i - 1] == '/' && GoodStart(t, i); }
      }
    }
  }

  /**
   A name is safe exactly when it is made of letters, digits, dots, underscores, dashes and slashes, and neither it
   nor anything behind a slash is empty or begins with a dot or a slash.
   */
  lemma {:induction false} SafeNameIff(name: string)
    ensures SafeName(name) <==>
      && (forall c <- name :: 'a' <= c <= 'z' || 'A' <= c <= 'Z' || '0' <= c <= '9' || c in {'.', '_', '-', '/'})
      && |name| > 0 && name[0] !in {'/', '.'}
      && forall i: nat | i < |name| && name[i] == '/' :: i + 1 < |name| && name[i + 1] !in {'/', '.'}
  {
    FirstSegment(name);
    LaterSegments(name);
    var parts := Split(name, '/');
    assert (forall part <- parts :: GoodPart(part)) <==>
      GoodPart(parts[0]) && forall part <- parts[1..] :: GoodPart(part)
      by { assert parts == [parts[0]] + parts[1..]; }
    assert forall part <- parts :: GoodPart(part) <==> part != "" && !DotPart(part);
    assert (forall i: nat | i < |name| && name[i] == '/' :: GoodStart(name, i + 1)) <==>
      forall i: nat | i < |name| && name[i] == '/' :: i + 1 < |name| && name[i + 1] !in {'/', '.'};
  }

  lemma {:induction false} CleansOn(a: seq<string>, b: seq<string>, more: seq<string>)
    requires CleanParts(a) == CleanParts(b)
    ensures CleanParts(a + more) == CleanParts(b + more)
  {
    if more == [] {
      assert a + more == a && b + more == b;
    } else {
      var init, last := more[..|more| - 1], more[|more| - 1];
      CleansOn(a, b, init);
      assert (a + more)[..|a + more| - 1] == a + init && (b + more)[..|b + more| - 1] == b + init;
    }
  }

  lemma {:induction false} CleanPush(parts: seq<string>, part: string)
    ensures CleanParts(parts + [part]) == Push(CleanParts(parts), part)
  {
    assert (parts + [part])[..|parts|] == parts;
  }

  /** Cleaning a path drops its "." and its empty segments, wherever they stand. */
  lemma {:induction false} DotSegmentsVanish(before: seq<string>, dot: string, after: seq<string>)
    requires dot == "." || dot == ""
    requires before + after != [] && forall p <- before + after :: '/' !in p
    ensures Clean(Join(before + [dot] + after, '/')) == Clean(Join(before + after, '/'))
  {
    assert forall p <- before + [dot] + after :: p in before + after || p == dot;
    SplitJoin(before + [dot] + after, '/');
    SplitJoin(before + after, '/');
    CleanPush(before, dot);
    CleansOn(before + [dot], before, after);
  }

  /** A segment and the ".." behind it cancel. */
  lemma {:induction false} ParentsCancel(before: seq<string>, part: string, after: seq<string>)
    requires part != "" && part != "." && part != ".."
    requires before + after != [] && '/' !in part && forall p <- before + after :: '/' !in p
    ensures Clean(Join(before + [part, ".."] + after, '/')) == Clean(Join(before + after, '/'))
  {
    assert forall p <- before + [part, ".."] + after :: p in before + after || p == part || p == "..";
    SplitJoin(before + [part, ".."] + after, '/');
    SplitJoin(before + after, '/');
    CleanPush(before, part);
    CleanPush(before + [part], "..");
    assert before + [part] + [".."] == before + [part, ".."];
    CleansOn(before + [part, ".."], before, after);
  }

  // ---- the extraction loop ----

  datatype Body = Bytes(s: string) | BodyCapped | BodyBroken
  datatype Header = Header(name: string, regular: bool, size: int, body: Body)

  /** An entry with the key it extracts to; None when it is skipped. */
  datatype Entry = Entry(key: Option<string>, size: int, body: Body)

  /** How the archive ends behind its entries. */
  datatype Tail = Complete | StreamCapped | Broken

  datatype Failure = Duplicate | NegativeSize | EntryTooLarge | TarballTooLarge | DecompressedTooLarge | BadTar

  function EntryOf(h: Header, prefix: string): Entry {
    Entry(if h.regular then NormaliseEntry(h.name, prefix) else None, h.size, h.body)
  }

  function EntriesOf(headers: seq<Header>, prefix: string): seq<Entry> {
    seq(|headers|, i requires 0 <= i < |headers| => EntryOf(headers[i], prefix))
  }

  function BytesIn(e: Entry): nat {
    if e.key.Some? && e.body.Bytes? then |e.body.s| else 0
  }

  /** Bytes extracted from the first n entries. */
  function Total(entries: seq<Entry>, n: nat): nat
    requires n <= |entries|
  {
    if n == 0 then 0 else Total(entries, n - 1) + BytesIn(entries[n - 1])
  }

  /** Entry i passes every check the loop makes. */
  ghost predicate Admissible(entries: seq<Entry>, perEntry: nat, maxTotal: nat, i: nat)
    requires i < |entries|
  {
    var e := entries[i];
    e.key.Some? ==>
      && (forall j | 0 <= j < i :: entries[j].key != e.key)
      && 0 <= e.size <= perEntry && e.size <= maxTotal - Total(entries, i)
      && e.body.Bytes? && |e.body.s| <= perEntry && Total(entries, i) + |e.body.s| <= maxTotal
  }

  /** The files hold the body of each of the first n entries under its own key, and nothing else. */
  ghost predicate Holds(entries: seq<Entry>, perEntry: nat, files: map<string, string>, n: nat)
    requires n <= |entries|
  {
    && (forall i | 0 <= i < n && entries[i].key.Some? ::
         entries[i].key.value in files && entries[i].body == Bytes(files[entries[i].key.value]) &&
           BytesIn(entries[i]) <= perEntry)
    && (forall name <- files :: exists i | 0 <= i < n :: entries[i].key == Some(name))
  }

  lemma {:induction false} HoldsMore(entries: seq<Entry>, perEntry: nat, maxTotal: nat, files: map<string, string>,
          n: nat)
    requires n < |entries| && Holds(entries, perEntry, files, n) && Admissible(entries, perEntry, maxTotal, n)
    ensures entries[n].key.None? ==> Holds(entries, perEntry, files, n + 1)
    ensures entries[n].key.Some? ==> Holds(entries, perEntry, files[entries[n].key.value := entries[n].body.s], n + 1)
  {
    if entries[n].key.Some? {
      var more := files[entries[n].key.value := entries[n].body.s];
      forall name <- more ensures exists i | 0 <= i < n + 1 :: entries[i].key == Some(name) {
        if name == entries[n].key.value {
          assert entries[n].key == Some(name);
        } else {
          var i :| 0 <= i < n && entries[i].key == Some(name);
        }
      }
    }
  }

  /** Which failure an entry earns: a taken name first, then its declared size, then what reading it shows. */
  predicate Deserves(e: Entry, taken: bool, total: nat, perEntry: nat, maxTotal: nat, f: Failure) {
    var declared := 0 <= e.size <= perEntry && e.size <= maxTotal - total;
    match f
    case Duplicate => taken
    case NegativeSize => !taken && e.size < 0
    case EntryTooLarge => !taken && (e.size > perEntry || (declared && e.body.Bytes? && |e.body.s| > perEntry))
    case TarballTooLarge =>
      !taken && 0 <= e.size <= perEntry &&
      (e.size > maxTotal - total || (e.body.Bytes? && |e.body.s| <= perEntry && total + |e.body.s| > maxTotal))
    case DecompressedTooLarge => !taken && declared && e.body.BodyCapped?
    case BadTar => !taken && declared && e.body.BodyBroken?
  }

  /** The failure of an archive: that of its first inadmissible entry, else of its end. */
  ghost predicate Explains(entries: seq<Entry>, tail: Tail, perEntry: nat, maxTotal: nat, f: Failure) {
    if forall i: nat | i < |entries| :: Admissible(entries, perEntry, maxTotal, i) then
      f == if tail == StreamCapped then DecompressedTooLarge else BadTar
    else
      exists i: nat | i < |entries| ::
        && !Admissible(entries, perEntry, maxTotal, i) &&
          (forall j: nat | j < i :: Admissible(entries, perEntry, maxTotal, j))
        && var taken := exists j: nat | j < i :: entries[j].key == entries[i].key;
           Deserves(entries[i], taken, Total(entries, i), perEntry, maxTotal, f)
  }

  /** The checks of one accepted entry, in the loop's order. */
  method CheckEntry(e: Entry, taken: bool, total: nat, perEntry: nat, maxTotal: nat) returns (failure: Option<Failure>)
    requires total <= maxTotal
    ensures failure.None? <==>
      && !taken && 0 <= e.size <= perEntry && e.size <= maxTotal - total
      && e.body.Bytes? && |e.body.s| <= perEntry && total + |e.body.s| <= maxTotal
    ensures failure.Some? ==> Deserves(e, taken, total, perEntry, maxTotal, failure.value)
  {
    if taken { return Some(Duplicate); }
    if e.size < 0 { return Some(NegativeSize); }
    if e.size > perEntry { return Some(EntryTooLarge); }
    if e.size > maxTotal - total { return Some(TarballTooLarge); }
    match e.body
    case BodyCapped => return Some(DecompressedTooLarge);
    case BodyBroken => return Some(BadTar);
    case Bytes(s) =>
      if |s| > perEntry { return Some(EntryTooLarge); }
      if total + |s| > maxTotal { return Some(TarballTooLarge); }
      return None;
  }

  /**
   Succeeds exactly when the archive is complete and every entry is admissible; the result then holds each
   accepted entry's body under its own name and nothing else, within the per-entry and total bounds.
   */
  method Extract(entries: seq<Entry>, tail: Tail, perEntry: nat, maxTotal: nat)
    returns (files: map<string, string>, failure: Option<Failure>)
    ensures failure.None? <==> tail == Complete && forall i: nat | i < |entries| ::
      Admissible(entries, perEntry, maxTotal, i)
    ensures failure.None? ==> Holds(entries, perEntry, files, |entries|) && Total(entries, |entries|) <= maxTotal
    ensures failure.Some? ==> Explains(entries, tail, perEntry, maxTotal, failure.value)
  {
    files := map[];
    var total := 0;
    for i := 0 to |entries|
      invariant total == Total(entries, i) <= maxTotal
      invariant forall j: nat | j < i :: Admissible(entries, perEntry, maxTotal, j)
      invariant Holds(entries, perEntry, files, i)
    {
      var e := entries[i];
      if e.key.Some? {
        assert e.key.value in files <==> exists j | 0 <= j < i :: entries[j].key == e.key;
        failure := CheckEntry(e, e.key.value in files, total, perEntry, maxTotal);
        assert failure.None? <==> Admissible(entries, perEntry, maxTotal, i);
        if failure.Some? { return; }
      }
      HoldsMore(entries, perEntry, maxTotal, files, i);
      if e.key.Some? {
        total := total + |e.body.s|;
        files := files[e.key.value := e.body.s];
      }
    }
    match tail
    case StreamCapped => failure := Some(DecompressedTooLarge);
    case Broken => failure := Some(BadTar);
    case Complete => failure := None;
  }

  /**
   Whatever an archive contains, every extracted file has a safe relative name, is no longer than an entry may be, and
   is the content of a regular entry that cleans to that name under the prefix.
   */
  lemma {:induction false} ExtractedNamesAreSafe(headers: seq<Header>, prefix: string, perEntry: nat,
          files: map<string, string>, name: string)
    requires Holds(EntriesOf(headers, prefix), perEntry, files, |headers|) && name in files
    ensures SafeName(name) && |files[name]| <= perEntry
    ensures exists h <- headers ::
      h.regular && NormaliseEntry(h.name, prefix) == Some(name) && h.body == Bytes(files[name])
  {
    var i :| 0 <= i < |headers| && EntriesOf(headers, prefix)[i].key == Some(name);
    HeldAt(headers, prefix, perEntry, files, i, name);
    assert headers[i] in headers;
    AcceptedNamesAreSafe(headers[i].name, prefix);
  }

  lemma {:induction false} HeldAt(headers: seq<Header>, prefix: string, perEntry: nat, files: map<string, string>,
          i: nat, name: string)
    requires Holds(EntriesOf(headers, prefix), perEntry, files, |headers|)
    requires i < |headers| && EntriesOf(headers, prefix)[i].key == Some(name)
    ensures name in files && headers[i].body == Bytes(files[name]) && |files[name]| <= perEntry
    ensures headers[i].regular && NormaliseEntry(headers[i].name, prefix) == Some(name)
  {
    assert EntriesOf(headers, prefix)[i] == EntryOf(headers[i], prefix);
    assert BytesIn(EntriesOf(headers, prefix)[i]) <= perEntry;
  }
}
