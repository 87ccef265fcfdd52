/** String operations of the source's standard library that the ledgers and parsers rest on. */
module Strings {

  predicate Distinct(s: seq<string>) {
    forall i, j | 0 <= i < j < |s| :: s[i] != s[j]
  }

  lemma {:induction false} AppendTwice<T>(a: seq<T>, b: seq<T>, c: seq<T>)
    ensures a + b + c == a + (b + c)
  {
  }

  /** The part of s before the first c, or all of s when c does not occur. */
  function Before(s: string, c: char): (r: string)
    ensures c !in r && r <= s
    ensures c !in s ==> r == s
  {
    if s == "" || s[0] == c then "" else [s[0]] + Before(s[1..], c)
  }

  lemma {:induction false} BeforeSeparator(x: string, c: char, y: string)
    requires c !in x
    ensures Before(x + [c] + y, c) == x
  {
    if x == "" {
      assert x + [c] + y == [c] + y;
    } else {
      assert (x + [c] + y)[1..] == x[1..] + [c] + y;
      BeforeSeparator(x[1..], c, y);
    }
  }

  lemma {:induction false} BeforeConcat(x: string, y: string, c: char)
    ensures Before(x + y, c) == if c in x then Before(x, c) else x + Before(y, c)
  {
    if x == "" {
      assert x + y == y;
    } else {
      assert (x + y)[1..] == x[1..] + y;
      BeforeConcat(x[1..], y, c);
    }
  }

  lemma {:induction false} BeforeNone(x: string, c: char)
    requires c !in x
    ensures Before(x, c) == x
  {
    BeforeConcat(x, "", c);
    assert x + "" == x;
  }

  lemma {:induction false} HeadThenSeparator(s: string, c: char)
    requires c in s
    ensures var head := Before(s, c); |head| < |s| && s == head + [c] + s[|head| + 1..]
  {
    if s[0] != c {
      HeadThenSeparator(s[1..], c);
    }
  }

  lemma {:induction false} BeforeIsIff(s: string, c: char, p: string)
    ensures Before(s, c) == p <==> c !in p && (s == p || p + [c] <= s)
  {
    if c in s { HeadThenSeparator(s, c); } else { BeforeNone(s, c); }
    if c !in p && p + [c] <= s {
      assert s == p + [c] + s[|p| + 1..];
      BeforeSeparator(p, c, s[|p| + 1..]);
    }
  }

  /** A separator that occurs in neither head determines where a string splits. */
  lemma {:induction false} SplitUnique(x: string, y: string, x': string, y': string, c: char)
    requires c !in x && c !in x' && x + [c] + y == x' + [c] + y'
    ensures x == x' && y == y'
  {
    BeforeSeparator(x, c, y);
    BeforeSeparator(x', c, y');
    assert y == (x + [c] + y)[|x| + 1..];
    assert y' == (x' + [c] + y')[|x'| + 1..];
  }

  /** The pieces between the separators; a string without one is a single piece. */
  function Split(s: string, c: char): (r: seq<string>)
    ensures |r| >= 1
    ensures forall p <- r :: c !in p
  {
    if s == "" then [""]
    else
      var rest := Split(s[1..], c);
      if s[0] == c then [""] + rest else [[s[0]] + rest[0]] + rest[1..]
  }

  function Join(parts: seq<string>, c: char): string {
    if parts == [] then "" else if |parts| == 1 then parts[0] else parts[0] + [c] + Join(parts[1..], c)
  }

  lemma {:induction false} SplitWhole(x: string, c: char)
    requires c !in x
    ensures Split(x, c) == [x]
  {
    if x != "" {
      SplitWhole(x[1..], c);
      assert x == [x[0]] + x[1..];
    }
  }

  lemma {:induction false} SplitPiece(x: string, c: char, y: string)
    requires c !in x
    ensures Split(x + [c] + y, c) == [x] + Split(y, c)
  {
    var s := x + [c] + y;
    if x == "" {
      assert s[1..] == y;
    } else {
      assert s[1..] == x[1..] + [c] + y;
      SplitPiece(x[1..], c, y);
      var rest := Split(s[1..], c);
      assert rest[0] == x[1..] && rest[1..] == Split(y, c);
      assert x == [x[0]] + x[1..];
    }
  }

  /** Splitting undoes joining pieces that do not contain the separator. */
  lemma {:induction false} SplitJoin(parts: seq<string>, c: char)
    requires parts != [] && forall p <- parts :: c !in p
    ensures Split(Join(parts, c), c) == parts
  {
    if |parts| == 1 {
      SplitWhole(parts[0], c);
    } else {
      SplitPiece(parts[0], c, Join(parts[1..], c));
      SplitJoin(parts[1..], c);
    }
  }

  /** Joining undoes splitting, for every string. */
  lemma {:induction false} JoinSplit(s: string, c: char)
    ensures Join(Split(s, c), c) == s
  {
    if s != "" {
      JoinSplit(s[1..], c);
      var rest := Split(s[1..], c);
      if s[0] == c {
        assert ([""] + rest)[1..] == rest;
      } else {
        var parts := [[s[0]] + rest[0]] + rest[1..];
        assert parts[1..] == rest[1..];
        if |rest| > 1 {
          assert Join(parts, c) == [s[0]] + (rest[0] + [c] + Join(rest[1..], c));
        }
      }
    }
  }
}
