/**
 The alternate IPv4 renderings a libc resolver honours, in the "loose" form of section 3.1.1 of RFC 6943:
 one to four dotted parts, each decimal, octal or hexadecimal, the last absorbing the remaining bytes.
 */
module InetAton {
  import opened Wrappers
  import opened Strings

  // ---- numbers ----

  function Digit(c: char): nat {
    if '0' <= c <= '9' then c as nat - '0' as nat
    else if 'a' <= c <= 'f' then c as nat - 'a' as nat + 10
    else if 'A' <= c <= 'F' then c as nat - 'A' as nat + 10
    else 16
  }

  predicate AreDigits(s: string, base: nat) {
    s != "" && forall c <- s :: Digit(c) < base
  }

  function Value(s: string, base: nat): nat {
    if s == "" then 0 else Value(s[..|s| - 1], base) * base + Digit(s[|s| - 1])
  }

  /** An unsigned 64-bit number: a syntax or range error is None. */
  function ParseUint(s: string, base: nat): Option<nat> {
    if AreDigits(s, base) && Value(s, base) < 0x1_0000_0000_0000_0000 then Some(Value(s, base)) else None
  }

  function ParseCNumber(s: string): Option<nat> {
    if s == "" then None
    else if |s| > 2 && (s[0..2] == "0x" || s[0..2] == "0X") then ParseUint(s[2..], 16)
    else if |s| > 1 && s[0] == '0' then ParseUint(s[1..], 8)
    else ParseUint(s, 10)
  }

  datatype Radix = Decimal | Octal | Hex

  /** s is a rendering of v: a prefix that names the radix, then its digits, with any leading zeros and letter case. */
  ghost predicate Renders(s: string, radix: Radix, v: nat) {
    match radix
    case Decimal => AreDigits(s, 10) && (s[0] == '0' ==> |s| == 1) && Value(s, 10) == v
    case Octal => |s| > 1 && s[0] == '0' && AreDigits(s[1..], 8) && Value(s[1..], 8) == v
    case Hex => |s| > 2 && (s[0..2] == "0x" || s[0..2] == "0X") && AreDigits(s[2..], 16) && Value(s[2..], 16) == v
  }

  /** A number parses to v exactly when it renders v in one of the three radices and v fits 64 bits. */
  lemma {:induction false} CNumberIff(s: string, v: nat)
    ensures ParseCNumber(s) == Some(v) <==>
      v < 0x1_0000_0000_0000_0000 && exists radix :: Renders(s, radix, v)
  {
    if radix :| Renders(s, radix, v) {
      if |s| > 2 && (s[0..2] == "0x" || s[0..2] == "0X") {
        assert s[0] == s[0..2][0] && s[1] == s[0..2][1];
        assert Digit(s[1]) == 16;
        assert s[1] in s;
        assert s[1..][0] in s[1..];
      }
    }
    if ParseCNumber(s) == Some(v) {
      assert Renders(s, Decimal, v) || Renders(s, Octal, v) || Renders(s, Hex, v);
    }
  }

  function DigitChar(d: nat): char
    requires d < 16
  {
    "0123456789abcdef"[d]
  }

  function Digits(v: nat, base: nat): string
    requires 2 <= base <= 16
    decreases v
  {
    if v < base then [DigitChar(v)] else Digits(v / base, base) + [DigitChar(v % base)]
  }

  lemma {:induction false} DigitOfChar(d: nat)
    requires d < 16
    ensures Digit(DigitChar(d)) == d && (DigitChar(d) == '0' <==> d == 0)
  {
  }

  lemma {:induction false} AppendDigit(s: string, d: nat, base: nat)
    requires d < base <= 16 && (s == "" || AreDigits(s, base))
    ensures AreDigits(s + [DigitChar(d)], base)
    ensures Value(s + [DigitChar(d)], base) == Value(s, base) * base + d
  {
    DigitOfChar(d);
    assert (s + [DigitChar(d)])[..|s|] == s;
  }

  lemma {:induction false} DivMod(v: nat, base: nat) returns (q: nat, r: nat)
    requires base == 8 || base == 10 || base == 16
    ensures q == v / base && r == v % base && v == q * base + r && r < base
    ensures v >= base ==> 0 < q < v
  {
    match base
    case 8 => q, r := v / 8, v % 8;
    case 10 => q, r := v / 10, v % 10;
    case _ => q, r := v / 16, v % 16;
  }

  lemma {:induction false} DigitsValue(v: nat, base: nat)
    requires base == 8 || base == 10 || base == 16
    ensures AreDigits(Digits(v, base), base) && Value(Digits(v, base), base) == v
    ensures v > 0 ==> Digits(v, base)[0] != '0'
    decreases v
  {
    if v < base {
      AppendDigit("", v, base);
      assert "" + [DigitChar(v)] == [DigitChar(v)];
      DigitOfChar(v);
    } else {
      var q, r := DivMod(v, base);
      DigitsValue(q, base);
      AppendDigit(Digits(q, base), r, base);
    }
  }

  function Render(v: nat, radix: Radix): string {
    match radix
    case Decimal => Digits(v, 10)
    case Octal => "0" + Digits(v, 8)
    case Hex => "0x" + Digits(v, 16)
  }

  lemma {:induction false} RenderRenders(v: nat, radix: Radix)
    ensures Renders(Render(v, radix), radix, v)
  {
    var base := match radix case Decimal => 10 case Octal => 8 case Hex => 16;
    DigitsValue(v, base);
    match radix
    case Decimal =>
    case Octal => assert Render(v, radix)[1..] == Digits(v, 8);
    case Hex => assert Render(v, radix)[2..] == Digits(v, 16) && Render(v, radix)[0..2] == "0x";
  }

  lemma {:induction false} RendersHasNoDot(s: string, radix: Radix, v: nat)
    requires Renders(s, radix, v)
    ensures '.' !in s
  {
    match radix
    case Decimal =>
    case Octal => assert s == "0" + s[1..];
    case Hex => assert s == s[0..2] + s[2..];
  }

  // ---- letter case and leading zeros ----

  /** The same characters but for the case of letters. */
  predicate SameButCase(s: string, t: string) {
    |s| == |t| && forall i | 0 <= i < |s| ::
      || s[i] == t[i]
      || ('a' <= s[i] <= 'z' && t[i] as int == s[i] as int - 32)
      || ('a' <= t[i] <= 'z' && s[i] as int == t[i] as int - 32)
  }

  lemma {:induction false} SameValue(s: string, t: string, base: nat)
    requires SameButCase(s, t) && base <= 16
    ensures Value(s, base) == Value(t, base) && (AreDigits(s, base) <==> AreDigits(t, base))
  {
    assert forall i | 0 <= i < |s| :: Digit(s[i]) == Digit(t[i]);
    if s != "" {
      SameValue(s[..|s| - 1], t[..|t| - 1], base);
    }
    assert forall i | 0 <= i < |s| :: s[i] in s && t[i] in t;
  }

  predicate HexPrefix(s: string) {
    |s| > 2 && s[0] == '0' && (s[1] == 'x' || s[1] == 'X')
  }

  lemma {:induction false} ParsesAs(s: string)
    ensures ParseCNumber(s) ==
      if HexPrefix(s) then ParseUint(s[2..], 16)
      else if |s| > 1 && s[0] == '0' then ParseUint(s[1..], 8)
      else ParseUint(s, 10)
  {
    if |s| > 2 { assert s[0..2] == [s[0], s[1]]; }
  }

  lemma {:induction false} SameTail(s: string, t: string, n: nat, base: nat)
    requires SameButCase(s, t) && n <= |s| && base <= 16
    ensures ParseUint(s[n..], base) == ParseUint(t[n..], base)
  {
    SameValue(s[n..], t[n..], base);
  }

  /** Numbers that differ only in the case of their letters parse alike. */
  lemma {:induction false} CaseIsIgnored(s: string, t: string)
    requires SameButCase(s, t)
    ensures ParseCNumber(s) == ParseCNumber(t)
  {
    ParsesAs(s);
    ParsesAs(t);
    SameTail(s, t, 0, 10);
    assert s[0..] == s && t[0..] == t;
    if |s| > 1 { SameTail(s, t, 1, 8); }
    if |s| > 2 { SameTail(s, t, 2, 16); }
  }

  lemma {:induction false} LeadingZero(s: string, base: nat)
    requires s != "" && 0 < base
    ensures Value("0" + s, base) == Value(s, base)
    ensures AreDigits("0" + s, base) <==> AreDigits(s, base)
  {
    var t := "0" + s;
    assert t[..|t| - 1] == "0" + s[..|s| - 1];
    assert forall c :: c in t <==> c == '0' || c in s;
    if |s| > 1 {
      LeadingZero(s[..|s| - 1], base);
    } else {
      assert t[..1] == "0" && "0"[..0] == "" && s[..0] == "";
      assert Value("0", base) == Value("", base) * base + Digit('0');
    }
  }

  /** A hexadecimal number may take any leading zeros, and so may an octal one. */
  lemma {:induction false} HexZero(digits: string)
    requires digits != ""
    ensures ParseCNumber("0x0" + digits) == ParseCNumber("0x" + digits) == ParseUint(digits, 16)
  {
    var s, t := "0x0" + digits, "0x" + digits;
    ParsesAs(s);
    ParsesAs(t);
    LeadingZero(digits, 16);
    assert s[2..] == "0" + digits && t[2..] == digits;
  }

  lemma {:induction false} OctalZero(digits: string)
    requires digits != "" && digits[0] !in {'x', 'X'}
    ensures ParseCNumber("00" + digits) == ParseCNumber("0" + digits) == ParseUint(digits, 8)
  {
    var s, t := "00" + digits, "0" + digits;
    ParsesAs(s);
    ParsesAs(t);
    LeadingZero(digits, 8);
    assert s[1..] == "0" + digits && t[1..] == digits && t[1] == digits[0];
  }

  // ---- bits ----

  function Pow2(n: nat): (r: nat)
    ensures r > 0
  {
    if n == 0 then 1 else 2 * Pow2(n - 1)
  }

  function BitOr(x: nat, y: nat): nat {
    if x == 0 && y == 0 then 0
    else (if x % 2 == 1 || y % 2 == 1 then 1 else 0) + 2 * BitOr(x / 2, y / 2)
  }

  lemma {:induction false} OrZero(x: nat)
    ensures BitOr(x, 0) == x
  {
    if x > 0 { OrZero(x / 2); }
  }

  /** Or-ing in a value below a multiple of a power of two adds it. */
  lemma {:induction false} OrDisjoint(a: nat, m: nat, b: nat)
    requires b < Pow2(m)
    ensures BitOr(a * Pow2(m), b) == a * Pow2(m) + b
  {
    if m == 0 {
      OrZero(a);
    } else {
      var half := a * Pow2(m - 1);
      assert a * Pow2(m) == 2 * half;
      OrDisjoint(a, m - 1, b / 2);
    }
  }

  lemma {:induction false} PowersOfBytes()
    ensures Pow2(8) == 0x100 && Pow2(16) == 0x1_0000 && Pow2(24) == 0x100_0000 && Pow2(32) == 0x1_0000_0000
  {
    assert Pow2(4) == 16;
    assert Pow2(8) == 0x100;
    assert Pow2(12) == 0x1000;
    assert Pow2(16) == 0x1_0000;
    assert Pow2(20) == 0x10_0000;
    assert Pow2(24) == 0x100_0000;
    assert Pow2(28) == 0x1000_0000;
  }

  // ---- addresses ----

  /** The address that one to four part values denote. */
  function AddressOf(vals: seq<nat>): nat
    requires 1 <= |vals| <= 4
  {
    Leading(vals, |vals| - 1) + vals[|vals| - 1]
  }

  /** The first i parts, each a byte at its position from the top. */
  function Leading(vals: seq<nat>, i: nat): nat
    requires i <= |vals| && i <= 3
  {
    (if i > 0 then vals[0] * 0x100_0000 else 0) + (if i > 1 then vals[1] * 0x1_0000 else 0) +
      (if i > 2 then vals[2] * 0x100 else 0)
  }

  /** Every part but the last is one byte; the last fills the bytes left. */
  predicate PartsFit(vals: seq<nat>) {
    && 1 <= |vals| <= 4
    && (forall i | 0 <= i < |vals| - 1 :: vals[i] <= 0xff)
    && vals[|vals| - 1] < (match |vals| case 1 => 0x1_0000_0000 case 2 => 0x100_0000 case 3 => 0x1_0000 case _ => 0x100)
  }

  lemma {:induction false} AddressFits(vals: seq<nat>)
    requires PartsFit(vals)
    ensures AddressOf(vals) < 0x1_0000_0000
  {
  }

  function Octets(addr: nat): seq<nat> {
    [addr / 0x100_0000 % 0x100, addr / 0x1_0000 % 0x100, addr / 0x100 % 0x100, addr % 0x100]
  }

  /** What a host decodes to: the parts it splits into, each a C number, that fit an address. */
  ghost predicate Decodes(host: string, vals: seq<nat>) {
    var parts := Split(host, '.');
    && |parts| == |vals| && PartsFit(vals)
    && forall i | 0 <= i < |vals| :: ParseCNumber(parts[i]) == Some(vals[i])
  }

  lemma {:induction false} OrPart(vals: seq<nat>, i: nat)
    requires i < |vals| && i < 3 && vals[i] <= 0xff
    ensures BitOr(Leading(vals, i), vals[i] * Pow2(8 * (3 - i))) == Leading(vals, i + 1)
  {
    PowersOfBytes();
    match i
    case 0 => OrDisjoint(0, 32, vals[0] * 0x100_0000);
    case 1 => OrDisjoint(vals[0], 24, vals[1] * 0x1_0000);
    case _ => OrDisjoint(vals[0] * 0x100 + vals[1], 16, vals[2] * 0x100);
  }

  lemma {:induction false} OrLast(vals: seq<nat>)
    requires PartsFit(vals)
    ensures BitOr(Leading(vals, |vals| - 1), vals[|vals| - 1]) == AddressOf(vals)
  {
    PowersOfBytes();
    var n := |vals|;
    var a := if n == 1 then 0 else if n == 2 then vals[0] else if n == 3 then vals[0] * 0x100 + vals[1]
             else (vals[0] * 0x100 + vals[1]) * 0x100 + vals[2];
    assert Leading(vals, n - 1) == a * Pow2(8 * (5 - n));
    OrDisjoint(a, 8 * (5 - n), vals[n - 1]);
  }

  method ParseParts(parts: seq<string>) returns (vals: Option<seq<nat>>)
    ensures vals.Some? <==> forall p <- parts :: ParseCNumber(p).Some?
    ensures vals.Some? ==> |vals.value| == |parts| && forall i | 0 <= i < |parts| ::
      ParseCNumber(parts[i]) == Some(vals.value[i])
  {
    var r: seq<nat> := [];
    for i := 0 to |parts|
      invariant |r| == i
      invariant forall j | 0 <= j < i :: ParseCNumber(parts[j]) == Some(r[j])
    {
      var v := ParseCNumber(parts[i]);
      if v.None? { return None; }
      r := r + [v.value];
    }
    return Some(r);
  }

  lemma {:induction false} LastFits(vals: seq<nat>)
    requires 1 <= |vals| <= 4 && forall i | 0 <= i < |vals| - 1 :: vals[i] <= 0xff
    ensures PartsFit(vals) <==> vals[|vals| - 1] <= Pow2(8 * (4 - |vals| + 1)) - 1
  {
    PowersOfBytes();
  }

  lemma {:induction false} LastJoins(vals: seq<nat>)
    requires PartsFit(vals)
    ensures BitOr(Leading(vals, |vals| - 1), vals[|vals| - 1]) == AddressOf(vals) < 0x1_0000_0000
  {
    OrLast(vals);
    AddressFits(vals);
  }

  /** Shifts and ors the parts into place, refusing any that does not fit. */
  method Assemble(vals: seq<nat>) returns (addr: Option<nat>)
    requires 1 <= |vals| <= 4
    ensures addr == if PartsFit(vals) then Some(AddressOf(vals)) else None
  {
    var a := 0;
    for i := 0 to |vals| - 1
      invariant a == Leading(vals, i)
      invariant forall j | 0 <= j < i :: vals[j] <= 0xff
    {
      if vals[i] > 0xff { return None; }
      OrPart(vals, i);
      a := BitOr(a, vals[i] * Pow2(8 * (3 - i)));
    }
    var last := vals[|vals| - 1];
    var maxLast := Pow2(8 * (4 - |vals| + 1)) - 1;
    LastFits(vals);
    if last > maxLast { return None; }
    LastJoins(vals);
    a := BitOr(a, last);
    if a > 0xffff_ffff { return None; }
    return Some(a);
  }

  /**
   The decoder accepts exactly the hosts whose parts decode, and returns the octets of the sum of the parts at
   their byte positions, a number below 2^32.
   */
  method ParseInetAtonIPv4(host: string) returns (ip: Option<seq<nat>>)
    ensures forall vals: seq<nat> | Decodes(host, vals) ::
      AddressOf(vals) < 0x1_0000_0000 && ip == Some(Octets(AddressOf(vals)))
    ensures ip.Some? ==> exists vals: seq<nat> :: Decodes(host, vals)
  {
    if host == "" {
      assert Split(host, '.') == [""];
      return None;
    }
    var parts := Split(host, '.');
    if |parts| > 4 { return None; }
    var vals := ParseParts(parts);
    if vals.None? { return None; }
    forall other: seq<nat> | Decodes(host, other) ensures other == vals.value {}
    var addr := Assemble(vals.value);
    if addr.None? { return None; }
    assert Decodes(host, vals.value);
    AddressFits(vals.value);
    return Some(Octets(addr.value));
  }

  // ---- every rendering of every address ----

  /** An address cut into n parts. */
  function PartsOf(addr: nat, n: nat): seq<nat>
    requires 1 <= n <= 4
  {
    match n
    case 1 => [addr]
    case 2 => [addr / 0x100_0000, addr % 0x100_0000]
    case 3 => [addr / 0x100_0000, addr / 0x1_0000 % 0x100, addr % 0x1_0000]
    case _ => Octets(addr)
  }

  lemma {:induction false} BytesOf(addr: nat)
    requires addr < 0x1_0000_0000
    ensures addr == addr / 0x1_0000 * 0x1_0000 + addr / 0x100 % 0x100 * 0x100 + addr % 0x100
    ensures addr == addr / 0x100_0000 * 0x100_0000 + addr / 0x1_0000 % 0x100 * 0x1_0000 + addr % 0x1_0000
  {
    var low, mid := addr / 0x100, addr / 0x1_0000;
    assert addr == low * 0x100 + addr % 0x100;
    assert low / 0x100 == mid;
    assert addr == mid * 0x1_0000 + addr % 0x1_0000;
    assert mid / 0x100 == addr / 0x100_0000;
  }

  lemma {:induction false} PartsRoundTrip(addr: nat, n: nat)
    requires addr < 0x1_0000_0000 && 1 <= n <= 4
    ensures PartsFit(PartsOf(addr, n)) && AddressOf(PartsOf(addr, n)) == addr
  {
    match n
    case 1 =>
    case 2 => assert addr == addr / 0x100_0000 * 0x100_0000 + addr % 0x100_0000;
    case 3 => ThreeRoundTrip(addr);
    case _ => FourRoundTrip(addr);
  }

  lemma {:induction false} ThreeRoundTrip(addr: nat)
    requires addr < 0x1_0000_0000
    ensures PartsFit(PartsOf(addr, 3)) && AddressOf(PartsOf(addr, 3)) == addr
  {
    BytesOf(addr);
  }

  lemma {:induction false} FourRoundTrip(addr: nat)
    requires addr < 0x1_0000_0000
    ensures PartsFit(PartsOf(addr, 4)) && AddressOf(PartsOf(addr, 4)) == addr
  {
    BytesOf(addr);
    assert addr % 0x1_0000 == addr / 0x100 % 0x100 * 0x100 + addr % 0x100;
  }

  /**
   Every 32-bit address, cut into one to four parts and each part rendered in any radix, with any leading zeros
   and letter case that radix allows, decodes to that address and to nothing else.
   */
  lemma {:induction false} EveryRenderingDecodes(addr: nat, n: nat, parts: seq<string>, radices: seq<Radix>)
    requires addr < 0x1_0000_0000 && 1 <= n <= 4 && |parts| == |radices| == n
    requires forall i | 0 <= i < n :: Renders(parts[i], radices[i], PartsOf(addr, n)[i])
    ensures Decodes(Join(parts, '.'), PartsOf(addr, n))
    ensures forall vals: seq<nat> | Decodes(Join(parts, '.'), vals) :: AddressOf(vals) == addr
  {
    PartsRoundTrip(addr, n);
    forall p <- parts ensures '.' !in p {
      var i :| 0 <= i < n && parts[i] == p;
      RendersHasNoDot(p, radices[i], PartsOf(addr, n)[i]);
    }
    SplitJoin(parts, '.');
    forall i | 0 <= i < n ensures ParseCNumber(parts[i]) == Some(PartsOf(addr, n)[i]) {
      CNumberIff(parts[i], PartsOf(addr, n)[i]);
    }
    forall vals: seq<nat> | Decodes(Join(parts, '.'), vals) ensures vals == PartsOf(addr, n) {
    }
  }

  /** The canonical rendering of each part is one of those, so every address has all of its renderings. */
  lemma {:induction false} CanonicalRenderingDecodes(addr: nat, radices: seq<Radix>)
    requires addr < 0x1_0000_0000 && 1 <= |radices| <= 4
    ensures var vals := PartsOf(addr, |radices|);
      Decodes(Join(seq(|radices|, i requires 0 <= i < |radices| => Render(vals[i], radices[i])), '.'), vals)
      && AddressOf(vals) == addr
  {
    var n := |radices|;
    var vals := PartsOf(addr, n);
    var parts := seq(n, i requires 0 <= i < n => Render(vals[i], radices[i]));
    forall i | 0 <= i < n { RenderRenders(vals[i], radices[i]); }
    EveryRenderingDecodes(addr, n, parts, radices);
    PartsRoundTrip(addr, n);
  }
}
