/** The few Python `str` operations the command layer relies on:
    `strip()`, `lower()`, `startswith`, and `str()` of an integer. */
module PyText {

  import opened Wrappers

  /** Python's `str.isspace` on one character: the ASCII controls 9..13 and
      28..31, the space, and the Unicode separators Python treats as
      whitespace. */
  predicate IsSpace(c: char) {
    var n := c as int;
    || 9 <= n <= 13
    || 28 <= n <= 32
    || n == 0x85 || n == 0xA0 || n == 0x1680
    || 0x2000 <= n <= 0x200A
    || n == 0x2028 || n == 0x2029 || n == 0x202F || n == 0x205F
    || n == 0x3000
  }

  predicate AllSpace(s: string) {
    forall i :: 0 <= i < |s| ==> IsSpace(s[i])
  }

  /** No whitespace at either end: what `strip()` guarantees of its result. */
  predicate Trimmed(s: string) {
    s == [] || (!IsSpace(s[0]) && !IsSpace(s[|s| - 1]))
  }

  /** `str.lstrip()`: drops the leading whitespace, keeps the rest. */
  function LStrip(s: string): (r: string)
    ensures |r| <= |s|
  {
    if |s| > 0 && IsSpace(s[0]) then LStrip(s[1..]) else s
  }

  /** `lstrip()` keeps a suffix, cuts whitespace only, and stops at the first
      character that is not whitespace. */
  lemma {:induction false} LStripFacts(s: string)
    ensures var r := LStrip(s);
      r == s[|s| - |r|..] && AllSpace(s[..|s| - |r|]) && (r == [] || !IsSpace(r[0]))
    decreases |s|
  {
    if |s| > 0 && IsSpace(s[0]) {
      LStripFacts(s[1..]);
      var r := LStrip(s);
      assert s[1..][|s| - 1 - |r|..] == s[|s| - |r|..];
      assert s[..|s| - |r|] == [s[0]] + s[1..][..|s| - 1 - |r|];
    }
  }

  /** `str.rstrip()`: drops the trailing whitespace, keeps the rest. */
  function RStrip(s: string): (r: string)
    ensures |r| <= |s|
  {
    if |s| > 0 && IsSpace(s[|s| - 1]) then RStrip(s[..|s| - 1]) else s
  }

  /** `rstrip()` keeps a prefix, cuts whitespace only, and stops at the last
      character that is not whitespace. */
  lemma {:induction false} RStripFacts(s: string)
    ensures var r := RStrip(s);
      r == s[..|r|] && AllSpace(s[|r|..]) && (r == [] || !IsSpace(r[|r| - 1]))
    decreases |s|
  {
    if |s| > 0 && IsSpace(s[|s| - 1]) {
      RStripFacts(s[..|s| - 1]);
      var r := RStrip(s);
      assert s[..|s| - 1][..|r|] == s[..|r|];
      assert s[|r|..] == s[..|s| - 1][|r|..] + [s[|s| - 1]];
    }
  }

  /** Where `strip()` starts cutting the kept part out of `s`. */
  function StripStart(s: string): nat {
    |s| - |LStrip(s)|
  }

  /** `str.strip()`: what is left has no whitespace at either end. */
  function Strip(s: string): (r: string)
    ensures |r| <= |s|
    ensures Trimmed(r)
  {
    LStripFacts(s);
    RStripFacts(LStrip(s));
    RStrip(LStrip(s))
  }

  /** `strip()` keeps the infix starting at `StripStart(s)` and cuts only
      whitespace on both sides of it. */
  lemma StripFacts(s: string)
    ensures var r := Strip(s); var i := StripStart(s);
      && i + |r| <= |s| && s[i..i + |r|] == r
      && AllSpace(s[..i]) && AllSpace(s[i + |r|..])
  {
    var l := LStrip(s);
    var r := RStrip(l);
    var i := |s| - |l|;
    LStripFacts(s);
    RStripFacts(l);
    assert Strip(s) == r && StripStart(s) == i;
    SliceOfSuffix(s, i, |r|);
  }

  /** Cutting a suffix of `s` at `n` is cutting `s` itself at `i + n`. */
  lemma SliceOfSuffix(s: string, i: nat, n: nat)
    requires i + n <= |s|
    ensures s[i..][..n] == s[i..i + n] && s[i..][n..] == s[i + n..]
  {
  }

  lemma {:induction false} LStripSkips(p: string, t: string)
    requires AllSpace(p)
    requires t == [] || !IsSpace(t[0])
    ensures LStrip(p + t) == t
    decreases |p|
  {
    if p == [] {
      assert p + t == t;
    } else {
      assert (p + t)[1..] == p[1..] + t;
      LStripSkips(p[1..], t);
    }
  }

  lemma {:induction false} RStripSkips(t: string, q: string)
    requires AllSpace(q)
    requires t == [] || !IsSpace(t[|t| - 1])
    ensures RStrip(t + q) == t
    decreases |q|
  {
    if q == [] {
      assert t + q == t;
    } else {
      assert (t + q)[..|t + q| - 1] == t + q[..|q| - 1];
      RStripSkips(t, q[..|q| - 1]);
    }
  }

  /** `strip()` is determined by its contract: whatever the whitespace `p`
      and `q` around a trimmed `t`, stripping gives back exactly `t`. */
  lemma StripUnique(p: string, t: string, q: string)
    requires AllSpace(p) && AllSpace(q) && Trimmed(t)
    ensures Strip(p + t + q) == t
  {
    if t == [] {
      assert p + t + q == p + q;
      assert AllSpace(p + q);
      LStripSkips(p + q, []);
      assert p + q + [] == p + q;
    } else {
      assert p + t + q == p + (t + q);
      LStripSkips(p, t + q);
      RStripSkips(t, q);
    }
  }

  /** Stripping twice is stripping once. */
  lemma StripIdempotent(s: string)
    ensures Strip(Strip(s)) == Strip(s)
  {
    var t := Strip(s);
    assert [] + t + [] == t;
    StripUnique([], t, []);
  }

  lemma AllSpaceConcat(a: string, b: string)
    requires AllSpace(a) && AllSpace(b)
    ensures AllSpace(a + b)
  {
  }

  lemma SplitThree(s: string, i: nat, j: nat)
    requires i <= j <= |s|
    ensures s == s[..i] + s[i..j] + s[j..]
  {
  }

  /** A line that is whitespace only strips to nothing, and only such a line. */
  lemma StripEmptyIff(s: string)
    ensures Strip(s) == [] <==> AllSpace(s)
  {
    if AllSpace(s) {
      assert s + [] + [] == s;
      StripUnique(s, [], []);
    }
    if Strip(s) == [] {
      StripFacts(s);
      assert s == s[..StripStart(s)] + s[StripStart(s)..];
    }
  }

  /** `s` is its leading whitespace, its stripped core and its trailing
      whitespace, in that order. */
  lemma StripSplits(s: string)
    ensures s == s[..StripStart(s)] + Strip(s) + s[StripStart(s) + |Strip(s)|..]
  {
    var i := StripStart(s);
    StripFacts(s);
    SplitThree(s, i, i + |Strip(s)|);
  }

  lemma Regroup(p: string, lead: string, t: string, trail: string, q: string)
    ensures p + (lead + t + trail) + q == (p + lead) + t + (trail + q)
  {
  }

  /** Surrounding whitespace never changes the stripped line. */
  lemma StripAbsorbsSpace(p: string, s: string, q: string)
    requires AllSpace(p) && AllSpace(q)
    ensures Strip(p + s + q) == Strip(s)
  {
    var t := Strip(s);
    var i := StripStart(s);
    var lead, trail := s[..i], s[i + |t|..];
    StripFacts(s);
    StripSplits(s);
    Regroup(p, lead, t, trail, q);
    AllSpaceConcat(p, lead);
    AllSpaceConcat(trail, q);
    StripUnique(p + lead, t, trail + q);
  }

  /** ASCII `lower()` on one character; every other character is kept. */
  function LowerChar(c: char): (r: char)
    ensures 'A' <= c <= 'Z' ==> 'a' <= r <= 'z' && r as int - c as int == 32
    ensures !('A' <= c <= 'Z') ==> r == c
  {
    if 'A' <= c <= 'Z' then (c as int + 32) as char else c
  }

  /** `str.lower()` restricted to ASCII letters: length-preserving and
      character by character. */
  function Lower(s: string): (r: string)
    ensures |r| == |s|
    ensures forall i {:trigger r[i]} :: 0 <= i < |s| ==> r[i] == LowerChar(s[i])
  {
    seq(|s|, i requires 0 <= i < |s| => LowerChar(s[i]))
  }

  /** Lower-casing never creates or removes whitespace. */
  lemma LowerKeepsSpace(c: char)
    ensures IsSpace(LowerChar(c)) <==> IsSpace(c)
    ensures LowerChar(c) == ' ' <==> c == ' '
  {
  }

  lemma LowerAppend(a: string, b: string)
    ensures Lower(a + b) == Lower(a) + Lower(b)
  {
  }

  lemma LowerPrefix(s: string, n: nat)
    requires n <= |s|
    ensures Lower(s)[..n] == Lower(s[..n])
  {
  }

  predicate StartsWith(s: string, prefix: string) {
    |prefix| <= |s| && s[..|prefix|] == prefix
  }

  predicate EndsWith(s: string, suffix: string) {
    |suffix| <= |s| && s[|s| - |suffix|..] == suffix
  }

  function DigitChar(d: nat): (c: char)
    requires d < 10
    ensures '0' <= c <= '9' && c as int - '0' as int == d
  {
    ('0' as int + d) as char
  }

  /** Decimal digits of a natural number, most significant first. */
  function Digits(n: nat): (r: string)
    ensures |r| >= 1
    ensures IsDigits(r)
    ensures r[0] == '0' ==> n == 0
    decreases n
  {
    if n < 10 then [DigitChar(n)] else Digits(n / 10) + [DigitChar(n % 10)]
  }

  /** Value of a string of decimal digits: the partner of `Digits`. */
  function DigitsValue(s: string): nat
    requires IsDigits(s)
  {
    if s == [] then 0
    else 10 * DigitsValue(s[..|s| - 1]) + (s[|s| - 1] as int - '0' as int)
  }

  lemma {:induction false} DigitsRoundTrip(n: nat)
    ensures DigitsValue(Digits(n)) == n
    decreases n
  {
    if n >= 10 {
      var s := Digits(n);
      assert s[..|s| - 1] == Digits(n / 10);
      DigitsRoundTrip(n / 10);
    }
  }

  /** Python's `str(n)` for an integer: an optional minus sign, then the
      digits of the magnitude. */
  function IntToString(n: int): (r: string)
    ensures n >= 0 ==> |r| >= 1 && '0' <= r[0] <= '9'
    ensures n < 0 ==> |r| >= 2 && r[0] == '-'
  {
    if n < 0 then "-" + Digits(-n) else Digits(n)
  }

  predicate IsDigits(s: string) {
    forall i :: 0 <= i < |s| ==> '0' <= s[i] <= '9'
  }

  /** Reading back what `IntToString` wrote: the inverse on its image. */
  function ParseInt(s: string): Option<int> {
    if |s| >= 2 && s[0] == '-' && IsDigits(s[1..]) then
      var v: int := 0 - DigitsValue(s[1..]) as int;
      Some(v)
    else if |s| >= 1 && IsDigits(s) then Some(DigitsValue(s))
    else None
  }

  /** `str(n)` loses nothing: parsing it gives `n` back. */
  lemma IntToStringRoundTrip(n: int)
    ensures ParseInt(IntToString(n)) == Some(n)
  {
    var s := IntToString(n);
    if n < 0 {
      assert s[1..] == Digits(-n);
      DigitsRoundTrip(-n);
    } else {
      assert s == Digits(n);
      assert s[0] != '-';
      DigitsRoundTrip(n);
    }
  }
}
