/** The parts of Python's `str` and `ipaddress` that the listing, naming and address
    code relies on: splitting on a one-character separator and the check made by
    `ipaddress.IPv4Address` on a textual address. */
module Strings {

  /** Position of the first `c` in `s`, or `|s|` when `s` holds no `c`. */
  function FirstIndex(s: string, c: char): (i: nat)
    ensures i <= |s|
    ensures i < |s| ==> s[i] == c
    ensures forall j :: 0 <= j < i ==> s[j] != c
    ensures i == |s| <==> c !in s
  {
    if s == [] then 0
    else if s[0] == c then 0
    else 1 + FirstIndex(s[1..], c)
  }

  /** Python's `s.split(sep, 1)`: the text before the first `sep` and the text after
      it, or `[s]` alone when `sep` does not occur. */
  function SplitOnce(s: string, sep: char): (parts: seq<string>)
    ensures 1 <= |parts| <= 2
    ensures |parts| == 1 <==> sep !in s
    ensures |parts| == 1 ==> parts[0] == s
    ensures |parts| == 2 ==> parts[0] + [sep] + parts[1] == s && sep !in parts[0]
  {
    var i := FirstIndex(s, sep);
    if i == |s| then [s] else [s[..i], s[i + 1..]]
  }

  /** Splitting a text whose first part holds no separator gives the two parts back. */
  lemma SplitOnceOfJoin(a: string, sep: char, b: string)
    requires sep !in a
    ensures SplitOnce(a + [sep] + b, sep) == [a, b]
  {
    var s := a + [sep] + b;
    assert s[|a|] == sep;
    assert s[..|a|] == a;
    assert s[|a| + 1..] == b;
  }

  /** Python's `s.split(sep)` for a one-character separator. */
  function Split(s: string, sep: char): (parts: seq<string>)
    ensures |parts| >= 1
    ensures forall k :: 0 <= k < |parts| ==> sep !in parts[k]
    decreases |s|
  {
    var i := FirstIndex(s, sep);
    if i == |s| then [s] else [s[..i]] + Split(s[i + 1..], sep)
  }

  /** Python's `sep.join(parts)`. */
  function Join(parts: seq<string>, sep: char): string
    requires |parts| >= 1
  {
    if |parts| == 1 then parts[0] else parts[0] + [sep] + Join(parts[1..], sep)
  }

  /** Joining a part in front of others puts one separator between them. */
  lemma JoinCons(a: string, ps: seq<string>, sep: char)
    requires |ps| >= 1
    ensures Join([a] + ps, sep) == a + [sep] + Join(ps, sep)
  {
    var parts := [a] + ps;
    assert parts[0] == a && parts[1..] == ps;
  }

  /** A text holding the separator splits into the text before its first occurrence,
      then the parts of the text after it. */
  lemma SplitAtFirst(s: string, sep: char)
    requires sep in s
    ensures var i := FirstIndex(s, sep);
            Split(s, sep) == [s[..i]] + Split(s[i + 1..], sep) && s == s[..i] + [sep] + s[i + 1..]
  {
    var i := FirstIndex(s, sep);
    assert s == s[..i] + [s[i]] + s[i + 1..];
  }

  /** Joining what `Split` produced restores the text. */
  lemma {:induction false} JoinSplit(s: string, sep: char)
    ensures Join(Split(s, sep), sep) == s
    decreases |s|
  {
    if sep in s {
      var i := FirstIndex(s, sep);
      var head, rest := s[..i], s[i + 1..];
      SplitAtFirst(s, sep);
      JoinSplit(rest, sep);
      JoinCons(head, Split(rest, sep), sep);
    } else {
      assert Split(s, sep) == [s];
    }
  }

  /** Splitting a join of separator-free parts gives the parts back. */
  lemma {:induction false} SplitJoin(parts: seq<string>, sep: char)
    requires |parts| >= 1
    requires forall k :: 0 <= k < |parts| ==> sep !in parts[k]
    ensures Split(Join(parts, sep), sep) == parts
  {
    if |parts| > 1 {
      var rest := Join(parts[1..], sep);
      SplitJoin(parts[1..], sep);
      SplitOnceOfJoin(parts[0], sep, rest);
      var s := parts[0] + [sep] + rest;
      assert FirstIndex(s, sep) == |parts[0]|;
      assert s[..|parts[0]|] == parts[0];
      assert s[|parts[0]| + 1..] == rest;
      assert parts == [parts[0]] + parts[1..];
    }
  }

  predicate IsDigit(c: char) {
    '0' <= c <= '9'
  }

  predicate AllDigits(p: string) {
    forall i :: 0 <= i < |p| ==> IsDigit(p[i])
  }

  /** The decimal value of a string of digits. */
  function DecimalValue(p: string): nat
    requires AllDigits(p)
  {
    if p == [] then 0
    else 10 * DecimalValue(p[..|p| - 1]) + (p[|p| - 1] as int - '0' as int)
  }

  /** A non-empty string of digits without a leading zero (the single digit "0" is allowed). */
  predicate Canonical(p: string) {
    |p| >= 1 && AllDigits(p) && (|p| == 1 || p[0] != '0')
  }

  /** One octet as `ipaddress.IPv4Address` accepts it: one to three decimal digits, no
      leading zero, value at most 255. */
  predicate IsOctet(p: string) {
    Canonical(p) && |p| <= 3 && DecimalValue(p) <= 255
  }

  /** `ipaddress.IPv4Address(address)` raises no `AddressValueError`: exactly four
      dot-separated octets. */
  predicate IsIPv4(address: string) {
    var parts := Split(address, '.');
    |parts| == 4 && forall k :: 0 <= k < 4 ==> IsOctet(parts[k])
  }

  function DigitChar(d: nat): char
    requires d < 10
  {
    ('0' as int + d) as char
  }

  /** The usual decimal rendering of a natural number (`str(n)` in Python). */
  function DecimalString(n: nat): (p: string)
    ensures AllDigits(p)
  {
    if n < 10 then [DigitChar(n)] else DecimalString(n / 10) + [DigitChar(n % 10)]
  }

  /** `DecimalString` is canonical, has the value it renders and is short for small numbers. */
  lemma {:induction false} DecimalStringFacts(n: nat)
    ensures Canonical(DecimalString(n))
    ensures DecimalValue(DecimalString(n)) == n
    ensures n < 10 ==> |DecimalString(n)| == 1
    ensures n < 100 ==> |DecimalString(n)| <= 2
    ensures n < 1000 ==> |DecimalString(n)| <= 3
  {
    var p := DecimalString(n);
    if n >= 10 {
      DecimalStringFacts(n / 10);
      var q := DecimalString(n / 10);
      assert p[..|p| - 1] == q;
      assert p[0] == q[0];
      if |q| == 1 {
        assert q[0] == DigitChar(n / 10);
      }
    }
  }

  /** A canonical digit string other than "0" has a value of at least one. */
  lemma {:induction false} CanonicalPositive(p: string)
    requires Canonical(p) && p[0] != '0'
    ensures DecimalValue(p) >= 1
    decreases |p|
  {
    if |p| > 1 {
      var q := p[..|p| - 1];
      assert q[0] == p[0];
      CanonicalPositive(q);
    }
  }

  /** Reading a canonical digit string and rendering it again gives the same text. */
  lemma {:induction false} DecimalStringOfValue(p: string)
    requires Canonical(p)
    ensures DecimalString(DecimalValue(p)) == p
    decreases |p|
  {
    var n := DecimalValue(p);
    if |p| > 1 {
      var q := p[..|p| - 1];
      assert q[0] == p[0];
      CanonicalPositive(q);
      DecimalStringOfValue(q);
      var d := p[|p| - 1] as int - '0' as int;
      assert n == 10 * DecimalValue(q) + d;
      assert n / 10 == DecimalValue(q) && n % 10 == d;
      assert p == q + [p[|p| - 1]];
    }
  }

  /** The dotted-quad text of four byte values. */
  function DottedQuad(a: nat, b: nat, c: nat, d: nat): string {
    Join([DecimalString(a), DecimalString(b), DecimalString(c), DecimalString(d)], '.')
  }

  /** Every dotted quad of four values up to 255 passes the IPv4 check. */
  lemma DottedQuadIsIPv4(a: nat, b: nat, c: nat, d: nat)
    requires a <= 255 && b <= 255 && c <= 255 && d <= 255
    ensures IsIPv4(DottedQuad(a, b, c, d))
  {
    var parts := [DecimalString(a), DecimalString(b), DecimalString(c), DecimalString(d)];
    DecimalStringFacts(a);
    DecimalStringFacts(b);
    DecimalStringFacts(c);
    DecimalStringFacts(d);
    forall k | 0 <= k < 4 ensures '.' !in parts[k] && IsOctet(parts[k]) {
      assert AllDigits(parts[k]);
    }
    SplitJoin(parts, '.');
  }

  /** Conversely, every text that passes the IPv4 check is the dotted quad of its four
      octet values. */
  lemma IPv4IsDottedQuad(address: string)
    requires IsIPv4(address)
    ensures var parts := Split(address, '.');
            && DecimalValue(parts[0]) <= 255 && DecimalValue(parts[1]) <= 255
            && DecimalValue(parts[2]) <= 255 && DecimalValue(parts[3]) <= 255
            && address == DottedQuad(DecimalValue(parts[0]), DecimalValue(parts[1]),
                                     DecimalValue(parts[2]), DecimalValue(parts[3]))
  {
    var parts := Split(address, '.');
    assert IsOctet(parts[0]) && IsOctet(parts[1]) && IsOctet(parts[2]) && IsOctet(parts[3]);
    var v0, v1, v2, v3 := DecimalValue(parts[0]), DecimalValue(parts[1]),
                          DecimalValue(parts[2]), DecimalValue(parts[3]);
    DecimalStringOfValue(parts[0]);
    DecimalStringOfValue(parts[1]);
    DecimalStringOfValue(parts[2]);
    DecimalStringOfValue(parts[3]);
    var rendered := [DecimalString(v0), DecimalString(v1), DecimalString(v2), DecimalString(v3)];
    assert rendered == parts;
    JoinSplit(address, '.');
    assert DottedQuad(v0, v1, v2, v3) == Join(rendered, '.');
  }
}
