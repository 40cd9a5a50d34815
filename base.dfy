/** Shared vocabulary of the kiosk model: optional values, JavaScript's
    notion of white space and `trim`, `Array.prototype.join`, and the decimal
    rendering of integers that `String(n)` and template literals perform. */
module Base {

  datatype Option<+T> = None | Some(value: T) {
    /** `x ?? d` and `x || d` when x cannot be falsy other than by absence. */
    function GetOr(default: T): T {
      match this
      case Some(v) => v
      case None => default
    }
  }

  // ---------------------------------------------------------------------
  // White space and trim
  // ---------------------------------------------------------------------

  /** The characters String.prototype.trim removes: ECMAScript WhiteSpace
      (TAB, VT, FF, SP, NBSP, ZWNBSP and the Zs category) and LineTerminator
      (LF, CR, LS, PS). */
  predicate IsSpace(c: char) {
    c == '\t' || c == '\n' || c == '\U{000B}' || c == '\U{000C}' || c == '\r'
    || c == ' ' || c == '\U{00A0}' || c == '\U{1680}'
    || ('\U{2000}' <= c <= '\U{200A}')
    || c == '\U{2028}' || c == '\U{2029}' || c == '\U{202F}' || c == '\U{205F}'
    || c == '\U{3000}' || c == '\U{FEFF}'
  }

  /** A string that trims to the empty string: `!s.trim()` in the source. */
  predicate IsBlank(s: string) {
    forall i | 0 <= i < |s| :: IsSpace(s[i])
  }

  function TrimStart(s: string): (r: string)
    ensures |r| <= |s| && r == s[|s| - |r|..]
    ensures forall i | 0 <= i < |s| - |r| :: IsSpace(s[i])
    ensures r != [] ==> !IsSpace(r[0])
  {
    if |s| > 0 && IsSpace(s[0]) then TrimStart(s[1..]) else s
  }

  function TrimEnd(s: string): (r: string)
    ensures |r| <= |s| && r == s[..|r|]
    ensures forall i | |r| <= i < |s| :: IsSpace(s[i])
    ensures r != [] ==> !IsSpace(r[|r| - 1])
  {
    if |s| > 0 && IsSpace(s[|s| - 1]) then TrimEnd(s[..|s| - 1]) else s
  }

  /** The number of white-space characters TrimStart cuts off. */
  function LeadingSpaces(s: string): nat {
    |s| - |TrimStart(s)|
  }

  /** String.prototype.trim: the longest infix of s that neither starts nor
      ends with white space; everything cut off on either side is white space. */
  function Trim(s: string): (r: string)
    ensures LeadingSpaces(s) + |r| <= |s|
    ensures r == s[LeadingSpaces(s)..LeadingSpaces(s) + |r|]
    ensures r == [] || (!IsSpace(r[0]) && !IsSpace(r[|r| - 1]))
    ensures forall i | 0 <= i < LeadingSpaces(s) :: IsSpace(s[i])
    ensures forall i | LeadingSpaces(s) + |r| <= i < |s| :: IsSpace(s[i])
  {
    var a := TrimStart(s);
    var r := TrimEnd(a);
    InfixOfSuffix(s, a, r);
    r
  }

  /** A prefix r of a suffix a of s, with only white space after r in a, is
      an infix of s followed by white space only. */
  lemma InfixOfSuffix(s: string, a: string, r: string)
    requires |a| <= |s| && a == s[|s| - |a|..]
    requires |r| <= |a| && r == a[..|r|]
    requires forall i | |r| <= i < |a| :: IsSpace(a[i])
    ensures r == s[|s| - |a|..|s| - |a| + |r|]
    ensures forall i | |s| - |a| + |r| <= i < |s| :: IsSpace(s[i])
  {
    var k := |s| - |a|;
    forall i | k + |r| <= i < |s| ensures IsSpace(s[i]) {
      assert s[i] == a[i - k];
    }
  }

  /** `s.trim()` is falsy exactly when s consists of white space only. */
  lemma TrimEmptyIffBlank(s: string)
    ensures Trim(s) == [] <==> IsBlank(s)
  {
    var a := TrimStart(s);
    if a != [] {
      assert a[0] == s[|s| - |a|];
    }
    if Trim(s) == [] {
      assert forall i | 0 <= i < |s| :: IsSpace(s[i]);
    }
  }

  // ---------------------------------------------------------------------
  // Array.prototype.join
  // ---------------------------------------------------------------------

  function Join(parts: seq<string>, sep: string): (r: string)
    ensures |parts| == 1 ==> r == parts[0]
  {
    if |parts| == 0 then ""
    else if |parts| == 1 then parts[0]
    else parts[0] + sep + Join(parts[1..], sep)
  }

  function SumLengths(parts: seq<string>): nat {
    if parts == [] then 0 else |parts[0]| + SumLengths(parts[1..])
  }

  /** Joining k parts inserts the separator exactly k - 1 times. */
  lemma {:induction false} JoinLength(parts: seq<string>, sep: string)
    requires |parts| > 0
    ensures |Join(parts, sep)| == SumLengths(parts) + (|parts| - 1) * |sep|
  {
    if |parts| > 1 {
      JoinLength(parts[1..], sep);
    }
  }

  /** Appending a part appends the separator and the part. */
  lemma {:induction false} JoinSnoc(parts: seq<string>, p: string, sep: string)
    requires |parts| > 0
    ensures Join(parts + [p], sep) == Join(parts, sep) + sep + p
  {
    if |parts| == 1 {
      assert (parts + [p])[1..] == [p];
    } else {
      assert (parts + [p])[1..] == parts[1..] + [p];
      JoinSnoc(parts[1..], p, sep);
    }
  }

  // ---------------------------------------------------------------------
  // Decimal rendering of integers
  // ---------------------------------------------------------------------

  predicate IsDigit(c: char) { '0' <= c <= '9' }

  function DigitChar(d: nat): (c: char)
    requires d < 10
    ensures IsDigit(c) && (c as int) - ('0' as int) == d
  {
    ('0' as int + d) as char
  }

  /** The decimal numeral of n, as `String(n)` writes it. */
  function Digits(n: nat): (r: string)
    ensures |r| > 0 && forall i | 0 <= i < |r| :: IsDigit(r[i])
    ensures |r| > 1 ==> r[0] != '0'
  {
    if n < 10 then [DigitChar(n)] else Digits(n / 10) + [DigitChar(n % 10)]
  }

  /** Reads a string of decimal digits back as a number. */
  function DigitValue(c: char): (d: nat)
    requires IsDigit(c)
    ensures d < 10
  {
    (c as int) - ('0' as int)
  }

  function ParseDigits(s: string): nat
    requires forall i | 0 <= i < |s| :: IsDigit(s[i])
  {
    if s == [] then 0
    else ParseDigits(s[..|s| - 1]) * 10 + DigitValue(s[|s| - 1])
  }

  lemma {:induction false} ParseDigitsRoundTrip(n: nat)
    ensures ParseDigits(Digits(n)) == n
  {
    if n >= 10 {
      var s := Digits(n);
      assert s[..|s| - 1] == Digits(n / 10);
      ParseDigitsRoundTrip(n / 10);
    }
  }

  /** Leading zeros do not change the value read back. */
  lemma {:induction false} ParseDigitsLeadingZeros(z: nat, s: string)
    requires forall i | 0 <= i < |s| :: IsDigit(s[i])
    ensures forall i | 0 <= i < |Repeat('0', z) + s| :: IsDigit((Repeat('0', z) + s)[i])
    ensures ParseDigits(Repeat('0', z) + s) == ParseDigits(s)
  {
    var t := Repeat('0', z) + s;
    if s == [] {
      assert t == Repeat('0', z);
      AllZeros(z);
    } else {
      assert t[..|t| - 1] == Repeat('0', z) + s[..|s| - 1];
      ParseDigitsLeadingZeros(z, s[..|s| - 1]);
    }
  }

  lemma {:induction false} AllZeros(z: nat)
    ensures ParseDigits(Repeat('0', z)) == 0
  {
    if z > 0 {
      assert Repeat('0', z)[..z - 1] == Repeat('0', z - 1);
      AllZeros(z - 1);
    }
  }

  function Repeat(c: char, n: nat): (r: string)
    ensures |r| == n && forall i | 0 <= i < n :: r[i] == c
  {
    if n == 0 then "" else Repeat(c, n - 1) + [c]
  }

  /** String.prototype.padStart with a one-character pad. */
  function PadStart(s: string, width: nat, c: char): (r: string)
    ensures |r| == if |s| >= width then |s| else width
    ensures r == Repeat(c, |r| - |s|) + s
  {
    if |s| >= width then s else Repeat(c, width - |s|) + s
  }

  /** `String(i)` for an integer i. */
  function IntString(i: int): (r: string)
    ensures i >= 0 ==> r == Digits(i)
    ensures i < 0 ==> r == "-" + Digits(-i)
  {
    if i < 0 then "-" + Digits(-i) else Digits(i)
  }

  // ---------------------------------------------------------------------
  // Sequences
  // ---------------------------------------------------------------------

  /** `xs.filter((_, i) => i !== k)`: drop the element at k, if any. */
  function RemoveAt<T>(xs: seq<T>, k: int): (r: seq<T>)
    ensures 0 <= k < |xs| ==> |r| == |xs| - 1
    ensures !(0 <= k < |xs|) ==> r == xs
    ensures 0 <= k < |xs| ==> forall i | 0 <= i < k :: r[i] == xs[i]
    ensures 0 <= k < |xs| ==> forall i | k <= i < |r| :: r[i] == xs[i + 1]
  {
    if 0 <= k < |xs| then xs[..k] + xs[k + 1..] else xs
  }

  /** `xs.reduce((sum, x) => sum + f(x), 0)`. */
  function SumOf<T>(xs: seq<T>, f: T -> int): int {
    if xs == [] then 0 else f(xs[0]) + SumOf(xs[1..], f)
  }

  lemma {:induction false} SumOfAppend<T>(a: seq<T>, b: seq<T>, f: T -> int)
    ensures SumOf(a + b, f) == SumOf(a, f) + SumOf(b, f)
  {
    if a == [] {
      assert a + b == b;
    } else {
      assert (a + b)[1..] == a[1..] + b;
      SumOfAppend(a[1..], b, f);
    }
  }

  /** Replacing one element changes the sum by the difference of the two. */
  lemma {:induction false} SumOfUpdate<T>(xs: seq<T>, k: nat, x: T, f: T -> int)
    requires k < |xs|
    ensures SumOf(xs[k := x], f) == SumOf(xs, f) - f(xs[k]) + f(x)
  {
    if k > 0 {
      assert xs[k := x][1..] == xs[1..][k - 1 := x];
      SumOfUpdate(xs[1..], k - 1, x, f);
    }
  }

  /** Dropping one element subtracts it from the sum. */
  lemma SumOfRemoveAt<T>(xs: seq<T>, k: nat, f: T -> int)
    requires k < |xs|
    ensures SumOf(RemoveAt(xs, k), f) == SumOf(xs, f) - f(xs[k])
  {
    RemoveAtSplit(xs, k);
    SumOfAppend(xs[..k], xs[k + 1..], f);
    SumOfSplit(xs[..k], xs[k], xs[k + 1..], f);
  }

  lemma RemoveAtSplit<T>(xs: seq<T>, k: nat)
    requires k < |xs|
    ensures RemoveAt(xs, k) == xs[..k] + xs[k + 1..]
    ensures xs == xs[..k] + [xs[k]] + xs[k + 1..]
  {
  }

  lemma SumOfSplit<T>(pre: seq<T>, x: T, post: seq<T>, f: T -> int)
    ensures SumOf(pre + [x] + post, f) == SumOf(pre, f) + f(x) + SumOf(post, f)
  {
    SumOfAppend(pre + [x], post, f);
    SumOfAppend(pre, [x], f);
    SumOfSingle(x, f);
  }

  lemma SumOfSingle<T>(x: T, f: T -> int)
    ensures SumOf([x], f) == f(x)
  {
    assert [x][1..] == [];
  }
}
