/**
 * The JavaScript built-ins the game relies on, restricted to the values the
 * game gives them: `parseInt` with no radix, `String(n)` of an integral
 * number or NaN, `Math.round`, `String.prototype.toLowerCase` as far as the
 * end sentinel needs it, and the array operations `indexOf` and `splice`.
 * A JavaScript number is modelled as an unbounded integer; NaN is `None`.
 */
module JsCore {
  import opened Wrappers

  // ---------------------------------------------------------------- Math.round

  /** `Math.round(x)`: the nearest integer, a half rounded up (toward +infinity). */
  function Round(x: real): (r: int)
    ensures r as real - 0.5 <= x < r as real + 0.5
  {
    (x + 0.5).Floor
  }

  /** `Math.round(n / 3)` never meets a half, so it is floor division of n + 1 by 3. */
  lemma RoundThird(n: int)
    ensures Round(n as real / 3.0) == (n + 1) / 3
  {
    var q, r := (n + 1) / 3, (n + 1) % 3;
    assert n == 3 * q + r - 1;
    var x := n as real / 3.0 + 0.5;
    assert x == q as real + (2 * r + 1) as real / 6.0;
    assert q as real <= x < q as real + 1.0;
  }

  // ---------------------------------------------------------------- parseInt

  /** The characters `parseInt` skips before the number: ECMAScript's WhiteSpace and LineTerminator. */
  predicate IsSpace(c: char) {
    c == '\t' || c == '\n' || c == '\U{000B}' || c == '\U{000C}' || c == '\r' || c == ' '
    || c == '\U{00A0}' || c == '\U{1680}' || ('\U{2000}' <= c <= '\U{200A}')
    || c == '\U{2028}' || c == '\U{2029}' || c == '\U{202F}' || c == '\U{205F}'
    || c == '\U{3000}' || c == '\U{FEFF}'
  }

  /** The text with its leading white space removed. */
  function TrimStart(s: string): string {
    if s != [] && IsSpace(s[0]) then TrimStart(s[1..]) else s
  }

  /** The trim removes a prefix made only of white space, and no more than that. */
  lemma {:induction false} TrimStartRemovesSpace(s: string)
    ensures var t := TrimStart(s);
      |t| <= |s| && t == s[|s| - |t|..] && (t == [] || !IsSpace(t[0]))
      && forall i :: 0 <= i < |s| - |t| ==> IsSpace(s[i])
  {
    if s != [] && IsSpace(s[0]) {
      TrimStartRemovesSpace(s[1..]);
      var t := TrimStart(s);
      forall i | 0 <= i < |s| - |t| ensures IsSpace(s[i]) {
        if i > 0 {
          assert s[i] == s[1..][i - 1];
        }
      }
    }
  }

  /** The value of c as a digit of radix 36 or below; 36 when c is no digit at all. */
  function DigitValue(c: char): nat {
    if '0' <= c <= '9' then c as int - '0' as int
    else if 'a' <= c <= 'z' then c as int - 'a' as int + 10
    else if 'A' <= c <= 'Z' then c as int - 'A' as int + 10
    else 36
  }

  /** The longest prefix of s made of digits of the given radix. */
  function DigitRun(s: string, radix: nat): string {
    if s != [] && DigitValue(s[0]) < radix then [s[0]] + DigitRun(s[1..], radix) else []
  }

  /** The run is a prefix of s, all digits, and stops at the first character that is no digit. */
  lemma {:induction false} DigitRunIsLongestPrefix(s: string, radix: nat)
    ensures var ds := DigitRun(s, radix);
      ds <= s && (forall i :: 0 <= i < |ds| ==> DigitValue(ds[i]) < radix)
      && (|ds| < |s| ==> DigitValue(s[|ds|]) >= radix)
  {
    if s != [] && DigitValue(s[0]) < radix {
      DigitRunIsLongestPrefix(s[1..], radix);
      var ds := DigitRun(s, radix);
      forall i | 0 <= i < |ds| ensures DigitValue(ds[i]) < radix {
        if i > 0 {
          assert ds[i] == DigitRun(s[1..], radix)[i - 1];
        }
      }
      if |ds| < |s| {
        assert s[|ds|] == s[1..][|ds| - 1];
      }
    }
  }

  /** The number a string of digits denotes in the given radix. */
  function Value(ds: string, radix: nat): nat {
    if ds == [] then 0 else Value(ds[..|ds| - 1], radix) * radix + DigitValue(ds[|ds| - 1])
  }

  /**
   * `parseInt(text)` with no radix: skip white space, take an optional sign,
   * read hexadecimal after a `0x`/`0X` prefix and decimal otherwise, stop at
   * the first character that is no digit; NaN (`None`) when no digit was read.
   */
  function ParseInt(text: string): (r: Option<int>)
    ensures (forall i :: 0 <= i < |text| ==> !IsDecimal(text[i])) ==> r == None
  {
    NoDigitNoNumber(text);
    ParseSigned(TrimStart(text))
  }

  predicate IsDecimal(c: char) {
    '0' <= c <= '9'
  }

  function ParseSigned(t: string): Option<int> {
    if t != [] && t[0] == '-' then
      match ParseMagnitude(t[1..])
      case None => None
      case Some(m) => Some(-m)
    else if t != [] && t[0] == '+' then ParseMagnitude(t[1..])
    else ParseMagnitude(t)
  }

  function ParseMagnitude(u: string): Option<int> {
    if |u| >= 2 && u[0] == '0' && (u[1] == 'x' || u[1] == 'X') then ParseDigits(u[2..], 16)
    else ParseDigits(u, 10)
  }

  function ParseDigits(s: string, radix: nat): Option<int> {
    var ds := DigitRun(s, radix);
    if ds == [] then None else Some(Value(ds, radix))
  }

  /** A text without a single decimal digit reads as no number, with or without a `0x` prefix. */
  lemma NoDigitNoMagnitude(u: string)
    requires forall i :: 0 <= i < |u| ==> !IsDecimal(u[i])
    ensures ParseMagnitude(u) == None
  {
    if u != [] {
      DigitRunIsLongestPrefix(u, 10);
    }
  }

  lemma NoDigitNoNumber(text: string)
    ensures (forall i :: 0 <= i < |text| ==> !IsDecimal(text[i])) ==> ParseSigned(TrimStart(text)) == None
  {
    if forall i :: 0 <= i < |text| ==> !IsDecimal(text[i]) {
      TrimStartRemovesSpace(text);
      var t := TrimStart(text);
      assert forall i :: 0 <= i < |t| ==> t[i] == text[|text| - |t| + i];
      if t != [] {
        NoDigitNoMagnitude(t[1..]);
      }
      NoDigitNoMagnitude(t);
    }
  }

  // ---------------------------------------------------------------- String(n)

  function DigitChar(d: nat): char
    requires d < 10
  {
    ('0' as int + d) as char
  }

  /** The decimal numeral of n, with no leading zero. */
  function NatToString(n: nat): (s: string)
    ensures |s| >= 1 && forall i :: 0 <= i < |s| ==> '0' <= s[i] <= '9'
    ensures (s[0] == '0') == (n == 0)
  {
    if n < 10 then [DigitChar(n)] else NatToString(n / 10) + [DigitChar(n % 10)]
  }

  /** `String(n)` (and template interpolation) of an integral number. */
  function IntToString(n: int): string {
    if n < 0 then "-" + NatToString(-n) else NatToString(n)
  }

  /** `String(v)` of a number that is integral or NaN. */
  function NumberToString(v: Option<int>): string {
    match v
    case None => "NaN"
    case Some(n) => IntToString(n)
  }

  lemma {:induction false} ValueOfNatToString(n: nat)
    ensures Value(NatToString(n), 10) == n
  {
    if n >= 10 {
      ValueOfNatToString(n / 10);
      var s := NatToString(n);
      assert s[..|s| - 1] == NatToString(n / 10);
    }
  }

  lemma {:induction false} DigitRunOfDigits(s: string, radix: nat)
    requires forall i :: 0 <= i < |s| ==> DigitValue(s[i]) < radix
    ensures DigitRun(s, radix) == s
  {
    if s != [] {
      DigitRunOfDigits(s[1..], radix);
    }
  }

  lemma ParseDigitsOfNumeral(m: nat)
    ensures ParseMagnitude(NatToString(m)) == Some(m)
  {
    var digits := NatToString(m);
    assert |digits| >= 2 ==> digits[1] != 'x' && digits[1] != 'X';
    DigitRunOfDigits(digits, 10);
    ValueOfNatToString(m);
  }

  /** Text that starts with no white space is left as it is by the trim. */
  lemma TrimStartOfNonSpace(s: string)
    requires s != [] && !IsSpace(s[0])
    ensures TrimStart(s) == s
  {
  }

  /** A numeral with no white space and no sign is read by `ParseMagnitude` alone. */
  lemma ParseIntOfNumeral(m: nat)
    ensures ParseInt(NatToString(m)) == Some(m)
  {
    var s := NatToString(m);
    TrimStartOfNonSpace(s);
    ParseDigitsOfNumeral(m);
  }

  /** A negative number prints as a minus sign before the numeral of its magnitude. */
  lemma ParseIntOfNegative(n: int)
    requires n < 0
    ensures ParseInt(IntToString(n)) == Some(n)
  {
    var digits := NatToString(-n);
    var s := "-" + digits;
    assert s[0] == '-' && s[1..] == digits;
    TrimStartOfNonSpace(s);
    ParseDigitsOfNumeral(-n);
    ParseSignedOfMinus(s, -n);
  }

  lemma ParseSignedOfMinus(t: string, m: int)
    requires t != [] && t[0] == '-' && ParseMagnitude(t[1..]) == Some(m)
    ensures ParseSigned(t) == Some(-m)
  {
  }

  lemma ParseIntOfIntToString(n: int)
    ensures ParseInt(IntToString(n)) == Some(n)
  {
    if n < 0 {
      ParseIntOfNegative(n);
    } else {
      ParseIntOfNumeral(n);
    }
  }

  lemma ParseIntOfNaN()
    ensures ParseInt("NaN") == None
  {
    var s := "NaN";
    assert !IsSpace(s[0]);
    assert TrimStart(s) == s;
    assert DigitValue(s[0]) >= 10;
    assert DigitRun(s, 10) == [];
  }

  /** A number the game prints reads back, through `parseInt`, as the same number (NaN as NaN). */
  lemma ParseIntOfNumberToString(v: Option<int>)
    ensures ParseInt(NumberToString(v)) == v
  {
    match v
    case None =>
      ParseIntOfNaN();
    case Some(n) =>
      ParseIntOfIntToString(n);
  }

  // ---------------------------------------------------------------- toLowerCase

  /** A character lowered as `toLowerCase` lowers the ASCII letters. */
  function LowerChar(c: char): char {
    if 'A' <= c <= 'Z' then (c as int - 'A' as int + 'a' as int) as char else c
  }

  /**
   * `text.toLowerCase()` on its ASCII letters. No other character lowers to
   * one of the letters of "gameend", so comparing the result with "gameend"
   * decides exactly what the full Unicode mapping would decide.
   */
  function ToLowerCase(text: string): (t: string)
    ensures |t| == |text| && forall i :: 0 <= i < |text| ==> t[i] == LowerChar(text[i])
  {
    if text == [] then [] else [LowerChar(text[0])] + ToLowerCase(text[1..])
  }

  // ---------------------------------------------------------------- arrays

  /** `Array.prototype.indexOf`: the first position of x in s, or -1. */
  function IndexOf<T(==)>(s: seq<T>, x: T): (i: int)
    ensures -1 <= i < |s|
    ensures i == -1 <==> x !in s
    ensures 0 <= i ==> s[i] == x && x !in s[..i]
  {
    if s == [] then -1
    else if s[0] == x then 0
    else
      var j := IndexOf(s[1..], x);
      assert s[1..][..j + 1] == s[1..j + 2] by { if j >= 0 { assert s[1..][..j] == s[1..j + 1]; } }
      if j == -1 then -1 else j + 1
  }

  /**
   * `s.splice(start, 1)`, returning what is left: a negative start counts
   * from the end, a start past the end removes nothing.
   */
  function SpliceOne<T>(s: seq<T>, start: int): (t: seq<T>)
    ensures |t| == if s == [] then 0 else |s| - (if start < |s| then 1 else 0)
    ensures forall x :: x in t ==> x in s
  {
    var k := if start < 0 then (if |s| + start < 0 then 0 else |s| + start)
             else if start < |s| then start else |s|;
    if k < |s| then s[..k] + s[k + 1..] else s
  }

  /** No element occurs twice. */
  predicate Distinct<T(==)>(s: seq<T>) {
    forall i, j :: 0 <= i < j < |s| ==> s[i] != s[j]
  }

  /** The elements of s other than x, in their order. */
  function Except<T(==)>(s: seq<T>, x: T): (r: seq<T>)
    ensures forall y :: y in r ==> y in s && y != x
    ensures forall y :: y in s && y != x ==> y in r
  {
    if s == [] then [] else (if s[0] == x then [] else [s[0]]) + Except(s[1..], x)
  }

  /** `const i = s.indexOf(x); if (i !== -1) s.splice(i, 1);` */
  function RemoveFirst<T(==)>(s: seq<T>, x: T): seq<T> {
    var i := IndexOf(s, x);
    if i != -1 then SpliceOne(s, i) else s
  }

  lemma {:induction false} ExceptAbsent<T>(s: seq<T>, x: T)
    requires x !in s
    ensures Except(s, x) == s
  {
    if s != [] {
      ExceptAbsent(s[1..], x);
    }
  }

  /**
   * On a sequence without repetitions, removing x leaves every other element
   * in its order, drops the length by one exactly when x was there, keeps
   * the elements distinct, and a second removal changes nothing.
   */
  lemma {:induction false} RemoveFirstOfDistinct<T>(s: seq<T>, x: T)
    requires Distinct(s)
    ensures RemoveFirst(s, x) == Except(s, x)
    ensures |RemoveFirst(s, x)| == if x in s then |s| - 1 else |s|
    ensures x !in RemoveFirst(s, x) && Distinct(RemoveFirst(s, x))
    ensures RemoveFirst(RemoveFirst(s, x), x) == RemoveFirst(s, x)
  {
    var i := IndexOf(s, x);
    if i == -1 {
      ExceptAbsent(s, x);
    } else {
      var t := s[..i] + s[i + 1..];
      assert RemoveFirst(s, x) == t;
      ExceptAtFirst(s, x, i);
      DistinctWithout(s, i);
    }
  }

  lemma {:induction false} ExceptAtFirst<T>(s: seq<T>, x: T, i: nat)
    requires Distinct(s) && i < |s| && s[i] == x
    ensures Except(s, x) == s[..i] + s[i + 1..]
  {
    assert Distinct(s[1..]) by {
      forall a, b | 0 <= a < b < |s[1..]| ensures s[1..][a] != s[1..][b] {
        assert s[1..][a] == s[a + 1] && s[1..][b] == s[b + 1];
      }
    }
    if i == 0 {
      assert x !in s[1..] by {
        forall k | 0 <= k < |s[1..]| ensures s[1..][k] != x { assert s[1..][k] == s[k + 1]; }
      }
      ExceptAbsent(s[1..], x);
    } else {
      assert s[0] != x;
      ExceptAtFirst(s[1..], x, i - 1);
      assert s[..i] == [s[0]] + s[1..][..i - 1];
      assert s[i + 1..] == s[1..][i..];
    }
  }

  lemma DistinctWithout<T>(s: seq<T>, i: nat)
    requires Distinct(s) && i < |s|
    ensures Distinct(s[..i] + s[i + 1..])
  {
    var t := s[..i] + s[i + 1..];
    forall a, b | 0 <= a < b < |t| ensures t[a] != t[b] {
      var a' := if a < i then a else a + 1;
      var b' := if b < i then b else b + 1;
      assert t[a] == s[a'] && t[b] == s[b'];
    }
  }

  /** `push` of a new element keeps an array free of repeats. */
  lemma DistinctPush<T>(s: seq<T>, x: T)
    requires Distinct(s) && x !in s
    ensures Distinct(s + [x])
  {
    var t := s + [x];
    forall a, b | 0 <= a < b < |t| ensures t[a] != t[b] {
      assert t[a] == s[a];
      if b < |s| {
        assert t[b] == s[b];
      }
    }
  }

  lemma {:induction false} ExceptSplit<T>(a: seq<T>, b: seq<T>, x: T)
    ensures Except(a + b, x) == Except(a, x) + Except(b, x)
  {
    if a != [] {
      assert (a + b)[1..] == a[1..] + b;
      ExceptSplit(a[1..], b, x);
    } else {
      assert a + b == b;
    }
  }
}
