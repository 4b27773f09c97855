/** The slice of JavaScript semantics that the application's decisions rely on:
    optional values, truthiness and `&&`, `String.prototype.trim`,
    `Array.prototype.slice(0, k)` and the decimal rendering of integers used
    in template strings. Numbers are modelled as mathematical integers. */
module JsCore {

  /** `T | null | undefined` collapsed to one optional type. */
  datatype Option<+T> = None | Some(value: T)

  /** The JavaScript values that appear in the guards of the application. */
  datatype Value = Undefined | Null | Bool(b: bool) | Num(n: int) | Str(s: string)

  /** JavaScript's ToBoolean: `undefined`, `null`, `false`, `0` and `""` are falsy. */
  predicate Truthy(v: Value) {
    match v
    case Undefined => false
    case Null => false
    case Bool(b) => b
    case Num(n) => n != 0
    case Str(s) => s != ""
  }

  /** The operator `x && y`: yields `x` when it is falsy, `y` otherwise. */
  function And(x: Value, y: Value): (r: Value)
    ensures Truthy(r) <==> Truthy(x) && Truthy(y)
  {
    if Truthy(x) then y else x
  }

  /** The operator `x || y`: yields `x` when it is truthy, `y` otherwise. */
  function Or(x: Value, y: Value): (r: Value)
    ensures Truthy(x) ==> r == x
    ensures !Truthy(x) ==> r == y
  {
    if Truthy(x) then x else y
  }

  /** An optional string as a JavaScript value (`null` when absent). */
  function OptStr(s: Option<string>): Value {
    match s
    case Some(t) => Str(t)
    case None => Null
  }

  /** An optional number as a JavaScript value (`null` when absent). */
  function OptNum(n: Option<int>): Value {
    match n
    case Some(k) => Num(k)
    case None => Null
  }

  // ---------------------------------------------------------------------------
  // String.prototype.trim

  /** The WhiteSpace and LineTerminator code points that `trim` removes. */
  const WhiteSpace: set<char> := {
    '\t', '\n', '\U{000B}', '\U{000C}', '\r', ' ', '\U{00A0}', '\U{1680}',
    '\U{2000}', '\U{2001}', '\U{2002}', '\U{2003}', '\U{2004}', '\U{2005}',
    '\U{2006}', '\U{2007}', '\U{2008}', '\U{2009}', '\U{200A}', '\U{2028}',
    '\U{2029}', '\U{202F}', '\U{205F}', '\U{3000}', '\U{FEFF}'
  }

  predicate IsWhiteSpace(c: char) {
    c in WhiteSpace
  }

  /** A string made only of white space (possibly empty). */
  predicate IsBlank(s: string) {
    forall i :: 0 <= i < |s| ==> IsWhiteSpace(s[i])
  }

  /** The first position at or after `i` that is not white space (`|s|` when none is). */
  function ContentStart(s: string, i: nat): (k: nat)
    requires i <= |s|
    ensures i <= k <= |s|
    ensures forall j :: i <= j < k ==> IsWhiteSpace(s[j])
    ensures k < |s| ==> !IsWhiteSpace(s[k])
    decreases |s| - i
  {
    if i < |s| && IsWhiteSpace(s[i]) then ContentStart(s, i + 1) else i
  }

  /** The position just after the last character before `j` that is not white space (0 when none is). */
  function ContentEnd(s: string, j: nat): (k: nat)
    requires j <= |s|
    ensures k <= j
    ensures forall i :: k <= i < j ==> IsWhiteSpace(s[i])
    ensures k > 0 ==> !IsWhiteSpace(s[k - 1])
  {
    if j > 0 && IsWhiteSpace(s[j - 1]) then ContentEnd(s, j - 1) else j
  }

  /** Drops leading white space; the result is a suffix of `s`. */
  function TrimStart(s: string): (r: string)
    ensures |r| <= |s| && r == s[|s| - |r|..]
    ensures IsBlank(s[..|s| - |r|])
    ensures r != [] ==> !IsWhiteSpace(r[0])
  {
    s[ContentStart(s, 0)..]
  }

  /** Drops trailing white space; the result is a prefix of `s`. */
  function TrimEnd(s: string): (r: string)
    ensures |r| <= |s| && r == s[..|r|]
    ensures IsBlank(s[|r|..])
    ensures r != [] ==> !IsWhiteSpace(r[|r| - 1])
  {
    s[..ContentEnd(s, |s|)]
  }

  /** `s.trim()`: the part of `s` between its leading and trailing white
      space. It is empty exactly when `s` is blank. */
  function Trim(s: string): (r: string)
    ensures |r| <= |s|
    ensures r == [] <==> IsBlank(s)
    ensures r != [] ==> !IsWhiteSpace(r[0]) && !IsWhiteSpace(r[|r| - 1])
    ensures var a := |s| - |TrimStart(s)|;
      a + |r| <= |s| && r == s[a..a + |r|] && IsBlank(s[..a]) && IsBlank(s[a + |r|..])
  {
    var t := TrimStart(s);
    var r := TrimEnd(t);
    TrimEmptyOnlyWhenBlank(s, t, r);
    TrimSlices(s, t, r);
    r
  }

  /** Where the trimmed text sits inside `s`, given what trimming each end
      guarantees. */
  lemma TrimSlices(s: string, t: string, r: string)
    requires |t| <= |s| && t == s[|s| - |t|..] && (t != [] ==> !IsWhiteSpace(t[0]))
    requires |r| <= |t| && r == t[..|r|] && IsBlank(t[|r|..])
    ensures r != [] ==> !IsWhiteSpace(r[0])
    ensures var a := |s| - |t|; a + |r| <= |s| && r == s[a..a + |r|] && IsBlank(s[a + |r|..])
  {
    var a := |s| - |t|;
    forall k | 0 <= k < |r| ensures r[k] == s[a..a + |r|][k] {
      assert r[k] == t[k] == s[a + k];
    }
    var tail := s[a + |r|..];
    forall k | 0 <= k < |tail| ensures IsWhiteSpace(tail[k]) {
      assert tail[k] == t[|r|..][k];
    }
  }

  /** Trimming leaves nothing exactly when the text is all white space. */
  lemma TrimEmptyOnlyWhenBlank(s: string, t: string, r: string)
    requires |t| <= |s| && t == s[|s| - |t|..] && IsBlank(s[..|s| - |t|]) && (t != [] ==> !IsWhiteSpace(t[0]))
    requires |r| <= |t| && r == t[..|r|] && IsBlank(t[|r|..])
    ensures r == [] <==> IsBlank(s)
  {
    if r == [] {
      // a non-empty t would start with a non-white character that TrimEnd keeps
      assert t == [];
      assert s[..|s|] == s;
    }
  }

  // ---------------------------------------------------------------------------
  // Array.prototype.slice(0, k)

  /** `xs.slice(0, k)`: the first `min(k, |xs|)` elements, in order. */
  function Take<T>(xs: seq<T>, k: nat): (r: seq<T>)
    ensures |r| == if |xs| < k then |xs| else k
    ensures forall i :: 0 <= i < |r| ==> r[i] == xs[i]
  {
    if |xs| <= k then xs else xs[..k]
  }

  // ---------------------------------------------------------------------------
  // Decimal rendering of integers in template strings

  predicate IsDigit(c: char) {
    '0' <= c <= '9'
  }

  function DigitChar(d: nat): (c: char)
    requires d < 10
    ensures IsDigit(c)
    ensures c as int - '0' as int == d
  {
    (d + '0' as int) as char
  }

  /** `String(n)` for a non-negative integer below 1e21: its decimal digits. */
  function NatToString(n: nat): (r: string)
    ensures |r| >= 1
    ensures n >= 10 ==> |r| >= 2
    ensures forall i :: 0 <= i < |r| ==> IsDigit(r[i])
  {
    if n < 10 then [DigitChar(n)] else NatToString(n / 10) + [DigitChar(n % 10)]
  }

  /** `String(i)` for an integer of magnitude below 1e21. */
  function IntToString(i: int): (r: string)
    ensures |r| >= 1
    ensures i < 0 <==> r[0] == '-'
  {
    if i < 0 then "-" + NatToString(-i) else NatToString(i)
  }

  /** Different numbers render differently. */
  lemma {:induction false} NatToStringInjective(a: nat, b: nat)
    ensures NatToString(a) == NatToString(b) ==> a == b
  {
    if NatToString(a) == NatToString(b) {
      var s := NatToString(a);
      if a < 10 || b < 10 {
        assert |s| == 1;
        assert s[0] == DigitChar(a) == DigitChar(b);
      } else {
        assert s[|s| - 1] == DigitChar(a % 10) == DigitChar(b % 10);
        assert s[..|s| - 1] == NatToString(a / 10) == NatToString(b / 10);
        NatToStringInjective(a / 10, b / 10);
      }
    }
  }

  lemma IntToStringInjective(a: int, b: int)
    ensures IntToString(a) == IntToString(b) ==> a == b
  {
    if IntToString(a) == IntToString(b) {
      var s := IntToString(a);
      if a < 0 {
        assert s[1..] == NatToString(-a) == NatToString(-b);
        NatToStringInjective(-a, -b);
      } else {
        NatToStringInjective(a, b);
      }
    }
  }
}
