/** Values and string operations of the JavaScript runtime that the server
    routes and the browser scripts rely on: JSON request values and their
    truthiness, `String.prototype.slice`, `trim`, `toLowerCase`, `parseInt`,
    the decimal rendering of a number, and `obj[key] || fallback` lookups. */
module JsCore {

  datatype Option<+T> = None | Some(value: T)

  /** A failed request answers with an HTTP status and an error message. */
  datatype Result<+T> = Ok(value: T) | Fail(status: int, message: string)

  /** A value that can arrive in a JSON request body. Objects and arrays do
      not occur in the fields modelled here. */
  datatype JsValue = Undefined | Null | Bool(b: bool) | Num(n: real) | Str(s: string)

  /** JavaScript truthiness: `undefined`, `null`, `false`, `0` and `''` are falsy. */
  predicate Truthy(v: JsValue)
  {
    match v
    case Undefined => false
    case Null => false
    case Bool(b) => b
    case Num(n) => n != 0.0
    case Str(s) => s != ""
  }

  predicate IsDigit(c: char) { '0' <= c <= '9' }

  predicate IsHexDigit(c: char)
  {
    IsDigit(c) || 'a' <= c <= 'f' || 'A' <= c <= 'F'
  }

  /** White space and line terminators as `trim` and `parseInt` skip them. */
  predicate IsJsWhitespace(c: char)
  {
    c == '\t' || c == '\n' || c == '\U{000B}' || c == '\U{000C}' || c == '\r' || c == ' '
    || c == '\U{00A0}' || c == '\U{1680}' || '\U{2000}' <= c <= '\U{200A}'
    || c == '\U{2028}' || c == '\U{2029}' || c == '\U{202F}' || c == '\U{205F}'
    || c == '\U{3000}' || c == '\U{FEFF}'
  }

  /** `s.trim() !== ''`: some character of `s` is not white space. */
  predicate NotBlank(s: string)
  {
    exists i :: 0 <= i < |s| && !IsJsWhitespace(s[i])
  }

  /** One character to lower case, when it is an ASCII capital. */
  function LowerChar(c: char): char
  {
    if 'A' <= c <= 'Z' then (c - 'A' + 'a') as char else c
  }

  /** ASCII upper-case letters to lower case, everything else unchanged. */
  function LowerAscii(s: string): (r: string)
    ensures |r| == |s|
  {
    if s == [] then []
    else
      var c := s[0];
      [if 'A' <= c <= 'Z' then (c - 'A' + 'a') as char else c] + LowerAscii(s[1..])
  }

  /** Character by character, `LowerAscii` maps `A`..`Z` to `a`..`z` and
      keeps every other character. */
  lemma {:induction false} LowerAsciiChars(s: string)
    ensures forall i :: 0 <= i < |s| ==>
      LowerAscii(s)[i] == (if 'A' <= s[i] <= 'Z' then (s[i] - 'A' + 'a') as char else s[i])
  {
    if s != [] {
      LowerAsciiChars(s[1..]);
      forall i | 0 < i < |s|
        ensures LowerAscii(s)[i] == LowerAscii(s[1..])[i - 1]
      {
      }
    }
  }

  /** Lower-casing a concatenation lower-cases both parts. */
  lemma {:induction false} LowerAsciiAppend(x: string, y: string)
    ensures LowerAscii(x + y) == LowerAscii(x) + LowerAscii(y)
  {
    if x == [] {
      assert x + y == y;
    } else {
      assert (x + y)[0] == x[0] && (x + y)[1..] == x[1..] + y;
      LowerAsciiAppend(x[1..], y);
    }
  }

  /** Lower-casing commutes with slicing. */
  lemma LowerAsciiSlice(s: string, i: nat, j: nat)
    requires i <= j <= |s|
    ensures LowerAscii(s[i..j]) == LowerAscii(s)[i..j]
  {
    assert s == s[..i] + s[i..j] + s[j..];
    LowerAsciiAppend(s[..i] + s[i..j], s[j..]);
    LowerAsciiAppend(s[..i], s[i..j]);
  }

  /** A character that is no letter stays where it is, and no other
      character is lowered onto it. */
  lemma LowerAsciiKeepsMark(s: string, i: nat, c: char)
    requires i < |s| && !('A' <= c <= 'Z') && !('a' <= c <= 'z')
    ensures LowerAscii(s)[i] == c <==> s[i] == c
  {
    LowerAsciiAt(s, i);
    LowerCharMark(s[i], c);
  }

  lemma LowerCharMark(x: char, c: char)
    requires !('A' <= c <= 'Z') && !('a' <= c <= 'z')
    ensures LowerChar(x) == c <==> x == c
  {
    if 'A' <= x <= 'Z' {
      assert 'a' <= LowerChar(x) <= 'z';
    }
  }

  /** Lower-casing a string with one more character at the end. */
  lemma LowerAsciiSnoc(s: string, x: char)
    ensures LowerAscii(s + [x]) == LowerAscii(s) + [LowerChar(x)]
  {
    LowerAsciiAppend(s, [x]);
    assert [x][1..] == [];
  }

  /** Only ".." lower-cases to "..". */
  lemma LowerAsciiDotDot(s: string)
    ensures LowerAscii(s) == ".." <==> s == ".."
  {
    if |s| == 2 {
      LowerAsciiKeepsMark(s, 0, '.');
      LowerAsciiKeepsMark(s, 1, '.');
      assert s == ".." <==> s[0] == '.' && s[1] == '.';
      assert LowerAscii(s) == ".." <==> LowerAscii(s)[0] == '.' && LowerAscii(s)[1] == '.';
    }
  }

  lemma {:induction false} LowerAsciiAt(s: string, i: nat)
    requires i < |s|
    ensures LowerAscii(s)[i] == LowerChar(s[i])
  {
    if i > 0 {
      LowerAsciiAt(s[1..], i - 1);
    }
  }

  /** `s.includes(sub)`. */
  predicate Contains(s: string, sub: string)
  {
    exists i :: 0 <= i <= |s| - |sub| && OccursAt(s, sub, i)
  }

  predicate OccursAt(s: string, sub: string, i: int)
    requires 0 <= i <= |s| - |sub|
  {
    s[i..i + |sub|] == sub
  }

  /** The index `String.prototype.slice` uses for a (possibly negative) argument. */
  function SliceIndex(len: nat, k: int): (r: nat)
    ensures r <= len
    ensures 0 <= k <= len ==> r == k
  {
    if k < 0 then (if len + k < 0 then 0 else len + k)
    else if k > len then len
    else k
  }

  /** `s.slice(from)`. */
  function SliceFrom(s: string, from: int): (r: string)
    ensures 0 <= from <= |s| ==> r == s[from..]
  {
    s[SliceIndex(|s|, from)..]
  }

  /** `s.slice(0, to)`. */
  function SliceTo(s: string, to: int): (r: string)
    ensures 0 <= to <= |s| ==> r == s[..to]
  {
    s[..SliceIndex(|s|, to)]
  }

  /** `xs.slice(0, n)` on an array: the first `n` elements, or all of them. */
  function Take<T>(xs: seq<T>, n: nat): (r: seq<T>)
    ensures |r| <= n && |r| <= |xs|
    ensures r == xs[..|r|]
    ensures |xs| <= n ==> r == xs
    ensures |xs| > n ==> |r| == n
  {
    if |xs| <= n then xs else xs[..n]
  }

  /** `s.substring(0, n) + (s.length > n ? '...' : '')`: the first `n`
      characters, marked with an ellipsis exactly when something was cut. */
  function Truncated(s: string, n: nat): (r: string)
    ensures |s| <= n ==> r == s
    ensures |s| > n ==> |r| == n + 3 && r[..n] == s[..n] && r[n..] == "..."
  {
    if |s| > n then s[..n] + "..." else s
  }

  /** Truncating a truncated text again changes nothing: the cut text keeps
      its first `n` characters and its ellipsis. */
  lemma TruncatedIdempotent(s: string, n: nat)
    ensures Truncated(Truncated(s, n), n) == Truncated(s, n)
  {
    if |s| > n {
      var r := Truncated(s, n);
      assert r[..n] + "..." == r;
    }
  }

  /** `map[key] || fallback` over a table whose values are strings. */
  function LookupOr(m: map<string, string>, key: string, fallback: string): (r: string)
    ensures key in m && m[key] != "" ==> r == m[key]
    ensures key !in m ==> r == fallback
  {
    if key in m && m[key] != "" then m[key] else fallback
  }

  function DigitChar(d: nat): (c: char)
    requires d < 10
    ensures IsDigit(c)
  {
    ('0' as int + d) as char
  }

  function DigitValue(c: char): (d: nat)
    requires IsHexDigit(c)
    ensures d < 16
    ensures IsDigit(c) ==> d < 10
  {
    if IsDigit(c) then c as int - '0' as int
    else if 'a' <= c <= 'f' then c as int - 'a' as int + 10
    else c as int - 'A' as int + 10
  }

  /** `String(n)` (and `${n}`) for a non-negative integer. */
  function DecimalString(n: nat): (r: string)
    ensures |r| > 0
    ensures forall i :: 0 <= i < |r| ==> IsDigit(r[i])
    ensures r[0] == '0' ==> n == 0 && |r| == 1
  {
    if n < 10 then [DigitChar(n)] else DecimalString(n / 10) + [DigitChar(n % 10)]
  }

  predicate IsRadixDigit(c: char, radix: nat)
  {
    if radix == 16 then IsHexDigit(c) else IsDigit(c)
  }

  /** The length of the longest prefix of `s` made of digits of the radix. */
  function DigitRun(s: string, radix: nat): (k: nat)
    ensures k <= |s|
    ensures forall i :: 0 <= i < k ==> IsRadixDigit(s[i], radix)
    ensures k < |s| ==> !IsRadixDigit(s[k], radix)
  {
    if s == [] || !IsRadixDigit(s[0], radix) then 0 else 1 + DigitRun(s[1..], radix)
  }

  /** The number that a run of digits denotes (most significant first). */
  function DigitsValue(s: string, radix: nat): nat
    requires radix == 10 || radix == 16
    requires forall i :: 0 <= i < |s| ==> IsRadixDigit(s[i], radix)
  {
    if s == [] then 0
    else
      assert IsRadixDigit(s[|s| - 1], radix);
      DigitsValue(s[..|s| - 1], radix) * radix + DigitValue(s[|s| - 1])
  }

  /** `parseInt(s)` without a radix: leading white space is skipped, one sign
      is accepted, a `0x`/`0X` prefix switches to base 16, and the longest run
      of digits is read; `None` stands for `NaN` (no digit at all). */
  function ParseInt(s: string): (r: Option<int>)
    ensures r.Some? ==> exists i :: 0 <= i < |s| && IsHexDigit(s[i])
  {
    if s != [] && IsJsWhitespace(s[0]) then
      var r := ParseInt(s[1..]);
      if r.Some? then
        ghost var i :| 0 <= i < |s[1..]| && IsHexDigit(s[1..][i]);
        assert IsHexDigit(s[i + 1]);
        r
      else r
    else ParseSigned(s)
  }

  /** `parseInt` once the white space is skipped. */
  function ParseSigned(t: string): (r: Option<int>)
    ensures r.Some? ==> exists i :: 0 <= i < |t| && IsHexDigit(t[i])
  {
    var neg := |t| > 0 && t[0] == '-';
    var u := if |t| > 0 && (t[0] == '-' || t[0] == '+') then t[1..] else t;
    var hex := |u| >= 2 && u[0] == '0' && (u[1] == 'x' || u[1] == 'X');
    var radix := if hex then 16 else 10;
    var w := if hex then u[2..] else u;
    var k := DigitRun(w, radix);
    if k == 0 then None
    else
      assert IsHexDigit(w[0]) && w[0] == t[|t| - |w|];
      var v := DigitsValue(w[..k], radix);
      var signed: int := if neg then -(v as int) else v;
      Some(signed)
  }

  lemma {:induction false} DecimalStringValue(n: nat)
    ensures DigitsValue(DecimalString(n), 10) == n
  {
    var r := DecimalString(n);
    if n >= 10 {
      DecimalStringValue(n / 10);
      assert r[..|r| - 1] == DecimalString(n / 10);
    }
  }

  lemma DigitRunAll(s: string, radix: nat)
    requires forall i :: 0 <= i < |s| ==> IsRadixDigit(s[i], radix)
    ensures DigitRun(s, radix) == |s|
  {
  }

  /** `parseInt(String(n)) === n`: a numeric id that the browser puts into a
      URL is read back as the same number by the server. */
  lemma ParseIntDecimalString(n: nat)
    ensures ParseInt(DecimalString(n)) == Some(n)
  {
    var s := DecimalString(n);
    assert !IsJsWhitespace(s[0]);
    DigitRunAll(s, 10);
    assert s[..|s|] == s;
    DecimalStringValue(n);
  }
}
