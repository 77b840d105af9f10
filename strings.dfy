/// JavaScript string primitives the application relies on, over `string`
/// (a sequence of Unicode scalar values): `includes`, ASCII case folding,
/// the whitespace class shared by `trim()` and `\s`, `.length` in UTF-16
/// code units, `Array.prototype.join`, decimal rendering of integers,
/// `split(c)[0]`, `substring(0, n)` and the `<` order on strings.
module JsString {

  /** `t` is a prefix of `s`. */
  predicate IsPrefix(t: string, s: string) {
    |t| <= |s| && s[..|t|] == t
  }

  /** `t` occurs in `s` starting at offset `i`. */
  predicate OccursAt(s: string, t: string, i: int) {
    0 <= i && i + |t| <= |s| && s[i..i + |t|] == t
  }

  /** `s.includes(t)`. */
  predicate Contains(s: string, t: string)
    decreases |s|
  {
    IsPrefix(t, s) || (|s| > 0 && Contains(s[1..], t))
  }

  lemma {:induction false} OccursAtContains(s: string, t: string, i: int)
    requires OccursAt(s, t, i)
    ensures Contains(s, t)
    decreases i
  {
    if i == 0 {
      assert s[..|t|] == t;
    } else {
      assert s[1..][i - 1..i - 1 + |t|] == s[i..i + |t|];
      OccursAtContains(s[1..], t, i - 1);
    }
  }

  /** A witness offset for `Contains`. */
  lemma {:induction false} ContainsOffset(s: string, t: string) returns (i: nat)
    requires Contains(s, t)
    ensures OccursAt(s, t, i)
    decreases |s|
  {
    if IsPrefix(t, s) {
      i := 0;
    } else {
      var j := ContainsOffset(s[1..], t);
      assert s[1..][j..j + |t|] == s[j + 1..j + 1 + |t|];
      i := j + 1;
    }
  }

  /** `includes` is exactly "occurs somewhere". */
  lemma ContainsIffOccurs(s: string, t: string)
    ensures Contains(s, t) <==> exists i :: OccursAt(s, t, i)
  {
    if Contains(s, t) {
      var i := ContainsOffset(s, t);
    }
    if exists i :: OccursAt(s, t, i) {
      var i :| OccursAt(s, t, i);
      OccursAtContains(s, t, i);
    }
  }

  /** Text added before or after never removes an occurrence. */
  lemma ContainsExtend(a: string, s: string, b: string, t: string)
    requires Contains(s, t)
    ensures Contains(a + s + b, t)
  {
    var i := ContainsOffset(s, t);
    assert (a + s + b)[|a| + i..|a| + i + |t|] == s[i..i + |t|];
    OccursAtContains(a + s + b, t, |a| + i);
  }

  /** An occurrence of `u` carries every substring of `u` with it. */
  lemma ContainsTransitive(s: string, u: string, t: string)
    requires Contains(s, u) && Contains(u, t)
    ensures Contains(s, t)
  {
    var i := ContainsOffset(s, u);
    var j := ContainsOffset(u, t);
    assert s[i..i + |u|] == u;
    forall k | 0 <= k < |t|
      ensures s[i + j + k] == t[k]
    {
      assert s[i + j + k] == s[i..i + |u|][j + k];
      assert u[j + k] == u[j..j + |t|][k];
    }
    assert s[i + j..i + j + |t|] == t;
    OccursAtContains(s, t, i + j);
  }

  /** Text contains whatever is written in its middle. */
  lemma ContainsMiddle(a: string, t: string, b: string)
    ensures Contains(a + t + b, t)
  {
    assert (a + t + b)[|a|..|a| + |t|] == t;
    OccursAtContains(a + t + b, t, |a|);
  }

  /** Text contains each of three pieces written in it. */
  lemma ContainsThree(a: string, t1: string, b: string, t2: string, c: string, t3: string, d: string)
    ensures var s := a + t1 + b + t2 + c + t3 + d;
            Contains(s, t1) && Contains(s, t2) && Contains(s, t3)
  {
    var s := a + t1 + b + t2 + c + t3 + d;
    ContainsMiddle(a, t1, b + t2 + c + t3 + d);
    assert s == a + t1 + (b + t2 + c + t3 + d);
    ContainsMiddle(a + t1 + b, t2, c + t3 + d);
    assert s == (a + t1 + b) + t2 + (c + t3 + d);
    ContainsMiddle(a + t1 + b + t2 + c, t3, d);
  }

  /** Whatever contains `u` contains each piece of `u`. */
  lemma ContainsPiece(s: string, u: string, t: string, i: int)
    requires Contains(s, u) && OccursAt(u, t, i)
    ensures Contains(s, t)
  {
    OccursAtContains(u, t, i);
    ContainsTransitive(s, u, t);
  }

  /** `String.prototype.toLowerCase` restricted to ASCII letters. */
  function LowerChar(c: char): (r: char)
    ensures 'A' <= c <= 'Z' ==> 'a' <= r <= 'z'
    ensures !('A' <= c <= 'Z') ==> r == c
  {
    if 'A' <= c <= 'Z' then (c as int + 32) as char else c
  }

  function Lower(s: string): (r: string)
    ensures |r| == |s|
    ensures forall i :: 0 <= i < |s| ==> r[i] == LowerChar(s[i])
  {
    seq(|s|, i requires 0 <= i < |s| => LowerChar(s[i]))
  }

  lemma LowerAppend(a: string, b: string)
    ensures Lower(a + b) == Lower(a) + Lower(b)
  {
  }

  /** The characters JavaScript's `trim()` removes and `\s` matches:
      WhiteSpace and LineTerminator of ECMAScript. */
  predicate IsSpace(c: char) {
    c in {'\t', '\n', '\U{000B}', '\U{000C}', '\r', ' ', '\U{00A0}', '\U{1680}',
          '\U{2028}', '\U{2029}', '\U{202F}', '\U{205F}', '\U{3000}', '\U{FEFF}'}
    || '\U{2000}' <= c <= '\U{200A}'
  }

  /** `s.trim() === ''`. */
  predicate IsBlank(s: string) {
    forall i :: 0 <= i < |s| ==> IsSpace(s[i])
  }

  /** The number of leading whitespace characters. */
  function LeadingSpaces(s: string): (n: nat)
    ensures n <= |s|
    ensures forall i :: 0 <= i < n ==> IsSpace(s[i])
    ensures n < |s| ==> !IsSpace(s[n])
    decreases |s|
  {
    if |s| == 0 || !IsSpace(s[0]) then 0 else 1 + LeadingSpaces(s[1..])
  }

  /** The number of trailing whitespace characters. */
  function TrailingSpaces(s: string): (n: nat)
    ensures n <= |s|
    ensures forall i :: |s| - n <= i < |s| ==> IsSpace(s[i])
    ensures n < |s| ==> !IsSpace(s[|s| - 1 - n])
    decreases |s|
  {
    if |s| == 0 || !IsSpace(s[|s| - 1]) then 0 else 1 + TrailingSpaces(s[..|s| - 1])
  }

  /** `s.trim()`: the longest slice that neither starts nor ends with
      whitespace; empty exactly when `s` is blank. */
  function Trim(s: string): (r: string)
    ensures exists a :: OccursAt(s, r, a)
    ensures |r| > 0 ==> !IsSpace(r[0]) && !IsSpace(r[|r| - 1])
    ensures r == "" <==> IsBlank(s)
  {
    var a := LeadingSpaces(s);
    if a == |s| then
      assert OccursAt(s, "", 0);
      ""
    else
      var t := s[a..];
      var b := TrailingSpaces(t);
      assert t[0] == s[a];
      var r := t[..|t| - b];
      assert OccursAt(s, r, a);
      assert !IsBlank(s) by {
        assert !IsSpace(s[a]);
      }
      r
  }

  /** Trimming twice is trimming once. */
  lemma TrimIdempotent(s: string)
    ensures Trim(Trim(s)) == Trim(s)
  {
    var r := Trim(s);
    if |r| > 0 {
      assert LeadingSpaces(r) == 0;
      assert TrailingSpaces(r) == 0;
      assert r[0..] == r;
    }
  }

  /** `s.length`: UTF-16 code units, two for a character outside the BMP. */
  function JsLength(s: string): (n: nat)
    ensures |s| <= n <= 2 * |s|
  {
    if |s| == 0 then 0 else (if s[0] as int > 0xFFFF then 2 else 1) + JsLength(s[1..])
  }

  predicate IsBmp(s: string) {
    forall i :: 0 <= i < |s| ==> s[i] as int <= 0xFFFF
  }

  lemma {:induction false} JsLengthBmp(s: string)
    requires IsBmp(s)
    ensures JsLength(s) == |s|
  {
    if |s| > 0 {
      JsLengthBmp(s[1..]);
    }
  }

  /** `parts.join(sep)`. */
  function Join(parts: seq<string>, sep: string): string
    decreases |parts|
  {
    if |parts| == 0 then ""
    else if |parts| == 1 then parts[0]
    else parts[0] + sep + Join(parts[1..], sep)
  }

  function DigitChar(d: nat): (c: char)
    requires d < 10
    ensures '0' <= c <= '9'
  {
    ('0' as int + d) as char
  }

  /** Decimal rendering of a non-negative integer, as `${n}` gives. */
  function NatToString(n: nat): (r: string)
    ensures |r| > 0
    ensures forall i :: 0 <= i < |r| ==> '0' <= r[i] <= '9'
    decreases n
  {
    if n < 10 then [DigitChar(n)] else NatToString(n / 10) + [DigitChar(n % 10)]
  }

  /** `${n}` for any integer. */
  function IntToString(n: int): string {
    if n < 0 then "-" + NatToString(-n) else NatToString(n)
  }

  /** The value of a string of decimal digits. */
  function DigitsValue(s: string): nat
    requires forall i :: 0 <= i < |s| ==> '0' <= s[i] <= '9'
    decreases |s|
  {
    if |s| == 0 then 0 else 10 * DigitsValue(s[..|s| - 1]) + (s[|s| - 1] as int - '0' as int)
  }

  /** Decimal rendering loses nothing: reading the digits back gives `n`. */
  lemma {:induction false} NatToStringRoundTrip(n: nat)
    ensures DigitsValue(NatToString(n)) == n
    decreases n
  {
    if n >= 10 {
      var r := NatToString(n);
      assert r[..|r| - 1] == NatToString(n / 10);
      NatToStringRoundTrip(n / 10);
    }
  }

  /** A rendering starts with `-` exactly for a negative number. */
  lemma SignFirst(n: int)
    ensures |IntToString(n)| > 0
    ensures IntToString(n)[0] == '-' <==> n < 0
  {
    if n >= 0 {
      assert '0' <= NatToString(n)[0] <= '9';
    }
  }

  lemma NatToStringInjective(a: nat, b: nat)
    requires NatToString(a) == NatToString(b)
    ensures a == b
  {
    NatToStringRoundTrip(a);
    NatToStringRoundTrip(b);
  }

  /** Distinct integers render differently. */
  lemma IntToStringInjective(m: int, n: int)
    requires IntToString(m) == IntToString(n)
    ensures m == n
  {
    SignFirst(m);
    SignFirst(n);
    if m < 0 && n < 0 {
      var s := IntToString(m);
      assert s[1..] == NatToString(-m);
      assert s[1..] == NatToString(-n);
      NatToStringInjective(-m, -n);
    } else if m >= 0 && n >= 0 {
      NatToStringInjective(m, n);
    }
  }

  /** `s.split(c)[0]`: everything before the first `c`, or all of `s`. */
  function BeforeFirst(s: string, c: char): (r: string)
    ensures IsPrefix(r, s)
    ensures c !in r
    ensures |r| < |s| ==> s[|r|] == c
    decreases |s|
  {
    if |s| == 0 || s[0] == c then "" else [s[0]] + BeforeFirst(s[1..], c)
  }

  /** `s.split(c)[1]`: the text after the first `c` up to the next, or
      `""` when there is no `c` (where JavaScript gives `undefined`). */
  function SecondField(s: string, c: char): (r: string)
    ensures c !in r
  {
    var a := BeforeFirst(s, c);
    if |a| < |s| then BeforeFirst(s[|a| + 1..], c) else ""
  }

  /** Splitting `a + c + b` on `c` recovers `a`, and `b` when neither
      contains `c`. */
  lemma SplitJoined(a: string, b: string, c: char)
    requires c !in a
    requires c !in b
    ensures BeforeFirst(a + [c] + b, c) == a
    ensures SecondField(a + [c] + b, c) == b
  {
    var s := a + [c] + b;
    assert s == a + ([c] + b);
    BeforeFirstPrefix(a, [c] + b, c);
    assert s[|a| + 1..] == b;
    BeforeFirstPrefix(b, [], c);
    assert b + [] == b;
  }

  /** Text joined around a separator the left part lacks splits back
      uniquely. */
  lemma SplitUnique(a: string, x: string, b: string, y: string, c: char)
    requires c !in a && c !in b && a + [c] + x == b + [c] + y
    ensures a == b && x == y
  {
    var s := a + [c] + x;
    assert s == a + ([c] + x);
    BeforeFirstPrefix(a, [c] + x, c);
    assert s == b + ([c] + y);
    BeforeFirstPrefix(b, [c] + y, c);
    assert x == s[|a| + 1..];
    assert y == s[|b| + 1..];
  }

  lemma {:induction false} BeforeFirstPrefix(a: string, t: string, c: char)
    requires c !in a
    requires |t| == 0 || t[0] == c
    ensures BeforeFirst(a + t, c) == a
    decreases |a|
  {
    if |a| > 0 {
      assert (a + t)[1..] == a[1..] + t;
      BeforeFirstPrefix(a[1..], t, c);
    }
  }

  /** `s.substring(0, n)` for `n >= 0`. */
  function Take(s: string, n: nat): (r: string)
  {
    if n <= |s| then s[..n] else s
  }

  /** JavaScript's `a < b` on strings: lexicographic by character. */
  predicate Less(a: string, b: string)
    decreases |a|
  {
    if |a| == 0 then |b| > 0
    else if |b| == 0 then false
    else if a[0] != b[0] then a[0] < b[0]
    else Less(a[1..], b[1..])
  }

  lemma {:induction false} LessIrreflexive(a: string)
    ensures !Less(a, a)
    decreases |a|
  {
    if |a| > 0 {
      LessIrreflexive(a[1..]);
    }
  }

  lemma {:induction false} LessTransitive(a: string, b: string, c: string)
    requires Less(a, b) && Less(b, c)
    ensures Less(a, c)
    decreases |a|
  {
    if |a| > 0 && |b| > 0 && |c| > 0 && a[0] == b[0] && b[0] == c[0] {
      LessTransitive(a[1..], b[1..], c[1..]);
    }
  }

  lemma {:induction false} LessTotal(a: string, b: string)
    requires a != b
    ensures Less(a, b) || Less(b, a)
    decreases |a|
  {
    if |a| > 0 && |b| > 0 && a[0] == b[0] {
      assert a == [a[0]] + a[1..] && b == [b[0]] + b[1..];
      LessTotal(a[1..], b[1..]);
    }
  }
}
