/** The few ECMAScript string operations the components use, over strings as
    sequences of Unicode scalar values. */
module JsString {

  /** The characters `String.prototype.trim` removes and the regular
      expression class `\s` matches: the ECMAScript WhiteSpace and
      LineTerminator productions. */
  predicate IsSpace(c: char) {
    || c == '\t' || c == '\n' || c == '\U{000B}' || c == '\U{000C}' || c == '\r'
    || c == ' ' || c == '\U{00A0}' || c == '\U{1680}'
    || ('\U{2000}' <= c <= '\U{200A}')
    || c == '\U{2028}' || c == '\U{2029}' || c == '\U{202F}' || c == '\U{205F}'
    || c == '\U{3000}' || c == '\U{FEFF}'
  }

  /** Every character of `s[lo..hi]` satisfies `p`. */
  predicate AllIn(s: string, lo: nat, hi: nat, p: char -> bool)
    requires lo <= hi <= |s|
  {
    forall j :: lo <= j < hi ==> p(s[j])
  }

  /** End of the longest run of characters satisfying `p` that starts at
      `k` (what a greedy `p*` consumes from there). */
  function Span(s: string, k: nat, p: char -> bool): (e: nat)
    requires k <= |s|
    ensures k <= e <= |s|
    ensures forall j :: k <= j < e ==> p(s[j])
    ensures e == |s| || !p(s[e])
    decreases |s| - k
  {
    if k == |s| || !p(s[k]) then k else Span(s, k + 1, p)
  }

  /** Start of the longest run of characters satisfying `p` that ends at `k`. */
  function SpanBack(s: string, k: nat, p: char -> bool): (b: nat)
    requires k <= |s|
    ensures b <= k
    ensures forall j :: b <= j < k ==> p(s[j])
    ensures b == 0 || !p(s[b - 1])
  {
    if k == 0 || !p(s[k - 1]) then k else SpanBack(s, k - 1, p)
  }

  /** `String.prototype.trim`: the result is the slice of `s` left after
      dropping the leading and the trailing whitespace. */
  function Trim(s: string): (r: string)
    ensures |r| <= |s|
    ensures r == "" || (!IsSpace(r[0]) && !IsSpace(r[|r| - 1]))
    ensures forall c :: c in r ==> c in s
    ensures r == "" <==> forall j :: 0 <= j < |s| ==> IsSpace(s[j])
    ensures exists a: nat :: OccursAt(s, r, a) && AllIn(s, 0, a, IsSpace) && AllIn(s, a + |r|, |s|, IsSpace)
  {
    var a := Span(s, 0, IsSpace);
    var b := SpanBack(s[a..], |s| - a, IsSpace);
    TrimSlice(s, a, b);
    assert OccursAt(s, s[a..a + b], a);
    s[a..a + b]
  }

  /** The facts `Trim` promises, for the slice between the end of the
      leading run of spaces and the start of the trailing one. */
  lemma TrimSlice(s: string, a: nat, b: nat)
    requires a == Span(s, 0, IsSpace)
    requires b == SpanBack(s[a..], |s| - a, IsSpace)
    ensures a + b <= |s|
    ensures b == 0 || (!IsSpace(s[a]) && !IsSpace(s[a + b - 1]))
    ensures forall c :: c in s[a..a + b] ==> c in s
    ensures b == 0 <==> forall j :: 0 <= j < |s| ==> IsSpace(s[j])
    ensures AllIn(s, 0, a, IsSpace) && AllIn(s, a + b, |s|, IsSpace)
  {
    var t := s[a..];
    if b > 0 {
      assert t[b - 1] == s[a + b - 1];
    }
    forall j | a + b <= j < |s| ensures IsSpace(s[j]) {
      assert t[j - a] == s[j];
    }
  }

  /** A string that neither starts nor ends with whitespace is its own
      trim. */
  lemma TrimUnchanged(s: string)
    requires s == "" || (!IsSpace(s[0]) && !IsSpace(s[|s| - 1]))
    ensures Trim(s) == s
  {
    if s != "" {
      assert Span(s, 0, IsSpace) == 0;
      assert s[0..] == s;
      assert SpanBack(s, |s|, IsSpace) == |s|;
    }
  }

  /** ASCII case folding of one character, the only folding the model uses. */
  function LowerChar(c: char): (d: char)
    ensures !('A' <= d <= 'Z')
    ensures 'A' <= c <= 'Z' ==> d as int == c as int + 32
    ensures !('A' <= c <= 'Z') ==> d == c
  {
    if 'A' <= c <= 'Z' then (c as int + 32) as char else c
  }

  /** `toLowerCase`, restricted to ASCII letters. */
  function Lower(s: string): (r: string)
    ensures |r| == |s|
    ensures forall j :: 0 <= j < |s| ==> r[j] == LowerChar(s[j])
  {
    seq(|s|, j requires 0 <= j < |s| => LowerChar(s[j]))
  }

  /** Lower-casing a string without ASCII capitals changes nothing. */
  lemma LowerKeepsLowerCase(s: string)
    requires forall j :: 0 <= j < |s| ==> !('A' <= s[j] <= 'Z')
    ensures Lower(s) == s
  {
  }

  /** `s.startsWith(p)`. */
  predicate StartsWith(s: string, p: string) {
    |p| <= |s| && s[..|p|] == p
  }

  /** `t` occurs in `s` starting at index `k`. */
  predicate OccursAt(s: string, t: string, k: nat) {
    k + |t| <= |s| && s[k..k + |t|] == t
  }

  /** `s.includes(t)`. */
  predicate Includes(s: string, t: string) {
    exists k | 0 <= k <= |s| :: OccursAt(s, t, k)
  }

  /** `s` cannot include `t` when some character of `t` never occurs in `s`. */
  lemma AbsentCharNotIncluded(s: string, t: string, i: nat)
    requires i < |t| && t[i] !in s
    ensures !Includes(s, t)
  {
    forall k | 0 <= k <= |s| ensures !OccursAt(s, t, k) {
      if k + |t| <= |s| {
        assert s[k..k + |t|][i] == s[k + i];
      }
    }
  }

  /** `s.endsWith(c)` for a one-character suffix. */
  predicate EndsWithChar(s: string, c: char) {
    |s| > 0 && s[|s| - 1] == c
  }

  /** `s.length`: JavaScript counts UTF-16 code units, so a character outside
      the Basic Multilingual Plane counts twice. */
  function Utf16Length(s: string): (n: nat)
    ensures |s| <= n <= 2 * |s|
    ensures (forall j :: 0 <= j < |s| ==> s[j] as int < 0x1_0000) ==> n == |s|
    ensures |s| == 1 ==> n == CodeUnits(s[0])
  {
    if s == "" then 0
    else CodeUnits(s[0]) + Utf16Length(s[1..])
  }

  /** The UTF-16 code units of one character: a surrogate pair outside the
      Basic Multilingual Plane, one unit inside it. */
  function CodeUnits(c: char): nat {
    if c as int >= 0x1_0000 then 2 else 1
  }

  /** `length` adds up over concatenation, so with the one-character values
      above it is fixed on every string. */
  lemma {:induction false} Utf16LengthAppend(a: string, b: string)
    ensures Utf16Length(a + b) == Utf16Length(a) + Utf16Length(b)
    decreases |a|
  {
    if a == "" {
      assert a + b == b;
    } else {
      assert (a + b)[0] == a[0];
      assert (a + b)[1..] == a[1..] + b;
      Utf16LengthAppend(a[1..], b);
    }
  }
}
