/** Reading the download name out of a `Content-Disposition` response header
    the way the dashboard does: a leftmost search for the regular expression
    `filename\s*=\s*"?([^";]+)"?` with the `i` flag, whose first capture is
    then trimmed. This is a simplified reading of the `filename` parameter of
    section 4.1 of RFC 6266: there is no `filename*` (section 4.3) and no
    backslash escape. */
module ContentDisposition {
  import opened JsValue
  import opened JsString

  /** The parameter name the regex looks for. The `i` flag without `u`
      never folds a non-ASCII character onto an ASCII letter, so ASCII case
      folding decides the comparison exactly. */
  const Keyword: string := "filename"

  /** The keyword occurs, in any letter case, at index `i`. */
  predicate KeywordAt(s: string, i: nat) {
    i + |Keyword| <= |s| && Lower(s[i..i + |Keyword|]) == Keyword
  }

  /** Characters of the capture class `[^";]`. */
  predicate IsNameChar(c: char) {
    c != '"' && c != ';'
  }

  /** The regex, read as a language: at `i` stand the keyword, spaces up to
      the `=` at `a`, spaces up to `b`, an optional quote, and the non-empty
      capture `s[c..d]` of name characters (the closing `"?` always
      matches). */
  ghost predicate Decomposes(s: string, i: nat, a: nat, b: nat, c: nat, d: nat) {
    && KeywordAt(s, i)
    && i + |Keyword| <= a && a + 1 <= b <= c < d <= |s|
    && AllIn(s, i + |Keyword|, a, IsSpace)
    && s[a] == '='
    && AllIn(s, a + 1, b, IsSpace)
    && (c == b || (c == b + 1 && s[b] == '"'))
    && AllIn(s, c, d, IsNameChar)
  }

  /** Some match of the regex starts at `i`. */
  ghost predicate RegexMatchesAt(s: string, i: nat) {
    exists a: nat, b: nat, c: nat, d: nat :: Decomposes(s, i, a, b, c, d)
  }

  /** The keyword at `i` is followed, after optional spaces, by `=`. */
  ghost predicate AssignsAt(s: string, i: nat) {
    exists a :: KeywordAt(s, i) && i + |Keyword| <= a < |s|
                && AllIn(s, i + |Keyword|, a, IsSpace) && s[a] == '='
  }

  /** The capture of a match attempt starting at `i`, in the order the
      backtracking engine tries the alternatives: greedy spaces after `=`,
      the quote taken when present, then the longest run of name
      characters. When that run is empty the engine gives back one space of
      the run after `=` and captures from there; when there is no such space
      the attempt at `i` fails. */
  function MatchAt(s: string, i: nat): (m: Option<string>)
    ensures m.Some? ==> m.value != "" && forall ch :: ch in m.value ==> IsNameChar(ch)
  {
    if !KeywordAt(s, i) then None
    else
      var eq := Span(s, i + |Keyword|, IsSpace);
      if eq == |s| || s[eq] != '=' then None
      else
        var e := Span(s, eq + 1, IsSpace);
        var p := if e < |s| && s[e] == '"' then e + 1 else e;
        var q := Span(s, p, IsNameChar);
        if p < q then Some(s[p..q])
        else if eq + 1 < e then
          var q' := Span(s, e - 1, IsNameChar);
          Some(s[e - 1..q'])
        else None
  }

  /** Any match at `i` has its `=` where the engine finds it and a space run
      after `=` no longer than the engine's greedy one; a match using that
      whole run exists only when the engine's first try finds name
      characters. */
  lemma MatchBounds(s: string, i: nat, a: nat, b: nat, c: nat, d: nat)
    requires Decomposes(s, i, a, b, c, d)
    ensures a == Span(s, i + |Keyword|, IsSpace)
    ensures b <= Span(s, a + 1, IsSpace)
    ensures b == Span(s, a + 1, IsSpace) ==>
              var p := if b < |s| && s[b] == '"' then b + 1 else b;
              p < Span(s, p, IsNameChar)
  {
    var eq := Span(s, i + |Keyword|, IsSpace);
    assert eq == a;
    var e := Span(s, eq + 1, IsSpace);
    assert b <= e;
    if b == e {
      var p := if b < |s| && s[b] == '"' then b + 1 else b;
      assert c == p;
      assert IsNameChar(s[p]);
    }
  }

  /** No match at `i` has a longer space run after `=` than `b`. */
  ghost predicate LongestSpacesAfterEquals(s: string, i: nat, b: nat) {
    forall a': nat, b': nat, c': nat, d': nat :: Decomposes(s, i, a', b', c', d') ==> b' <= b
  }

  /** Every capture `MatchAt` reports is a match of the regex, and it is the
      one the engine reports: the space run after `=` is as long as any
      match allows, and the capture runs to the end of its name
      characters. Together these fix the capture among all matches at
      `i`. */
  lemma MatchAtSound(s: string, i: nat)
    requires MatchAt(s, i).Some?
    ensures exists a: nat, b: nat, c: nat, d: nat :: Decomposes(s, i, a, b, c, d) && MatchAt(s, i).value == s[c..d]
                                 && (d == |s| || !IsNameChar(s[d]))
                                 && LongestSpacesAfterEquals(s, i, b)
  {
    var a, b, c, d := EngineIndices(s, i);
  }

  /** The indices the engine settles on: the `=`, the end of the spaces
      after it, and the capture. */
  lemma EngineIndices(s: string, i: nat) returns (a: nat, b: nat, c: nat, d: nat)
    requires MatchAt(s, i).Some?
    ensures Decomposes(s, i, a, b, c, d) && MatchAt(s, i).value == s[c..d]
    ensures d == |s| || !IsNameChar(s[d])
    ensures LongestSpacesAfterEquals(s, i, b)
  {
    a := Span(s, i + |Keyword|, IsSpace);
    var e := Span(s, a + 1, IsSpace);
    var p := if e < |s| && s[e] == '"' then e + 1 else e;
    var q := Span(s, p, IsNameChar);
    if p < q {
      b, c, d := e, p, q;
      FirstTryIndices(s, i, a, e, p);
    } else {
      b, c := e - 1, e - 1;
      d := Span(s, e - 1, IsNameChar);
      GiveBackIndices(s, i, a, e, p);
    }
  }

  /** The engine's first try: the whole space run, the quote when present,
      and name characters after them. */
  lemma FirstTryIndices(s: string, i: nat, a: nat, e: nat, p: nat)
    requires KeywordAt(s, i) && a == Span(s, i + |Keyword|, IsSpace) && a < |s| && s[a] == '='
    requires e == Span(s, a + 1, IsSpace) && p == (if e < |s| && s[e] == '"' then e + 1 else e)
    requires p < Span(s, p, IsNameChar)
    ensures Decomposes(s, i, a, e, p, Span(s, p, IsNameChar))
    ensures MatchAt(s, i) == Some(s[p..Span(s, p, IsNameChar)])
    ensures LongestSpacesAfterEquals(s, i, e)
  {
    var q := Span(s, p, IsNameChar);
    assert Decomposes(s, i, a, e, p, q) by {
      assert AllIn(s, i + |Keyword|, a, IsSpace);
      assert AllIn(s, a + 1, e, IsSpace);
      assert AllIn(s, p, q, IsNameChar);
    }
    GreedyBound(s, i, a, e);
  }

  /** The engine's second try, when no name character follows the space
      run: one space given back and captured with what follows it. */
  lemma GiveBackIndices(s: string, i: nat, a: nat, e: nat, p: nat)
    requires KeywordAt(s, i) && a == Span(s, i + |Keyword|, IsSpace) && a < |s| && s[a] == '='
    requires e == Span(s, a + 1, IsSpace) && p == (if e < |s| && s[e] == '"' then e + 1 else e)
    requires Span(s, p, IsNameChar) <= p && a + 1 < e
    ensures Decomposes(s, i, a, e - 1, e - 1, Span(s, e - 1, IsNameChar))
    ensures MatchAt(s, i) == Some(s[e - 1..Span(s, e - 1, IsNameChar)])
    ensures LongestSpacesAfterEquals(s, i, e - 1)
  {
    var d := Span(s, e - 1, IsNameChar);
    assert Decomposes(s, i, a, e - 1, e - 1, d) by {
      assert AllIn(s, i + |Keyword|, a, IsSpace);
      assert IsSpace(s[e - 1]);
      assert AllIn(s, a + 1, e - 1, IsSpace);
      assert AllIn(s, e - 1, d, IsNameChar);
    }
    GreedyBound(s, i, a, e - 1);
  }

  /** The bound on the space run after `=` that `MatchBounds` gives every
      match, for the run end the engine picks. */
  lemma GreedyBound(s: string, i: nat, a: nat, b: nat)
    requires KeywordAt(s, i) && a == Span(s, i + |Keyword|, IsSpace) && a < |s|
    requires var e := Span(s, a + 1, IsSpace);
             var p := if e < |s| && s[e] == '"' then e + 1 else e;
             b == e || (b + 1 == e && Span(s, p, IsNameChar) <= p)
    ensures LongestSpacesAfterEquals(s, i, b)
  {
    forall a': nat, b': nat, c': nat, d': nat | Decomposes(s, i, a', b', c', d') ensures b' <= b {
      MatchBounds(s, i, a', b', c', d');
    }
  }

  /** Two matches at `i` that both take the longest space run after `=`
      and both run to the end of their name characters have the same
      capture: the conditions `MatchAtSound` states single out one match. */
  lemma GreedyCaptureUnique(s: string, i: nat, a: nat, b: nat, c: nat, d: nat, a2: nat, b2: nat, c2: nat, d2: nat)
    requires Decomposes(s, i, a, b, c, d) && LongestSpacesAfterEquals(s, i, b) && (d == |s| || !IsNameChar(s[d]))
    requires Decomposes(s, i, a2, b2, c2, d2) && LongestSpacesAfterEquals(s, i, b2) && (d2 == |s| || !IsNameChar(s[d2]))
    ensures s[c..d] == s[c2..d2]
  {
    assert b2 <= b && b <= b2;
    assert IsNameChar(s[c]) && IsNameChar(s[c2]);
    assert c == c2;
    assert d == Span(s, c, IsNameChar) by { RunEndUnique(s, c, d); }
    assert d2 == Span(s, c, IsNameChar) by { RunEndUnique(s, c, d2); }
  }

  /** A run of name characters from `k` that stops at a non-name character
      or the end is the greedy run. */
  lemma RunEndUnique(s: string, k: nat, e: nat)
    requires k <= e <= |s| && AllIn(s, k, e, IsNameChar) && (e == |s| || !IsNameChar(s[e]))
    ensures e == Span(s, k, IsNameChar)
  {
    var f := Span(s, k, IsNameChar);
    assert e <= f;
    assert f <= e;
  }

  /** Wherever the regex can match, `MatchAt` finds a capture. */
  lemma MatchAtComplete(s: string, i: nat, a: nat, b: nat, c: nat, d: nat)
    requires Decomposes(s, i, a, b, c, d)
    ensures MatchAt(s, i).Some?
  {
    var eq := Span(s, i + |Keyword|, IsSpace);
    assert eq == a;
    var e := Span(s, eq + 1, IsSpace);
    assert b <= e;
  }

  /** The regex matches at `i` exactly when `MatchAt` reports a capture. */
  lemma MatchAtExact(s: string, i: nat)
    ensures MatchAt(s, i).Some? <==> RegexMatchesAt(s, i)
  {
    if MatchAt(s, i).Some? {
      MatchAtSound(s, i);
    }
    if RegexMatchesAt(s, i) {
      var a, b, c, d :| Decomposes(s, i, a, b, c, d);
      MatchAtComplete(s, i, a, b, c, d);
    }
  }

  /** An attempt whose `=` is followed at once by `;` or the end of the
      header fails, so the search moves on to a later keyword. */
  lemma EmptyValueFailsAttempt(s: string, i: nat, a: nat)
    requires KeywordAt(s, i) && i + |Keyword| <= a < |s|
    requires AllIn(s, i + |Keyword|, a, IsSpace) && s[a] == '='
    requires a + 1 == |s| || s[a + 1] == ';'
    ensures MatchAt(s, i).None?
  {
    assert Span(s, i + |Keyword|, IsSpace) == a;
  }

  /** An attempt whose `=` is followed by one space and then `;` or the end
      of the header succeeds by giving that space back: the capture is the
      space, so the name is empty and the search stops there. */
  lemma BlankValueStopsSearch(s: string, i: nat, a: nat)
    requires KeywordAt(s, i) && i + |Keyword| <= a && a + 2 <= |s|
    requires AllIn(s, i + |Keyword|, a, IsSpace) && s[a] == '='
    requires IsSpace(s[a + 1]) && (a + 2 == |s| || s[a + 2] == ';')
    ensures MatchAt(s, i) == Some(s[a + 1..a + 2])
    ensures Trim(s[a + 1..a + 2]) == ""
  {
    assert Span(s, i + |Keyword|, IsSpace) == a;
    assert Span(s, a + 1, IsSpace) == a + 2;
    assert Span(s, a + 1, IsNameChar) == a + 2;
    assert s[a + 1..a + 2][0] == s[a + 1];
  }

  /** The leftmost position, from `i` on, where a match attempt succeeds. */
  function FirstMatch(s: string, i: nat): (r: Option<nat>)
    ensures r.Some? ==> i <= r.value && MatchAt(s, r.value).Some?
    ensures forall j :: i <= j && (r.None? || j < r.value) ==> MatchAt(s, j).None?
    decreases |s| + 1 - i
  {
    if i > |s| then None
    else if MatchAt(s, i).Some? then Some(i)
    else FirstMatch(s, i + 1)
  }

  /** `parseFilenameFromContentDisposition`: the trimmed first capture of
      the leftmost match, or the empty string for an absent or empty header
      and for a header with no match. */
  function ParseFilename(header: Option<string>): (name: string)
    ensures !Truthy(header) ==> name == ""
    ensures forall ch :: ch in name ==> IsNameChar(ch)
    ensures name == "" || (!IsSpace(name[0]) && !IsSpace(name[|name| - 1]))
  {
    var raw := OrElse(header, "");
    if raw == "" then ""
    else
      match FirstMatch(raw, 0)
      case None => ""
      case Some(i) => Trim(MatchAt(raw, i).value)
  }

  /** When several matches exist the leftmost one supplies the name. */
  lemma LeftmostMatchNamesFile(raw: string, i: nat)
    requires raw != ""
    requires RegexMatchesAt(raw, i)
    requires forall j: nat :: j < i ==> !RegexMatchesAt(raw, j)
    ensures MatchAt(raw, i).Some?
    ensures ParseFilename(Some(raw)) == Trim(MatchAt(raw, i).value)
  {
    MatchAtExact(raw, i);
    var r := FirstMatch(raw, 0);
    assert r.Some?;
    MatchAtExact(raw, r.value);
    assert r.value == i;
  }

  /** A non-empty name needs the keyword followed by optional spaces and
      `=` somewhere in the header; without one the name is empty. */
  lemma NameNeedsAssignment(raw: string)
    ensures ParseFilename(Some(raw)) != "" ==> exists i: nat :: AssignsAt(raw, i)
  {
    if raw != "" {
      var r := FirstMatch(raw, 0);
      if r.Some? {
        MatchAtSound(raw, r.value);
        var a: nat, b: nat, c: nat, d: nat :| Decomposes(raw, r.value, a, b, c, d);
        assert AssignsAt(raw, r.value);
      }
    }
  }

  /** A header the regex matches nowhere names no file. */
  lemma NoMatchNoName(raw: string)
    ensures (forall j: nat :: !RegexMatchesAt(raw, j)) ==> ParseFilename(Some(raw)) == ""
  {
    if raw != "" {
      var r := FirstMatch(raw, 0);
      if r.Some? {
        MatchAtExact(raw, r.value);
        assert RegexMatchesAt(raw, r.value);
      }
    }
  }
}
