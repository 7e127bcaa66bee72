/** The Authorization header of section 2.1 of RFC 6750, as the middleware reads it. */
module Bearer {
  import opened Domain
  import opened Text

  function WordLength(s: string): (n: nat)
    ensures n <= |s| && Word(s[..n]) && (n < |s| ==> IsSpace(s[n]))
  {
    if s == "" || IsSpace(s[0]) then 0
    else
      var n := WordLength(s[1..]);
      assert s[..n + 1] == [s[0]] + s[1..][..n];
      n + 1
  }

  /** The words between runs of white space. */
  function Fields(s: string): seq<string> {
    if s == "" then []
    else if IsSpace(s[0]) then Fields(s[1..])
    else
      var n := WordLength(s);
      [s[..n]] + Fields(s[n..])
  }

  /** No letter outside ASCII folds to a letter of "bearer". */
  function ParseBearerToken(authorization: string): Outcome<string> {
    var parts := Fields(TrimSpace(authorization));
    if |parts| != 2 || ToLowerAscii(parts[0]) != "bearer" then Err(Unauthorized)
    else
      var token := TrimSpace(parts[1]);
      if token == "" then Err(Unauthorized) else Ok(token)
  }

  // ---- the grammar ----

  predicate Spaces(s: string) {
    forall i :: 0 <= i < |s| ==> IsSpace(s[i])
  }

  predicate Word(s: string) {
    forall i :: 0 <= i < |s| ==> !IsSpace(s[i])
  }

  /** Optional space, the scheme in any case, space, one token, optional space. */
  ghost predicate Credentials(s: string, token: string) {
    token != "" && Word(token) &&
    exists lead, scheme, gap, trail ::
      && s == lead + scheme + gap + token + trail
      && Spaces(lead) && Spaces(gap) && gap != "" && Spaces(trail)
      && ToLowerAscii(scheme) == "bearer"
  }

  lemma SchemeIsWord(scheme: string)
    requires ToLowerAscii(scheme) == "bearer"
    ensures scheme != "" && Word(scheme)
  {
    forall i | 0 <= i < |scheme| ensures !IsSpace(scheme[i]) {
      assert ToLowerAscii(scheme)[i] == LowerAscii(scheme[i]);
      assert !IsSpace(ToLowerAscii(scheme)[i]);
    }
  }

  lemma {:induction false} LeadingSpaces(a: string, s: string)
    requires Spaces(a)
    ensures Fields(a + s) == Fields(s)
  {
    if a == "" {
      assert a + s == s;
    } else {
      LeadingSpaces(a[1..], s);
      assert (a + s)[1..] == a[1..] + s;
    }
  }

  lemma {:induction false} WordThenSpace(w: string, s: string)
    requires Word(w) && (s != "" ==> IsSpace(s[0]))
    ensures WordLength(w + s) == |w|
  {
    if w == "" {
      assert w + s == s;
    } else {
      WordThenSpace(w[1..], s);
      assert (w + s)[1..] == w[1..] + s;
    }
  }

  lemma FirstWord(w: string, s: string)
    requires w != "" && Word(w) && (s != "" ==> IsSpace(s[0]))
    ensures Fields(w + s) == [w] + Fields(s)
  {
    WordThenSpace(w, s);
    assert (w + s)[..|w|] == w && (w + s)[|w|..] == s;
  }

  lemma {:induction false} TrailingSpace(s: string, c: char)
    requires IsSpace(c)
    ensures Fields(s + [c]) == Fields(s)
    decreases |s|
  {
    if s == "" {
      assert s + [c] == [c];
    } else if IsSpace(s[0]) {
      TrailingSpace(s[1..], c);
      assert (s + [c])[1..] == s[1..] + [c];
    } else {
      var n := WordLength(s);
      assert s == s[..n] + s[n..] && s + [c] == s[..n] + (s[n..] + [c]);
      FirstWord(s[..n], s[n..]);
      FirstWord(s[..n], s[n..] + [c]);
      TrailingSpace(s[n..], c);
    }
  }

  lemma {:induction false} TrimRightKeepsFields(s: string)
    ensures Fields(TrimRight(s)) == Fields(s)
    ensures TrimRight(s) <= s && Spaces(s[|TrimRight(s)|..])
  {
    if s != "" && IsSpace(s[|s| - 1]) {
      var t := s[..|s| - 1];
      TrimRightKeepsFields(t);
      TrailingSpace(t, s[|s| - 1]);
      assert s == t + [s[|s| - 1]];
    }
  }

  lemma {:induction false} TrimLeftKeepsFields(s: string)
    ensures Fields(TrimLeft(s)) == Fields(s)
  {
    if s != "" && IsSpace(s[0]) {
      TrimLeftKeepsFields(s[1..]);
    }
  }

  /** The text is white space around and between its words. */
  lemma {:induction false} FieldsSplit(s: string) returns (lead: string, rest: string)
    ensures Fields(s) == [] ==> s == lead && rest == ""
    ensures Spaces(lead)
    ensures Fields(s) != [] ==>
              && s == lead + Fields(s)[0] + rest && Fields(s)[0] != "" && Word(Fields(s)[0])
              && Fields(rest) == Fields(s)[1..] && (rest != "" ==> IsSpace(rest[0]))
  {
    if s == "" {
      lead, rest := "", "";
    } else if IsSpace(s[0]) {
      var more;
      more, rest := FieldsSplit(s[1..]);
      hide WordLength, Word, Spaces;
      lead := [s[0]] + more;
      OneMoreSpace(s[0], more);
      assert Fields(s) == Fields(s[1..]);
      assert s == [s[0]] + s[1..];
      if Fields(s) != [] {
        assert s == lead + Fields(s)[0] + rest;
      }
    } else {
      var n := WordLength(s);
      lead, rest := "", s[n..];
      assert Fields(s) == [s[..n]] + Fields(s[n..]);
      assert s == lead + s[..n] + rest;
    }
  }

  lemma OneMoreSpace(c: char, s: string)
    requires IsSpace(c) && Spaces(s)
    ensures Spaces([c] + s)
  {
  }

  lemma TokenIsTrimmed(w: string)
    requires Word(w)
    ensures TrimSpace(w) == w
  {
  }

  lemma TwoWords(lead: string, scheme: string, gap: string, token: string, trail: string)
    requires Spaces(lead) && Spaces(gap) && gap != "" && Spaces(trail)
    requires Word(scheme) && scheme != "" && Word(token) && token != ""
    ensures Fields(lead + (scheme + (gap + (token + trail)))) == [scheme, token]
  {
    hide Fields;
    LeadingSpaces(lead, scheme + (gap + (token + trail)));
    FirstWord(scheme, gap + (token + trail));
    LeadingSpaces(gap, token + trail);
    FirstWord(token, trail);
    NoWords(trail);
  }

  lemma NoWords(trail: string)
    requires Spaces(trail)
    ensures Fields(trail) == []
  {
    LeadingSpaces(trail, "");
    assert trail + "" == trail;
  }

  lemma AcceptsCredentials(s: string, token: string)
    requires Credentials(s, token)
    ensures ParseBearerToken(s) == Ok(token)
  {
    hide Fields, TrimRight, TrimLeft, Spaces, ToLowerAscii, Word;
    var lead, scheme, gap, trail :|
      && s == lead + scheme + gap + token + trail
      && Spaces(lead) && Spaces(gap) && gap != "" && Spaces(trail)
      && ToLowerAscii(scheme) == "bearer";
    TrimLeftKeepsFields(s);
    TrimRightKeepsFields(TrimLeft(s));
    SchemeIsWord(scheme);
    assert s == lead + (scheme + (gap + (token + trail)));
    TwoWords(lead, scheme, gap, token, trail);
    TokenIsTrimmed(token);
  }

  lemma AcceptsOnlyCredentials(s: string, token: string)
    requires ParseBearerToken(s) == Ok(token)
    ensures Credentials(s, token)
  {
    hide Fields, TrimRight, TrimLeft, Spaces, ToLowerAscii, Word;
    TrimLeftKeepsFields(s);
    TrimRightKeepsFields(TrimLeft(s));
    var parts := Fields(s);
    assert |parts| == 2;
    var lead, more := FieldsSplit(s);
    var gap, trail := FieldsSplit(more);
    var blank, end := FieldsSplit(trail);
    SchemeIsWord(parts[0]);
    GapNeeded(gap, parts[1]);
    assert (gap + parts[1])[0] == more[0];
    TokenIsTrimmed(parts[1]);
    assert s == lead + parts[0] + gap + parts[1] + trail;
  }

  lemma GapNeeded(gap: string, token: string)
    requires Word(token) && token != ""
    ensures IsSpace((gap + token)[0]) ==> gap != ""
  {
    if gap == "" {
      assert gap + token == token;
    }
  }

  /** A header is accepted, and yields this token, exactly when it follows the grammar. */
  lemma ParsesExactlyCredentials(s: string, token: string)
    ensures ParseBearerToken(s) == Ok(token) <==> Credentials(s, token)
  {
    if Credentials(s, token) {
      AcceptsCredentials(s, token);
    }
    if ParseBearerToken(s) == Ok(token) {
      AcceptsOnlyCredentials(s, token);
    }
  }
}
