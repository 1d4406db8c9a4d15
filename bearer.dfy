/** Parsing of an `Authorization: Bearer <token>` header. */
module Bearer {
  import opened Wrappers
  import opened Strings

  /** True when the header, trimmed and split on white-space runs, is exactly
      a scheme equal to "bearer" in any letter case and a token equal to the
      expected one. A missing or empty header is refused. */
  function VerifyBearerToken(header: Option<string>, expected: string): bool {
    if !Truthy(header) then false
    else
      var parts := SplitSpaces(Trim(header.value));
      |parts| == 2 && ToLower(parts[0]) == "bearer" && parts[1] == expected
  }

  /** A header built from any padding, any letter case of the scheme and any
      non-empty run of white space before the expected token is accepted. */
  lemma AcceptsPaddedHeader(pad1: string, scheme: string, gap: string, token: string, pad2: string)
    requires AllSpace(pad1) && AllSpace(pad2) && AllSpace(gap) && gap != []
    requires ToLower(scheme) == "bearer"
    requires token != [] && NoSpace(token)
    ensures VerifyBearerToken(Some(pad1 + scheme + gap + token + pad2), token)
  {
    assert NoSpace(scheme) by {
      forall i | 0 <= i < |scheme| ensures !IsSpace(scheme[i]) {
        assert ToLower(scheme)[i] == LowerChar(scheme[i]);
      }
    }
    var core := scheme + gap + token;
    assert core[0] == scheme[0] && core[|core| - 1] == token[|token| - 1];
    TrimOfPadded(pad1, core, pad2);
    ConcatAssoc(pad1, scheme + gap, token);
    ConcatAssoc(pad1, scheme, gap);
    SplitSpacesTwoWords(scheme, gap, token);
  }

  /** The plain form `<scheme> <token>` with a single space is accepted. */
  lemma AcceptsPlainHeader(scheme: string, token: string)
    requires ToLower(scheme) == "bearer"
    requires token != [] && NoSpace(token)
    ensures VerifyBearerToken(Some(scheme + " " + token), token)
  {
    assert AllSpace(" ") by { assert IsSpace(" "[0]); }
    AcceptsPaddedHeader([], scheme, " ", token, []);
    assert [] + scheme + " " + token + [] == scheme + " " + token;
  }

  /** The token is compared case-sensitively: a different token in an
      otherwise well-formed header is refused. */
  lemma RejectsOtherToken(scheme: string, gap: string, token: string, expected: string)
    requires AllSpace(gap) && gap != [] && ToLower(scheme) == "bearer"
    requires token != [] && NoSpace(token) && token != expected
    ensures !VerifyBearerToken(Some(scheme + gap + token), expected)
  {
    AcceptsPaddedHeader([], scheme, gap, token, []);
    assert [] + scheme + gap + token + [] == scheme + gap + token;
  }

  /** The layout of an accepted header: padding, the scheme, a run of white
      space, the token and padding. */
  predicate HeaderShape(header: string, pad1: string, scheme: string, gap: string, token: string, pad2: string) {
    && AllSpace(pad1) && AllSpace(pad2) && AllSpace(gap) && gap != []
    && ToLower(scheme) == "bearer" && token != [] && NoSpace(token)
    && header == pad1 + scheme + gap + token + pad2
  }

  /** Two pieces of a white-space split of trimmed text are separated by
      one run of white space, and the second is not empty. */
  lemma TwoWordsGap(t: string) returns (gap: string)
    requires Trimmed(t) && |SplitSpaces(t)| == 2
    ensures t == SplitSpaces(t)[0] + gap + SplitSpaces(t)[1]
    ensures AllSpace(gap) && gap != [] && SplitSpaces(t)[1] != []
  {
    var x := SplitSpacesHead(t);
    var u := TrimStart(x[1..]);
    var y := SplitSpacesHead(u);
    assert u == SplitSpaces(t)[1];
    TrimStartSuffix(x[1..]);
    TrimStartShape(x[1..]);
    var g := x[1..][..|x[1..]| - |u|];
    assert x[1..] == g + u;
    gap := [x[0]] + g;
    assert x == gap + u;
    assert AllSpace(gap) by {
      forall i | 0 <= i < |gap| ensures IsSpace(gap[i]) {
        if i > 0 { assert gap[i] == x[1..][i - 1]; }
      }
    }
    ConcatAssoc(SplitSpaces(t)[0], gap, u);
  }

  /** Any text is its trimmed form with white space around it. */
  lemma TrimPadding(h: string) returns (pad1: string, pad2: string)
    ensures AllSpace(pad1) && AllSpace(pad2) && h == pad1 + Trim(h) + pad2
  {
    var ts := TrimStart(h);
    var n := |h| - |ts|;
    TrimStartSuffix(h);
    TrimStartShape(h);
    pad1 := h[..n];
    assert AllSpace(pad1) by {
      forall i | 0 <= i < |pad1| ensures IsSpace(pad1[i]) { assert pad1[i] == h[i]; }
    }
    assert h == pad1 + ts by { assert h == h[..n] + h[n..]; }
    var te := TrimEnd(ts);
    TrimEndShape(ts);
    pad2 := ts[|te|..];
    assert ts == te + pad2 by { assert ts == ts[..|te|] + ts[|te|..]; }
    ConcatAssoc(pad1, te, pad2);
  }

  /** The converse of `AcceptsPaddedHeader`: an accepted header is laid out
      exactly so, which refuses a third word, another scheme, a missing
      gap and an empty token. */
  lemma AcceptedHeaderShape(header: Option<string>, expected: string)
    returns (pad1: string, scheme: string, gap: string, pad2: string)
    requires VerifyBearerToken(header, expected)
    ensures header.Some? && HeaderShape(header.value, pad1, scheme, gap, expected, pad2)
  {
    var t := Trim(header.value);
    SplitSpacesNoSpace(t);
    TrimIsTrimmed(header.value);
    gap := TwoWordsGap(t);
    scheme := SplitSpaces(t)[0];
    pad1, pad2 := TrimPadding(header.value);
    assert NoSpace(SplitSpaces(t)[1]);
    ConcatAssoc(pad1 + scheme + gap, expected, pad2);
    ConcatAssoc(pad1, scheme + gap, expected);
    ConcatAssoc(pad1, scheme, gap);
  }

  /** A header is accepted exactly when it has that layout around the
      expected token. */
  lemma VerifyBearerTokenIff(header: Option<string>, expected: string)
    ensures VerifyBearerToken(header, expected) <==>
      header.Some? && exists pad1, scheme, gap, pad2 :: HeaderShape(header.value, pad1, scheme, gap, expected, pad2)
  {
    if VerifyBearerToken(header, expected) {
      var pad1, scheme, gap, pad2 := AcceptedHeaderShape(header, expected);
    }
    if header.Some? && exists pad1, scheme, gap, pad2 :: HeaderShape(header.value, pad1, scheme, gap, expected, pad2) {
      var pad1, scheme, gap, pad2 :| HeaderShape(header.value, pad1, scheme, gap, expected, pad2);
      AcceptsPaddedHeader(pad1, scheme, gap, expected, pad2);
    }
  }

  /** An accepted header always held exactly two words, and the token
      therefore never contains white space: an expected token with white
      space in it is never matched. */
  lemma AcceptedTokenHasNoSpace(header: Option<string>, expected: string)
    requires VerifyBearerToken(header, expected)
    ensures header.Some? && header.value != ""
    ensures NoSpace(expected)
  {
    SplitSpacesNoSpace(Trim(header.value));
  }
}
