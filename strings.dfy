/** Text helpers with the JavaScript semantics the system relies on:
    `trim`, splitting on a character and on runs of white space, ASCII
    lower-casing, decimal rendering of integers, and the code-point order
    that SQLite's default collation applies to text keys. */
module Strings {
  import opened Wrappers

  /** The characters JavaScript's `trim` removes and the regular-expression
      class `\s` matches: ASCII white space, the line terminators, the byte
      order mark and every character of the Unicode space-separator class. */
  predicate IsSpace(c: char) {
    || c == ' ' || c == '\t' || c == '\n' || c == '\U{B}' || c == '\U{C}' || c == '\r'
    || c == '\U{A0}' || c == '\U{1680}' || ('\U{2000}' <= c <= '\U{200A}')
    || c == '\U{2028}' || c == '\U{2029}' || c == '\U{202F}' || c == '\U{205F}'
    || c == '\U{3000}' || c == '\U{FEFF}'
  }

  /** JavaScript truthiness of an optional text value: present and non-empty. */
  predicate Truthy(o: Option<string>) {
    o.Some? && o.value != ""
  }

  predicate AllSpace(s: string) {
    forall i :: 0 <= i < |s| ==> IsSpace(s[i])
  }

  predicate NoSpace(s: string) {
    forall i :: 0 <= i < |s| ==> !IsSpace(s[i])
  }

  /** A string with no white space at either end. */
  predicate Trimmed(t: string) {
    t == [] || (!IsSpace(t[0]) && !IsSpace(t[|t| - 1]))
  }

  function TrimStart(s: string): (r: string)
    ensures |r| <= |s|
  {
    if |s| > 0 && IsSpace(s[0]) then TrimStart(s[1..]) else s
  }

  function TrimEnd(s: string): (r: string)
    ensures |r| <= |s|
    ensures r == s[..|r|]
  {
    if |s| > 0 && IsSpace(s[|s| - 1]) then TrimEnd(s[..|s| - 1]) else s
  }

  /** `TrimStart` drops a prefix. */
  lemma {:induction false} TrimStartSuffix(s: string)
    ensures TrimStart(s) == s[|s| - |TrimStart(s)|..]
  {
    if |s| > 0 && IsSpace(s[0]) {
      TrimStartSuffix(s[1..]);
      assert s[1..][|s| - 1 - |TrimStart(s)|..] == s[|s| - |TrimStart(s)|..];
    }
  }

  /** JavaScript's `String.prototype.trim`. */
  function Trim(s: string): string {
    TrimEnd(TrimStart(s))
  }

  lemma {:induction false} TrimStartPadded(a: string, t: string)
    requires AllSpace(a)
    requires t == [] || !IsSpace(t[0])
    ensures TrimStart(a + t) == t
  {
    if a != [] {
      assert (a + t)[1..] == a[1..] + t;
      TrimStartPadded(a[1..], t);
    } else {
      assert a + t == t;
    }
  }

  lemma {:induction false} TrimEndPadded(t: string, b: string)
    requires AllSpace(b)
    requires t == [] || !IsSpace(t[|t| - 1])
    ensures TrimEnd(t + b) == t
  {
    if b != [] {
      assert (t + b)[..|t + b| - 1] == t + b[..|b| - 1];
      TrimEndPadded(t, b[..|b| - 1]);
    } else {
      assert t + b == t;
    }
  }

  lemma {:induction false} TrimStartShape(s: string)
    ensures forall i :: 0 <= i < |s| - |TrimStart(s)| ==> IsSpace(s[i])
    ensures TrimStart(s) == [] || !IsSpace(TrimStart(s)[0])
  {
    if |s| > 0 && IsSpace(s[0]) {
      var u := s[1..];
      TrimStartShape(u);
      forall i | 1 <= i < |s| - |TrimStart(s)| ensures IsSpace(s[i]) {
        assert s[i] == u[i - 1];
      }
    }
  }

  lemma {:induction false} TrimEndShape(s: string)
    ensures AllSpace(s[|TrimEnd(s)|..])
    ensures TrimEnd(s) == [] || !IsSpace(TrimEnd(s)[|TrimEnd(s)| - 1])
  {
    if |s| > 0 && IsSpace(s[|s| - 1]) {
      TrimEndShape(s[..|s| - 1]);
      assert s[|TrimEnd(s)|..] == s[..|s| - 1][|TrimEnd(s[..|s| - 1])|..] + [s[|s| - 1]];
    }
  }

  /** `trim` leaves no white space at either end. */
  lemma TrimIsTrimmed(s: string)
    ensures Trimmed(Trim(s))
  {
    TrimStartShape(s);
    var u := TrimStart(s);
    TrimEndShape(u);
    if TrimEnd(u) != [] {
      assert TrimEnd(u)[0] == u[0];
    }
  }

  lemma ConcatAssoc(a: string, b: string, c: string)
    ensures a + (b + c) == a + b + c
  {
  }

  lemma DropConcat(a: string, b: string)
    ensures (a + b)[|a|..] == b
  {
  }

  /** Trimming white space padded around a trimmed string gives that string back. */
  lemma TrimOfPadded(a: string, t: string, b: string)
    requires AllSpace(a) && AllSpace(b) && Trimmed(t)
    ensures Trim(a + t + b) == t
  {
    if t == [] {
      assert a + t + b == a + b;
      TrimStartPadded(a + b, []);
      assert a + b + [] == a + b;
    } else {
      assert a + t + b == a + (t + b);
      TrimStartPadded(a, t + b);
      TrimEndPadded(t, b);
    }
  }

  /** `trim` is idempotent. */
  lemma TrimIdempotent(s: string)
    ensures Trim(Trim(s)) == Trim(s)
  {
    TrimIsTrimmed(s);
    TrimOfPadded([], Trim(s), []);
    assert [] + Trim(s) + [] == Trim(s);
  }

  /** `trim` gives the empty string exactly for all-white-space input. */
  lemma TrimEmptyIffAllSpace(s: string)
    ensures Trim(s) == [] <==> AllSpace(s)
  {
    TrimStartShape(s);
    TrimEndShape(TrimStart(s));
    if AllSpace(s) {
      TrimOfPadded(s, [], []);
      assert s + [] + [] == s;
    }
  }

  /** ASCII lower-casing. JavaScript's `toLowerCase` maps more characters,
      but every comparison of a lowered value in the system is against an
      all-lower-case ASCII word without the letter k, and for those words the
      two agree. */
  function LowerChar(c: char): char {
    if 'A' <= c <= 'Z' then (c as int + 32) as char else c
  }

  function ToLower(s: string): (r: string)
    ensures |r| == |s|
    ensures forall i :: 0 <= i < |s| ==> r[i] == LowerChar(s[i])
  {
    seq(|s|, i requires 0 <= i < |s| => LowerChar(s[i]))
  }

  /** JavaScript's `s.split(c)` for a one-character separator. */
  function SplitOn(s: string, sep: char): (r: seq<string>)
    ensures |r| >= 1
  {
    if |s| == 0 then [""]
    else
      var rest := SplitOn(s[1..], sep);
      if s[0] == sep then [""] + rest else [[s[0]] + rest[0]] + rest[1..]
  }

  /** JavaScript's `parts.join(sep)`. */
  function Join(parts: seq<string>, sep: string): string {
    if |parts| == 0 then ""
    else if |parts| == 1 then parts[0]
    else parts[0] + sep + Join(parts[1..], sep)
  }

  /** Splitting on a character and joining with it again gives the text back,
      and no piece contains the separator. */
  lemma SplitOnJoin(s: string, sep: char)
    ensures Join(SplitOn(s, sep), [sep]) == s
    ensures forall k :: 0 <= k < |SplitOn(s, sep)| ==> sep !in SplitOn(s, sep)[k]
  {
    SplitOnJoinText(s, sep);
    SplitOnPiecesFree(s, sep);
  }

  lemma {:induction false} SplitOnJoinText(s: string, sep: char)
    ensures Join(SplitOn(s, sep), [sep]) == s
  {
    if |s| > 0 {
      var rest := SplitOn(s[1..], sep);
      SplitOnJoinText(s[1..], sep);
      assert s == [s[0]] + s[1..];
      if s[0] == sep {
        assert SplitOn(s, sep) == [""] + rest;
        assert ([""] + rest)[1..] == rest;
        assert Join([""] + rest, [sep]) == "" + [sep] + Join(rest, [sep]);
      } else {
        JoinCons(s[0], rest, [sep]);
      }
    }
  }

  lemma {:induction false} SplitOnPiecesFree(s: string, sep: char)
    ensures forall k :: 0 <= k < |SplitOn(s, sep)| ==> sep !in SplitOn(s, sep)[k]
  {
    if |s| > 0 {
      var rest := SplitOn(s[1..], sep);
      SplitOnPiecesFree(s[1..], sep);
      var r := SplitOn(s, sep);
      if s[0] == sep {
        assert r == [""] + rest;
        forall k | 0 <= k < |r| ensures sep !in r[k] {
          if k > 0 {
            assert r[k] == rest[k - 1];
          }
        }
      } else {
        assert r == [[s[0]] + rest[0]] + rest[1..];
        forall k | 0 <= k < |r| ensures sep !in r[k] {
          if k == 0 {
            assert sep !in rest[0];
            assert sep != s[0];
          } else {
            assert r[k] == rest[k];
          }
        }
      }
    }
  }

  /** Putting a character in front of the first piece puts it in front of
      the joined text. */
  lemma JoinCons(c: char, parts: seq<string>, sep: string)
    requires |parts| >= 1
    ensures Join([[c] + parts[0]] + parts[1..], sep) == [c] + Join(parts, sep)
  {
    var r := [[c] + parts[0]] + parts[1..];
    assert r[0] == [c] + parts[0];
    if |parts| > 1 {
      assert r[1..] == parts[1..];
      var tail := Join(parts[1..], sep);
      assert Join(r, sep) == ([c] + parts[0]) + sep + tail;
      assert Join(parts, sep) == parts[0] + sep + tail;
      assert ([c] + parts[0]) + sep + tail == [c] + (parts[0] + sep + tail);
    }
  }

  /** JavaScript's `s.split(/\s+/)`: the pieces between maximal runs of
      white space (a leading or trailing run yields an empty piece, and the
      empty string splits into one empty piece). */
  function SplitSpaces(s: string): (r: seq<string>)
    ensures |r| >= 1
    decreases |s|
  {
    if |s| == 0 then [""]
    else if IsSpace(s[0]) then [""] + SplitSpaces(TrimStart(s[1..]))
    else
      var rest := SplitSpaces(s[1..]);
      [[s[0]] + rest[0]] + rest[1..]
  }

  /** No piece of a white-space split contains white space. */
  lemma {:induction false} SplitSpacesNoSpace(s: string)
    ensures forall k :: 0 <= k < |SplitSpaces(s)| ==> NoSpace(SplitSpaces(s)[k])
    decreases |s|
  {
    if |s| > 0 {
      if IsSpace(s[0]) {
        SplitSpacesNoSpace(TrimStart(s[1..]));
      } else {
        SplitSpacesNoSpace(s[1..]);
        var rest := SplitSpaces(s[1..]);
        assert NoSpace([s[0]] + rest[0]);
      }
    }
  }

  lemma {:induction false} SplitSpacesWord(w: string, x: string)
    requires NoSpace(w)
    requires x == [] || IsSpace(x[0])
    ensures SplitSpaces(w + x) == [w + SplitSpaces(x)[0]] + SplitSpaces(x)[1..]
    decreases |w|
  {
    var r := SplitSpaces(x);
    if w == [] {
      assert w + x == x;
      assert r == [w + r[0]] + r[1..];
    } else {
      SplitSpacesWord(w[1..], x);
      var rest := SplitSpaces(w[1..] + x);
      assert rest[0] == w[1..] + r[0] && rest[1..] == r[1..];
      SplitSpacesCons(w[0], w[1..] + x);
      assert [w[0]] + (w[1..] + x) == w + x;
      assert [w[0]] + (w[1..] + r[0]) == w + r[0];
    }
  }

  /** A character that is not white space joins the first piece. */
  lemma SplitSpacesCons(c: char, t: string)
    requires !IsSpace(c)
    ensures SplitSpaces([c] + t) == [[c] + SplitSpaces(t)[0]] + SplitSpaces(t)[1..]
  {
    assert ([c] + t)[0] == c;
    assert ([c] + t)[1..] == t;
  }

  /** A run of white space before a word splits into an empty piece and the word. */
  lemma SplitSpacesGap(gap: string, w: string)
    requires NoSpace(w) && w != []
    requires AllSpace(gap) && gap != []
    ensures SplitSpaces(gap + w) == ["", w]
  {
    var s := gap + w;
    assert s[0] == gap[0];
    assert s[1..] == gap[1..] + w;
    TrimStartPadded(gap[1..], w);
    assert SplitSpaces(s) == [""] + SplitSpaces(w);
    SplitSpacesWord(w, []);
    assert w + [] == w;
  }

  /** The first piece of a white-space split is a prefix of the text; what
      follows it is empty (then it is the only piece) or starts a run of
      white space after which the remaining pieces begin. */
  lemma {:induction false} SplitSpacesHead(s: string) returns (x: string)
    ensures s == SplitSpaces(s)[0] + x
    ensures x == [] || IsSpace(x[0])
    ensures x == [] ==> |SplitSpaces(s)| == 1
    ensures x != [] ==> SplitSpaces(s)[1..] == SplitSpaces(TrimStart(x[1..]))
    decreases |s|
  {
    if |s| == 0 {
      x := [];
    } else if IsSpace(s[0]) {
      x := s;
      assert s == "" + s;
    } else {
      var rest := SplitSpaces(s[1..]);
      x := SplitSpacesHead(s[1..]);
      assert s == [s[0]] + s[1..];
      ConcatAssoc([s[0]], rest[0], x);
    }
  }

  /** A word, a run of white space and a word split into exactly those two words. */
  lemma SplitSpacesTwoWords(w1: string, gap: string, w2: string)
    requires NoSpace(w1) && NoSpace(w2) && w1 != [] && w2 != []
    requires AllSpace(gap) && gap != []
    ensures SplitSpaces(w1 + gap + w2) == [w1, w2]
  {
    assert w1 + gap + w2 == w1 + (gap + w2);
    SplitSpacesWord(w1, gap + w2);
    SplitSpacesGap(gap, w2);
    assert w1 + "" == w1;
  }

  function DigitChar(d: nat): char
    requires d < 10
  {
    ('0' as int + d) as char
  }

  predicate IsDigit(c: char) {
    '0' <= c <= '9'
  }

  predicate AllDigits(s: string) {
    forall i :: 0 <= i < |s| ==> IsDigit(s[i])
  }

  /** The value of a string of decimal digits. */
  function DigitsValue(s: string): nat
    requires AllDigits(s)
  {
    if |s| == 0 then 0 else DigitsValue(s[..|s| - 1]) * 10 + (s[|s| - 1] as int - '0' as int)
  }

  /** Decimal rendering of a natural number, as `String(n)` gives it. */
  function NatToString(n: nat): string
    decreases n
  {
    if n < 10 then [DigitChar(n)] else NatToString(n / 10) + [DigitChar(n % 10)]
  }

  /** Decimal rendering of an integer, as `String(n)` gives it. */
  function IntToString(i: int): string {
    if i < 0 then "-" + NatToString(-i) else NatToString(i)
  }

  /** Reads back an optionally signed decimal integer. */
  function ParseInt(s: string): Option<int> {
    if |s| > 1 && s[0] == '-' && AllDigits(s[1..]) then Some(-(DigitsValue(s[1..]) as int))
    else if |s| > 0 && AllDigits(s) then Some(DigitsValue(s))
    else None
  }

  lemma {:induction false} NatToStringDigits(n: nat)
    ensures |NatToString(n)| > 0 && AllDigits(NatToString(n))
    ensures DigitsValue(NatToString(n)) == n
    decreases n
  {
    if n >= 10 {
      NatToStringDigits(n / 10);
      var s := NatToString(n);
      assert s[..|s| - 1] == NatToString(n / 10);
    }
  }

  lemma ParseDigits(t: string)
    requires |t| > 0 && AllDigits(t)
    ensures ParseInt(t) == Some(DigitsValue(t) as int)
  {
    assert IsDigit(t[0]);
  }

  lemma ParseNegative(t: string)
    requires |t| > 0 && AllDigits(t)
    ensures ParseInt("-" + t) == Some(-(DigitsValue(t) as int))
  {
    var s := "-" + t;
    assert s[0] == '-';
    assert s[1..] == t;
  }

  /** Rendering an integer and reading it back gives the integer. */
  lemma IntToStringRoundTrip(i: int)
    ensures ParseInt(IntToString(i)) == Some(i)
  {
    if i < 0 {
      NatToStringDigits(-i);
      ParseNegative(NatToString(-i));
    } else {
      NatToStringDigits(i);
      ParseDigits(NatToString(i));
    }
  }

  /** The form `String(n)` produces: "0", or digits without a leading zero,
      or "-" and digits without a leading zero (never "-0"). */
  predicate CanonicalInt(s: string) {
    || s == "0"
    || (|s| > 0 && AllDigits(s) && s[0] != '0')
    || (|s| > 1 && s[0] == '-' && AllDigits(s[1..]) && s[1] != '0')
  }

  lemma {:induction false} NatToStringLeading(n: nat)
    ensures |NatToString(n)| > 0 && (NatToString(n)[0] == '0' <==> n == 0)
    decreases n
  {
    if n >= 10 {
      NatToStringLeading(n / 10);
      assert NatToString(n)[0] == NatToString(n / 10)[0];
    }
  }

  /** `String(n)` is canonical: a rendered integer has no leading zero
      unless it is 0, and zero is never rendered "-0". */
  lemma IntToStringCanonical(i: int)
    ensures CanonicalInt(IntToString(i))
  {
    if i < 0 {
      NatToStringDigits(-i);
      NatToStringLeading(-i);
      assert IntToString(i)[1..] == NatToString(-i);
    } else {
      NatToStringDigits(i);
      NatToStringLeading(i);
    }
  }

  /** Code-point (lexicographic) order on text, which SQLite's default BINARY
      collation applies to UTF-8 keys. */
  predicate StrLt(a: string, b: string) {
    if |a| == 0 then |b| > 0
    else if |b| == 0 then false
    else if a[0] != b[0] then a[0] < b[0]
    else StrLt(a[1..], b[1..])
  }

  lemma {:induction false} StrLtIrreflexive(a: string)
    ensures !StrLt(a, a)
  {
    if |a| > 0 { StrLtIrreflexive(a[1..]); }
  }

  lemma {:induction false} StrLtTransitive(a: string, b: string, c: string)
    requires StrLt(a, b) && StrLt(b, c)
    ensures StrLt(a, c)
  {
    if |a| > 0 && |b| > 0 && |c| > 0 && a[0] == b[0] && b[0] == c[0] {
      StrLtTransitive(a[1..], b[1..], c[1..]);
    }
  }

  lemma {:induction false} StrLtTotal(a: string, b: string)
    ensures a == b || StrLt(a, b) || StrLt(b, a)
  {
    if |a| > 0 && |b| > 0 && a[0] == b[0] {
      StrLtTotal(a[1..], b[1..]);
      if a[1..] == b[1..] {
        assert a == [a[0]] + a[1..] && b == [b[0]] + b[1..];
      }
    }
  }

  lemma StrLtAsymmetric(a: string, b: string)
    requires StrLt(a, b)
    ensures !StrLt(b, a)
  {
    if StrLt(b, a) {
      StrLtTransitive(a, b, a);
      StrLtIrreflexive(a);
    }
  }
}
