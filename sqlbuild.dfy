/** Placeholder substitution of the store adapter: every `?` of a statement,
    left to right, is replaced by the text of the next parameter, string
    values quoted with their single quotes doubled. */
module SqlClient {
  import opened Wrappers
  import opened Json
  import opened Strings

  /** The JavaScript values a parameter array can hold. Numbers are
      integers here. */
  datatype SqlParam =
    | PNull
    | PUndefined
    | PStr(s: string)
    | PNum(n: int)
    | PBool(b: bool)
    | PObject(value: Json)

  const NotEnoughParams := "Not enough parameters provided for SQL query"

  /** Every single quote doubled (`replace(/'/g, "''")`). */
  function Escape(s: string): string {
    if s == [] then [] else (if s[0] == '\'' then "''" else [s[0]]) + Escape(s[1..])
  }

  /** A SQL string literal holding `s`. */
  function Quote(s: string): string {
    "'" + Escape(s) + "'"
  }

  /** The text one parameter becomes; `stringify` is `JSON.stringify`.
      Null and undefined are the keyword NULL, booleans and numbers are
      bare literals, and text and objects are quoted literals. */
  function Render(p: SqlParam, stringify: Json -> string): (r: string)
    ensures p.PNull? || p.PUndefined? ==> r == "NULL"
    ensures p.PBool? ==> r == (if p.b then "true" else "false")
    ensures p.PNum? ==> CanonicalInt(r) && ParseInt(r) == Some(p.n)
    ensures p.PStr? || p.PObject? ==> 2 <= |r| && r[0] == '\'' && r[|r| - 1] == '\''
  {
    match p
    case PNull => "NULL"
    case PUndefined => "NULL"
    case PStr(s) => Quote(s)
    case PNum(n) =>
      IntToStringRoundTrip(n);
      IntToStringCanonical(n);
      IntToString(n)
    case PBool(b) => if b then "true" else "false"
    case PObject(j) => Quote(stringify(j))
  }

  function CountPlaceholders(s: string): nat {
    if s == [] then 0 else (if s[0] == '?' then 1 else 0) + CountPlaceholders(s[1..])
  }

  /** `out` followed by the substituted text, or the error unchanged. */
  function Prefix(out: string, r: Result<string, string>): Result<string, string> {
    match r
    case Ok(x) => Ok(out + x)
    case Err(e) => Err(e)
  }

  /** Substitution of `sql` when its first placeholder is to receive
      `params[k]`. */
  function SubstituteFrom(sql: string, params: seq<SqlParam>, k: nat, stringify: Json -> string): Result<string, string>
    decreases |sql|
  {
    if sql == [] then Ok([])
    else if sql[0] == '?' then
      if k >= |params| then Err(NotEnoughParams)
      else Prefix(Render(params[k], stringify), SubstituteFrom(sql[1..], params, k + 1, stringify))
    else Prefix([sql[0]], SubstituteFrom(sql[1..], params, k, stringify))
  }

  /** What `buildParameterizedSql` yields: the statement unchanged when the
      parameter array is missing or empty, otherwise the substitution. */
  function Substitute(sql: string, params: Option<seq<SqlParam>>, stringify: Json -> string): Result<string, string> {
    if params.None? || |params.value| == 0 then Ok(sql) else SubstituteFrom(sql, params.value, 0, stringify)
  }

  lemma PrefixEmpty(r: Result<string, string>)
    ensures Prefix("", r) == r
  {
    if r.Ok? { assert "" + r.value == r.value; }
  }

  lemma PrefixPrefix(a: string, b: string, r: Result<string, string>)
    ensures Prefix(a, Prefix(b, r)) == Prefix(a + b, r)
  {
    if r.Ok? { assert a + (b + r.value) == a + b + r.value; }
  }

  /** The scan with a running parameter index, as the source's replace
      callback advances it. */
  method BuildParameterizedSql(sql: string, params: Option<seq<SqlParam>>, stringify: Json -> string)
    returns (r: Result<string, string>)
    ensures r == Substitute(sql, params, stringify)
  {
    if params.None? || |params.value| == 0 {
      return Ok(sql);
    }
    var ps := params.value;
    var out := "";
    var paramIndex := 0;
    var i := 0;
    PrefixEmpty(SubstituteFrom(sql, ps, 0, stringify));
    while i < |sql|
      invariant 0 <= i <= |sql|
      invariant SubstituteFrom(sql, ps, 0, stringify) == Prefix(out, SubstituteFrom(sql[i..], ps, paramIndex, stringify))
    {
      assert sql[i..][1..] == sql[i + 1..];
      if sql[i] == '?' {
        if paramIndex >= |ps| {
          return Err(NotEnoughParams);
        }
        PrefixPrefix(out, Render(ps[paramIndex], stringify), SubstituteFrom(sql[i + 1..], ps, paramIndex + 1, stringify));
        out := out + Render(ps[paramIndex], stringify);
        paramIndex := paramIndex + 1;
      } else {
        PrefixPrefix(out, [sql[i]], SubstituteFrom(sql[i + 1..], ps, paramIndex, stringify));
        out := out + [sql[i]];
      }
      i := i + 1;
    }
    assert sql[i..] == [];
    assert out + [] == out;
    r := Ok(out);
  }

  /** Substitution fails exactly when the statement has more placeholders
      than there are parameters from position k on. */
  lemma {:induction false} SubstituteOkIff(sql: string, params: seq<SqlParam>, k: nat, stringify: Json -> string)
    requires k <= |params|
    ensures SubstituteFrom(sql, params, k, stringify).Ok? <==> k + CountPlaceholders(sql) <= |params|
    ensures SubstituteFrom(sql, params, k, stringify).Err? ==> SubstituteFrom(sql, params, k, stringify).error == NotEnoughParams
    decreases |sql|
  {
    if sql != [] {
      assert CountPlaceholders(sql) == (if sql[0] == '?' then 1 else 0) + CountPlaceholders(sql[1..]);
      if sql[0] == '?' {
        if k < |params| { SubstituteOkIff(sql[1..], params, k + 1, stringify); }
      } else {
        SubstituteOkIff(sql[1..], params, k, stringify);
      }
    }
  }

  /** A statement without placeholders comes back unchanged. */
  lemma {:induction false} NoPlaceholdersUnchanged(sql: string, params: seq<SqlParam>, k: nat, stringify: Json -> string)
    requires CountPlaceholders(sql) == 0
    ensures SubstituteFrom(sql, params, k, stringify) == Ok(sql)
    decreases |sql|
  {
    if sql != [] {
      NoPlaceholdersUnchanged(sql[1..], params, k, stringify);
      assert sql == [sql[0]] + sql[1..];
    }
  }

  /** Parameters beyond the last placeholder are ignored. */
  lemma {:induction false} ExcessParamsIgnored(sql: string, params: seq<SqlParam>, extra: seq<SqlParam>, k: nat, stringify: Json -> string)
    requires k + CountPlaceholders(sql) <= |params|
    ensures SubstituteFrom(sql, params + extra, k, stringify) == SubstituteFrom(sql, params, k, stringify)
    decreases |sql|
  {
    if sql != [] {
      if sql[0] == '?' {
        assert (params + extra)[k] == params[k];
        ExcessParamsIgnored(sql[1..], params, extra, k + 1, stringify);
      } else {
        ExcessParamsIgnored(sql[1..], params, extra, k, stringify);
      }
    }
  }

  /** Joins two substitution results; the first failure wins. */
  function Concat(a: Result<string, string>, b: Result<string, string>): Result<string, string> {
    if a.Err? then a else Prefix(a.value, b)
  }

  /** Substituting a concatenation substitutes each part, the second part
      starting at the parameter after those the first part consumed. */
  lemma {:induction false} SubstituteAppend(a: string, b: string, params: seq<SqlParam>, k: nat, stringify: Json -> string)
    ensures SubstituteFrom(a + b, params, k, stringify)
         == Concat(SubstituteFrom(a, params, k, stringify), SubstituteFrom(b, params, k + CountPlaceholders(a), stringify))
    decreases |a|
  {
    if a == [] {
      assert a + b == b;
      var rb := SubstituteFrom(b, params, k, stringify);
      if rb.Ok? { assert [] + rb.value == rb.value; }
    } else {
      assert a == [a[0]] + a[1..];
      ConcatAssoc([a[0]], a[1..], b);
      DropConcat([a[0]], a[1..] + b);
      var k' := if a[0] == '?' then k + 1 else k;
      var rb := SubstituteFrom(b, params, k + CountPlaceholders(a), stringify);
      if a[0] == '?' && k >= |params| {
      } else {
        SubstituteAppend(a[1..], b, params, k', stringify);
        var head := if a[0] == '?' then Render(params[k], stringify) else [a[0]];
        var ra := SubstituteFrom(a[1..], params, k', stringify);
        if ra.Ok? && rb.Ok? {
          ConcatAssoc(head, ra.value, rb.value);
        }
      }
    }
  }

  lemma {:induction false} CountAppend(a: string, b: string)
    ensures CountPlaceholders(a + b) == CountPlaceholders(a) + CountPlaceholders(b)
  {
    if a == [] {
      assert a + b == b;
    } else {
      assert (a + b)[0] == a[0] && (a + b)[1..] == a[1..] + b;
      CountAppend(a[1..], b);
    }
  }

  /** The placeholder that follows a text `a` receives the parameter after
      those `a` consumed, or substitution fails for want of it; the text
      after it continues from the next parameter. */
  lemma PlaceholderGetsParam(a: string, b: string, params: seq<SqlParam>, k: nat, stringify: Json -> string)
    ensures var j := k + CountPlaceholders(a);
      SubstituteFrom(a + "?" + b, params, k, stringify)
      == Concat(SubstituteFrom(a, params, k, stringify),
                if j < |params| then Prefix(Render(params[j], stringify), SubstituteFrom(b, params, j + 1, stringify))
                else Err(NotEnoughParams))
  {
    var qb := "?" + b;
    assert qb[0] == '?' && qb[1..] == b;
    ConcatAssoc(a, "?", b);
    SubstituteAppend(a, qb, params, k, stringify);
  }

  /** Collapses doubled single quotes back to one. */
  function Unescape(t: string): string {
    if |t| >= 2 && t[0] == '\'' && t[1] == '\'' then "'" + Unescape(t[2..])
    else if t == [] then []
    else [t[0]] + Unescape(t[1..])
  }

  /** Unescaping undoes escaping. */
  lemma {:induction false} UnescapeEscape(s: string)
    ensures Unescape(Escape(s)) == s
  {
    if s != [] {
      UnescapeEscape(s[1..]);
      var e := Escape(s);
      if s[0] == '\'' {
        assert e == "''" + Escape(s[1..]);
        assert e[2..] == Escape(s[1..]);
      } else {
        assert e == [s[0]] + Escape(s[1..]);
        assert e[1..] == Escape(s[1..]);
      }
      assert s == [s[0]] + s[1..];
    }
  }

  /** How SQL reads the body of a string literal: a doubled quote stands for
      one quote, a single quote ends the literal. Yields the value and the
      text after the closing quote, or `None` if the literal never closes. */
  function ReadLiteralBody(t: string): Option<(string, string)> {
    if t == [] then None
    else if t[0] == '\'' then
      if |t| >= 2 && t[1] == '\'' then
        match ReadLiteralBody(t[2..])
        case Some((v, rest)) => Some(("'" + v, rest))
        case None => None
      else Some(("", t[1..]))
    else
      match ReadLiteralBody(t[1..])
      case Some((v, rest)) => Some(([t[0]] + v, rest))
      case None => None
  }

  function ReadLiteral(t: string): Option<(string, string)> {
    if |t| > 0 && t[0] == '\'' then ReadLiteralBody(t[1..]) else None
  }

  lemma {:induction false} ReadEscapedBody(s: string, rest: string)
    requires rest == [] || rest[0] != '\''
    ensures ReadLiteralBody(Escape(s) + "'" + rest) == Some((s, rest))
  {
    var t := Escape(s) + "'" + rest;
    if s == [] {
      assert t == "'" + rest;
      assert t[1..] == rest;
    } else {
      ReadEscapedBody(s[1..], rest);
      var e := Escape(s[1..]);
      var head := if s[0] == '\'' then "''" else [s[0]];
      assert Escape(s) == head + e;
      ConcatAssoc(head, e, "'");
      ConcatAssoc(head, e + "'", rest);
      DropConcat(head, e + "'" + rest);
      assert s == [s[0]] + s[1..];
    }
  }

  /** A quoted string parameter reads back as exactly one literal holding the
      original value: quotes inside it cannot end it early. (The text after
      it must not begin with a quote, which would continue the literal.) */
  lemma QuotedReadsBack(s: string, rest: string)
    requires rest == [] || rest[0] != '\''
    ensures ReadLiteral(Quote(s) + rest) == Some((s, rest))
  {
    var t := Quote(s) + rest;
    assert t[1..] == Escape(s) + "'" + rest;
    ReadEscapedBody(s, rest);
  }
}
