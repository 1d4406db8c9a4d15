/** The migration script (scripts/migrate.ts): the schema file is cut into
    statements at every ";", each piece is trimmed, blank pieces are
    dropped, and the statements are sent to the database one at a time,
    each with its ";" put back, stopping at the first one that fails. */
module Migrate {
  import opened Wrappers
  import opened Strings

  /** The file the script reads, relative to the working directory. */
  const MigrationPath: string := "lib/db/migrations/001_initial.sql"

  /** The process exit code after a failure. */
  const FailureExitCode: int := 1

  /** Every character of `trim(s)` is a character of `s`. */
  lemma TrimWithin(s: string)
    ensures forall c :: c in Trim(s) ==> c in s
  {
    var u := TrimStart(s);
    TrimStartSuffix(s);
    assert Trim(s) == u[..|Trim(s)|];
    forall c | c in Trim(s) ensures c in s {
      var k :| 0 <= k < |Trim(s)| && Trim(s)[k] == c;
      assert u[k] == c;
      assert s[|s| - |u| + k] == c;
    }
  }

  /** `.map((s) => s.trim()).filter((s) => s.length > 0)` */
  function TrimmedPieces(parts: seq<string>): (r: seq<string>)
    ensures forall k :: 0 <= k < |r| ==> r[k] != ""
  {
    if parts == [] then []
    else
      var t := Trim(parts[0]);
      (if t != "" then [t] else []) + TrimmedPieces(parts[1..])
  }

  /** No piece kept has white space at either end. */
  lemma {:induction false} PiecesTrimmed(parts: seq<string>)
    ensures forall k :: 0 <= k < |TrimmedPieces(parts)| ==> Trimmed(TrimmedPieces(parts)[k])
  {
    if parts != [] {
      TrimIsTrimmed(parts[0]);
      PiecesTrimmed(parts[1..]);
    }
  }

  /** A character no piece contains is in no trimmed piece either. */
  lemma {:induction false} PiecesAvoid(parts: seq<string>, c: char)
    requires forall j :: 0 <= j < |parts| ==> c !in parts[j]
    ensures forall k :: 0 <= k < |TrimmedPieces(parts)| ==> c !in TrimmedPieces(parts)[k]
  {
    if parts != [] {
      TrimWithin(parts[0]);
      PiecesAvoid(parts[1..], c);
    }
  }

  /** The statements of a migration file. */
  function Statements(sql: string): (r: seq<string>)
    ensures forall k :: 0 <= k < |r| ==> r[k] != ""
  {
    TrimmedPieces(SplitOn(sql, ';'))
  }

  /** No statement has white space at either end or a ";" inside. */
  lemma StatementsShape(sql: string)
    ensures forall k :: 0 <= k < |Statements(sql)| ==>
              Trimmed(Statements(sql)[k]) && ';' !in Statements(sql)[k]
  {
    PiecesTrimmed(SplitOn(sql, ';'));
    SplitOnJoin(sql, ';');
    PiecesAvoid(SplitOn(sql, ';'), ';');
  }

  lemma PiecesAssoc(a: seq<string>, b: seq<string>, c: seq<string>)
    ensures a + (b + c) == a + b + c
  {
  }

  lemma PiecesTail(a: seq<string>, b: seq<string>)
    requires a != []
    ensures (a + b)[0] == a[0] && (a + b)[1..] == a[1..] + b
  {
  }

  lemma {:induction false} TrimmedPiecesAppend(a: seq<string>, b: seq<string>)
    ensures TrimmedPieces(a + b) == TrimmedPieces(a) + TrimmedPieces(b)
  {
    if a == [] {
      assert a + b == b;
    } else {
      PiecesTail(a, b);
      TrimmedPiecesAppend(a[1..], b);
      var t := Trim(a[0]);
      PiecesAssoc(if t != "" then [t] else [], TrimmedPieces(a[1..]), TrimmedPieces(b));
    }
  }

  /** Splitting at a separator placed between two texts splits each text
      on its own. */
  lemma {:induction false} SplitOnAppend(a: string, b: string, sep: char)
    ensures SplitOn(a + [sep] + b, sep) == SplitOn(a, sep) + SplitOn(b, sep)
  {
    if a == [] {
      assert a + [sep] + b == [sep] + b;
      assert ([sep] + b)[1..] == b;
    } else {
      ConcatAssoc(a, [sep], b);
      DropConcat([a[0]], a[1..] + ([sep] + b));
      assert a == [a[0]] + a[1..];
      ConcatAssoc([a[0]], a[1..], [sep] + b);
      ConcatAssoc(a[1..], [sep], b);
      SplitOnAppend(a[1..], b, sep);
      var first := SplitOn(a[1..], sep);
      var second := SplitOn(b, sep);
      if a[0] == sep {
        PiecesAssoc([""], first, second);
      } else {
        PiecesTail(first, second);
        PiecesAssoc([[a[0]] + first[0]], first[1..], second);
      }
    }
  }

  /** A text without the separator is one piece. */
  lemma {:induction false} SplitOnFree(s: string, sep: char)
    requires sep !in s
    ensures SplitOn(s, sep) == [s]
  {
    if s != [] {
      SplitOnFree(s[1..], sep);
      assert s == [s[0]] + s[1..];
    }
  }

  /** Statements of two texts joined by ";" are the statements of the one
      followed by those of the other. */
  lemma StatementsAppend(a: string, b: string)
    ensures Statements(a + ";" + b) == Statements(a) + Statements(b)
  {
    SplitOnAppend(a, b, ';');
    TrimmedPiecesAppend(SplitOn(a, ';'), SplitOn(b, ';'));
  }

  /** A single statement is read back as itself. */
  lemma StatementsOfOne(s: string)
    requires s != "" && Trimmed(s) && ';' !in s
    ensures Statements(s) == [s]
  {
    SplitOnFree(s, ';');
    TrimOfPadded([], s, []);
    assert [] + s + [] == s;
    assert TrimmedPieces([s]) == [Trim(s)] + TrimmedPieces([]);
  }

  /** A file written as statements joined by ";" yields exactly those
      statements, in order. */
  lemma {:induction false} StatementsOfJoin(stmts: seq<string>)
    requires forall k :: 0 <= k < |stmts| ==> stmts[k] != "" && Trimmed(stmts[k]) && ';' !in stmts[k]
    ensures Statements(Join(stmts, ";")) == stmts
  {
    if |stmts| == 0 {
      assert Statements("") == TrimmedPieces([""]);
      assert Trim("") == "";
    } else if |stmts| == 1 {
      StatementsOfOne(stmts[0]);
    } else {
      var rest := Join(stmts[1..], ";");
      assert Join(stmts, ";") == stmts[0] + ";" + rest;
      StatementsOfJoin(stmts[1..]);
      StatementsAppend(stmts[0], rest);
      StatementsOfOne(stmts[0]);
      assert stmts == [stmts[0]] + stmts[1..];
    }
  }

  /** Pieces that are all white space yield no statements. */
  lemma {:induction false} BlankHasNoStatements(parts: seq<string>)
    requires forall k :: 0 <= k < |parts| ==> AllSpace(parts[k])
    ensures TrimmedPieces(parts) == []
  {
    if parts != [] {
      TrimEmptyIffAllSpace(parts[0]);
      BlankHasNoStatements(parts[1..]);
    }
  }

  /** The loop of the script: each statement is sent with its ";" put
      back, in order, until one fails. The exit code is 0 when all of them
      went through and 1 otherwise, in which case the last statement sent
      is the first one that failed. */
  method RunStatements(statements: seq<string>, fails: string -> bool) returns (executed: seq<string>, exitCode: int)
    ensures |executed| <= |statements|
    ensures forall k :: 0 <= k < |executed| ==> executed[k] == statements[k] + ";"
    ensures forall k :: 0 <= k < |executed| - 1 ==> !fails(executed[k])
    ensures exitCode == 0 <==> |executed| == |statements| && forall k :: 0 <= k < |executed| ==> !fails(executed[k])
    ensures exitCode != 0 ==> exitCode == FailureExitCode && |executed| > 0 && fails(executed[|executed| - 1])
  {
    executed := [];
    var i := 0;
    while i < |statements|
      invariant 0 <= i <= |statements|
      invariant |executed| == i
      invariant forall k :: 0 <= k < i ==> executed[k] == statements[k] + ";"
      invariant forall k :: 0 <= k < i ==> !fails(executed[k])
    {
      var sql := statements[i] + ";";
      executed := executed + [sql];
      if fails(sql) {
        return executed, FailureExitCode;
      }
      i := i + 1;
    }
    exitCode := 0;
  }

  /** The script. `source` is the migration file's text, `None` when it
      (or the database client) could not be obtained, which exits with 1
      before anything is sent; `fails` says which statement the database
      rejects. */
  method RunMigrations(source: Option<string>, fails: string -> bool) returns (executed: seq<string>, exitCode: int)
    ensures source.None? ==> executed == [] && exitCode == FailureExitCode
    ensures source.Some? ==>
              var stmts := Statements(source.value);
              |executed| <= |stmts| &&
              (forall k :: 0 <= k < |executed| ==> executed[k] == stmts[k] + ";") &&
              (forall k :: 0 <= k < |executed| - 1 ==> !fails(executed[k])) &&
              (exitCode == 0 <==> |executed| == |stmts| && forall k :: 0 <= k < |executed| ==> !fails(executed[k])) &&
              (exitCode != 0 ==> exitCode == FailureExitCode && |executed| > 0 && fails(executed[|executed| - 1]))
  {
    if source.None? {
      return [], FailureExitCode;
    }
    executed, exitCode := RunStatements(Statements(source.value), fails);
  }

  /** Each statement sent ends in the one ";" it contains. */
  lemma SentStatementShape(source: string, k: int)
    requires 0 <= k < |Statements(source)|
    ensures var sql := Statements(source)[k] + ";";
            |sql| >= 2 && sql[|sql| - 1] == ';' && ';' !in sql[..|sql| - 1]
  {
    StatementsShape(source);
    var s := Statements(source)[k];
    assert (s + ";")[..|s|] == s;
  }
}
