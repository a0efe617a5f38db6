/**
 * The migration runner: the SQL text is cut at every ";", the pieces are trimmed and
 * the empty ones dropped; statements that begin with a "--" comment are skipped and
 * the rest are executed in order until the first one the database rejects.
 *
 * Reading the file and the database call are not modelled: the text is a parameter
 * and the database's verdict on each statement is a function.
 */
module Migration {
  import opened Text
  import opened Seqs

  predicate NonEmpty(s: string) { |s| > 0 }

  const CommentMark := "--"

  predicate IsComment(s: string) { StartsWith(s, CommentMark) }

  predicate Runs(s: string) { !IsComment(s) }

  /** Every piece between semicolons, trimmed, the empty ones included. */
  function Pieces(sql: string): (r: seq<string>)
    ensures |r| == |Split(sql, ';')|
    ensures forall i :: 0 <= i < |r| ==> r[i] == Trim(Split(sql, ';')[i]) && ';' !in r[i]
  {
    var pieces := Split(sql, ';');
    var trimmed := Map(pieces, Trim);
    assert forall i :: 0 <= i < |trimmed| ==> ';' !in trimmed[i] by {
      forall i | 0 <= i < |trimmed| ensures ';' !in trimmed[i] {
        assert trimmed[i] == Trim(pieces[i]);
      }
    }
    trimmed
  }

  /**
   * The statements of a migration: the trimmed non-empty pieces between semicolons,
   * in order, one per non-empty piece.
   */
  function Statements(sql: string): (r: seq<string>)
    ensures forall i :: 0 <= i < |r| ==> |r[i]| > 0 && IsTrimmed(r[i]) && ';' !in r[i]
    ensures |r| <= |Split(sql, ';')|
    ensures IsSubsequence(r, Pieces(sql))
    ensures forall i :: 0 <= i < |Pieces(sql)| && |Pieces(sql)[i]| > 0 ==> Pieces(sql)[i] in r
    ensures |r| == |Indices(Pieces(sql), NonEmpty)|
  {
    var pieces := Pieces(sql);
    KeptPieces(pieces);
    Filter(pieces, NonEmpty)
  }

  /** Dropping the empty ones from trimmed, semicolon-free pieces keeps the others in order, one each. */
  lemma KeptPieces(pieces: seq<string>)
    requires forall i :: 0 <= i < |pieces| ==> IsTrimmed(pieces[i]) && ';' !in pieces[i]
    ensures forall i :: 0 <= i < |Filter(pieces, NonEmpty)| ==>
      var s := Filter(pieces, NonEmpty)[i]; |s| > 0 && IsTrimmed(s) && ';' !in s
    ensures IsSubsequence(Filter(pieces, NonEmpty), pieces)
    ensures forall i :: 0 <= i < |pieces| && |pieces[i]| > 0 ==> pieces[i] in Filter(pieces, NonEmpty)
    ensures |Filter(pieces, NonEmpty)| == |Indices(pieces, NonEmpty)|
  {
    FilterIsSubsequence(pieces, NonEmpty);
    CountIndices(pieces, NonEmpty);
  }

  /**
   * Cutting at the first semicolon: the first piece, if it has any content, is the
   * first statement and the rest of the text supplies the others.
   */
  lemma StatementsAfterPiece(a: string, b: string)
    requires ';' !in a
    ensures Statements(a + ";" + b) ==
      (if IsBlank(a) then [] else [Trim(a)]) + Statements(b)
  {
    assert a + ";" + b == a + [';'] + b;
    SplitAfterPiece(a, ';', b);
    var pieces := Pieces(a + ";" + b);
    assert pieces == [Trim(a)] + Pieces(b) by {
      assert |pieces| == 1 + |Pieces(b)|;
      forall i | 0 <= i < |pieces| ensures pieces[i] == ([Trim(a)] + Pieces(b))[i] {
        if i > 0 {
          assert Split(a + ";" + b, ';')[i] == Split(b, ';')[i - 1];
        }
      }
    }
    FilterCons(Trim(a), Pieces(b), NonEmpty);
  }

  /** The statements that are executed: all but those opening with a comment. */
  function ToRun(sql: string): (r: seq<string>)
    ensures IsSubsequence(r, Statements(sql))
    ensures forall s :: s in r <==> s in Statements(sql) && !IsComment(s)
    ensures |r| == |Indices(Statements(sql), Runs)|
  {
    FilterIsSubsequence(Statements(sql), Runs);
    CountIndices(Statements(sql), Runs);
    Filter(Statements(sql), Runs)
  }

  /**
   * Splitting ignores SQL quoting: two trimmed pieces around a semicolon become two
   * statements, even when the semicolon sits inside a string literal such as
   * `INSERT INTO t VALUES ('a;b')`.
   */
  lemma SemicolonAlwaysSplits(a: string, b: string)
    requires |a| > 0 && |b| > 0 && IsTrimmed(a) && IsTrimmed(b)
    requires ';' !in a && ';' !in b
    ensures Statements(a + ";" + b) == [a, b]
  {
    SplitAfterPiece(a, ';', b);
    SplitWithoutSeparator(b, ';');
    assert a + ";" + b == a + [';'] + b;
    var trimmed := Map([a, b], Trim);
    assert trimmed == [a, b];
    assert [a, b][1..] == [b];
    assert Filter([b], NonEmpty) == [b];
  }

  /** A trimmed non-empty text without semicolons is one statement. */
  lemma SingleStatement(s: string)
    requires |s| > 0 && IsTrimmed(s) && ';' !in s
    ensures Statements(s) == [s]
  {
    SplitWithoutSeparator(s, ';');
    assert Map([s], Trim) == [s] by {
      assert Map([s], Trim)[0] == Trim(s) == s;
    }
    assert Filter([s], NonEmpty) == [s] by {
      assert [s][1..] == [];
    }
  }

  /** Text after a comment's opening does not change that it opens with a comment. */
  lemma CommentStaysComment(comment: string, rest: string)
    requires StartsWith(comment, CommentMark)
    ensures StartsWith(comment + rest, CommentMark) && (comment + rest)[0] == '-'
  {
    assert (comment + rest)[..2] == comment[..2];
  }

  /**
   * A statement whose first line is a comment is skipped whole, although SQL follows
   * the comment on the next line.
   */
  lemma CommentHidesStatement(comment: string, body: string)
    requires StartsWith(comment, CommentMark)
    requires ';' !in comment && ';' !in body
    requires |body| > 0 && !IsWhite(body[|body| - 1])
    ensures Statements(comment + "\n" + body) == [comment + "\n" + body]
    ensures ToRun(comment + "\n" + body) == []
  {
    var s := comment + "\n" + body;
    CommentLineStatement(comment, body);
    assert IsComment(s);
  }

  lemma CommentLineStatement(comment: string, body: string)
    requires StartsWith(comment, CommentMark)
    requires ';' !in comment && ';' !in body
    requires |body| > 0 && !IsWhite(body[|body| - 1])
    ensures Statements(comment + "\n" + body) == [comment + "\n" + body]
    ensures IsComment(comment + "\n" + body)
  {
    var s := comment + "\n" + body;
    CommentStaysComment(comment, "\n" + body);
    assert s[|s| - 1] == body[|body| - 1];
    assert ';' !in s;
    SingleStatement(s);
  }

  /** The prefix of `s` up to `i + 1` filters as the prefix up to `i` plus one element. */
  lemma FilterPrefix(s: seq<string>, i: nat, p: string -> bool)
    requires i < |s|
    ensures Filter(s[..i + 1], p) == Filter(s[..i], p) + (if p(s[i]) then [s[i]] else [])
  {
    assert s[..i + 1] == s[..i] + [s[i]];
    FilterAppend(s[..i], [s[i]], p);
    assert [s[i]][1..] == [];
  }

  /**
   * A run of the statements `run`: what was sent is a prefix of them, every statement
   * sent but the last was accepted, exit code 0 means all were sent and accepted, and
   * exit code 1 means the last one sent was rejected.
   */
  predicate RanInOrder(run: seq<string>, rejects: string -> bool, sent: seq<string>, exitCode: int) {
    && |sent| <= |run| && sent == run[..|sent|]
    && (forall i :: 0 <= i < |sent| - 1 ==> !rejects(sent[i]))
    && (exitCode == 0 ==> sent == run && forall i :: 0 <= i < |sent| ==> !rejects(sent[i]))
    && (exitCode == 1 ==> |sent| > 0 && rejects(sent[|sent| - 1]))
    && (exitCode == 0 || exitCode == 1)
  }

  /**
   * Applying a migration: the statements run in order; the first one the database
   * rejects ends the run with exit code 1, and none after it is attempted. Returns
   * the statements sent to the database and the exit code.
   */
  method ApplyMigration(sql: string, rejects: string -> bool) returns (sent: seq<string>, exitCode: int)
    ensures RanInOrder(ToRun(sql), rejects, sent, exitCode)
  {
    sent, exitCode := RunStatements(Statements(sql), rejects);
  }

  /** The loop over the statements, skipping comments and stopping at the first rejection. */
  method RunStatements(statements: seq<string>, rejects: string -> bool) returns (sent: seq<string>, exitCode: int)
    ensures RanInOrder(Filter(statements, Runs), rejects, sent, exitCode)
  {
    sent := [];
    var i := 0;
    while i < |statements|
      invariant 0 <= i <= |statements|
      invariant sent == Filter(statements[..i], Runs)
      invariant forall k :: 0 <= k < |sent| ==> !rejects(sent[k])
    {
      FilterPrefix(statements, i, Runs);
      var statement := statements[i];
      if StartsWith(statement, CommentMark) {
        i := i + 1;
        continue;
      }
      sent := sent + [statement];
      if rejects(statement) {
        StoppedAtRejection(statements, i, rejects);
        return sent, 1;
      }
      i := i + 1;
    }
    assert statements[..i] == statements;
    return sent, 0;
  }

  /** A run that reaches a rejected statement after accepted ones stops there with exit code 1. */
  lemma StoppedAtRejection(statements: seq<string>, i: nat, rejects: string -> bool)
    requires i < |statements| && Runs(statements[i]) && rejects(statements[i])
    requires var before := Filter(statements[..i], Runs);
      forall k :: 0 <= k < |before| ==> !rejects(before[k])
    ensures RanInOrder(Filter(statements, Runs), rejects, Filter(statements[..i + 1], Runs), 1)
  {
    FilterPrefix(statements, i, Runs);
    PrefixOfRun(statements, i + 1);
  }

  /** What runs from a prefix of the statements is a prefix of what runs from all of them. */
  lemma PrefixOfRun(statements: seq<string>, n: nat)
    requires n <= |statements|
    ensures var f := Filter(statements, Runs);
      var g := Filter(statements[..n], Runs);
      |g| <= |f| && g == f[..|g|]
  {
    assert statements == statements[..n] + statements[n..];
    FilterAppend(statements[..n], statements[n..], Runs);
  }
}
