/**
 The transaction boundary of a production migration: a file that is accepted either has no visible
 transaction statement, or is one transaction, BEGIN first and COMMIT last, each on its own line.
 */
module TransactionBoundary {
  import opened Common
  import opened TextScan
  import opened SqlLexer

  datatype Error = MetaCommand | LexerInvalid | LinesDiffer | BoundaryInvalid | Empty

  // ---------- lines, statements and words ----------

  predicate Space(c: char) {
    c in " \t\n\r\U{0B}\U{0C}\U{1C}\U{1D}\U{1E}\U{1F}"
  }

  predicate LineBreak(c: char) {
    c in "\n\r\U{0B}\U{0C}\U{1C}\U{1D}\U{1E}"
  }

  predicate InLine(c: char) {
    !LineBreak(c)
  }

  predicate InStatement(c: char) {
    c != ';'
  }

  predicate InWord(c: char) {
    !Space(c)
  }

  /** `splitlines`: a break ends a line, and a carriage return before a line feed is part of it. */
  function SplitLines(t: Text): seq<Text> {
    if t == [] then []
    else
      var n := Run(t, InLine);
      if n >= |t| then [t]
      else [t[..n]] + SplitLines(t[if t[n] == '\r' && n + 1 < |t| && t[n + 1] == '\n' then n + 2 else n + 1..])
  }

  /** `split(";")` */
  function SplitStatements(t: Text): (parts: seq<Text>)
    ensures parts != []
  {
    var n := Run(t, InStatement);
    if n >= |t| then [t] else [t[..n]] + SplitStatements(t[n + 1..])
  }

  function Upper(c: char): char {
    if 'a' <= c <= 'z' then (c as int - 32) as char else c
  }

  function UpperText(t: Text): Text {
    seq(|t|, i requires 0 <= i < |t| => Upper(t[i]))
  }

  /** `split()`: the words of a text, in upper case. */
  function Words(t: Text): (words: seq<Text>)
    ensures forall i | 0 <= i < |words| :: words[i] != []
  {
    if t == [] then []
    else if Space(t[0]) then Words(t[1..])
    else
      var n := Run(t, InWord);
      if n >= |t| then [UpperText(t)] else [UpperText(t[..n])] + Words(t[n..])
  }

  /** `strip()` */
  function Strip(t: Text): Text {
    if t != [] && Space(t[0]) then Strip(t[1..])
    else if t != [] && Space(t[|t| - 1]) then Strip(t[..|t| - 1])
    else t
  }

  /** The statements that are not blank, as their words. */
  function NonBlank(parts: seq<Text>): seq<seq<Text>> {
    if parts == [] then []
    else (if Words(parts[0]) != [] then [Words(parts[0])] else []) + NonBlank(parts[1..])
  }

  function Statements(visible: Text): seq<seq<Text>> {
    NonBlank(SplitStatements(visible))
  }

  const BEGIN: seq<Text> := ["BEGIN"]
  const COMMIT: seq<Text> := ["COMMIT"]
  const CONTROLS: set<Text> := {"BEGIN;", "COMMIT;", "ROLLBACK;"}

  predicate IsTransaction(words: seq<Text>) {
    words != [] &&
      ( || words[0] in {"BEGIN", "COMMIT", "END", "ROLLBACK", "ABORT", "SAVEPOINT"}
        || (|words| > 1 && (words[0], words[1]) in
              {("START", "TRANSACTION"), ("RELEASE", "SAVEPOINT"), ("PREPARE", "TRANSACTION")}))
  }

  function Transactions(statements: seq<seq<Text>>): seq<seq<Text>> {
    if statements == [] then []
    else (if IsTransaction(statements[0]) then [statements[0]] else []) + Transactions(statements[1..])
  }

  // ---------- the check ----------

  /** A visible line that is nothing but a transaction control. */
  predicate IsControl(line: Text) {
    |Words(line)| == 1 && Words(line)[0] in CONTROLS
  }

  /** Every such line is one in the source too, with nothing erased from it. */
  predicate ControlsBare(raw: seq<Text>, visible: seq<Text>) {
    |raw| == |visible| && forall i | 0 <= i < |raw| && IsControl(visible[i]) :: UpperText(Strip(raw[i])) == Words(visible[i])[0]
  }

  function Controls(visible: seq<Text>): seq<Text> {
    if visible == [] then []
    else Controls(visible[..|visible| - 1]) + (if IsControl(visible[|visible| - 1]) then Words(visible[|visible| - 1]) else [])
  }

  /** The whole file is one transaction. */
  predicate Wrapped(statements: seq<seq<Text>>) {
    && |statements| >= 2 && statements[0] == BEGIN && statements[|statements| - 1] == COMMIT
    && forall i | 0 < i < |statements| - 1 :: !IsTransaction(statements[i])
  }

  predicate Free(statements: seq<seq<Text>>) {
    forall i | 0 <= i < |statements| :: !IsTransaction(statements[i])
  }

  /** What is demanded of a source and the visible text that a lexer makes of it. */
  predicate Bounded(source: Text, lexed: Option<Text>) {
    && '\\' !in source
    && lexed.Some?
    && ControlsBare(SplitLines(source), SplitLines(lexed.value))
    && Statements(lexed.value) != []
    && (Free(Statements(lexed.value))
        || (Wrapped(Statements(lexed.value)) && Controls(SplitLines(lexed.value)) == ["BEGIN;", "COMMIT;"]))
  }

  /** The files that are accepted. */
  predicate Accepted(source: Text) {
    Bounded(source, Lex(Normal, source))
  }

  // ---------- counting transaction statements ----------

  lemma {:induction false} NoneIffFree(statements: seq<seq<Text>>)
    ensures Transactions(statements) == [] <==> Free(statements)
  {
    if statements != [] {
      NoneIffFree(statements[1..]);
      assert Free(statements) <==> !IsTransaction(statements[0]) && Free(statements[1..]) by {
        assert forall i | 0 <= i < |statements[1..]| :: statements[1..][i] == statements[i + 1];
        assert forall i | 0 < i < |statements| :: statements[i] == statements[1..][i - 1];
      }
    }
  }

  lemma {:induction false} LastTransaction(statements: seq<seq<Text>>)
    requires statements != [] && IsTransaction(statements[|statements| - 1])
    ensures Transactions(statements) == Transactions(statements[..|statements| - 1]) + [statements[|statements| - 1]]
  {
    if |statements| > 1 {
      var rest := statements[1..];
      LastTransaction(rest);
      assert rest[..|rest| - 1] == statements[..|statements| - 1][1..];
      assert Transactions(statements[..|statements| - 1])
        == (if IsTransaction(statements[0]) then [statements[0]] else []) + Transactions(rest[..|rest| - 1]);
    } else {
      assert Transactions(statements) == [statements[0]] + Transactions(statements[1..]);
      assert statements[..0] == [] && Transactions(statements[1..]) == [];
    }
  }

  lemma WrappedTransactions(statements: seq<seq<Text>>) returns (inner: seq<seq<Text>>)
    requires |statements| >= 2 && statements[0] == BEGIN && statements[|statements| - 1] == COMMIT
    ensures inner == statements[1..|statements| - 1]
    ensures Transactions(statements) == [BEGIN] + Transactions(inner) + [COMMIT]
  {
    inner := statements[1..|statements| - 1];
    LastTransaction(statements);
    var front := statements[..|statements| - 1];
    assert front[0] == BEGIN && front[1..] == inner;
    assert Transactions(front) == [BEGIN] + Transactions(inner);
  }

  lemma InnerIsFree(statements: seq<seq<Text>>, inner: seq<seq<Text>>)
    requires |statements| >= 2 && statements[0] == BEGIN && statements[|statements| - 1] == COMMIT
    requires inner == statements[1..|statements| - 1]
    ensures Free(inner) <==> Wrapped(statements)
  {
    assert forall i | 0 < i < |statements| - 1 :: statements[i] == inner[i - 1];
    assert forall i | 0 <= i < |inner| :: inner[i] == statements[i + 1];
  }

  /** Exactly BEGIN and COMMIT, in front and at the end, is the same as one transaction. */
  lemma {:induction false} WrappedIff(statements: seq<seq<Text>>)
    requires statements != []
    ensures Wrapped(statements)
      <==> Transactions(statements) == [BEGIN, COMMIT] && statements[0] == BEGIN && statements[|statements| - 1] == COMMIT
  {
    if |statements| >= 2 && statements[0] == BEGIN && statements[|statements| - 1] == COMMIT {
      var inner := WrappedTransactions(statements);
      NoneIffFree(inner);
      InnerIsFree(statements, inner);
      assert |Transactions(statements)| == |Transactions(inner)| + 2;
    }
  }

  lemma {:induction false} NonBlankConcat(a: seq<Text>, b: seq<Text>)
    ensures NonBlank(a + b) == NonBlank(a) + NonBlank(b)
    decreases |a|
  {
    if a == [] {
      assert a + b == b;
    } else {
      assert (a + b)[0] == a[0] && (a + b)[1..] == a[1..] + b;
      NonBlankConcat(a[1..], b);
    }
  }

  // ---------- the check as it runs ----------

  method CollectControls(raw: seq<Text>, visible: seq<Text>) returns (controls: Option<seq<Text>>)
    requires |raw| == |visible|
    ensures controls.Some? <==> ControlsBare(raw, visible)
    ensures controls.Some? ==> controls.value == Controls(visible)
  {
    var found: seq<Text> := [];
    for i := 0 to |raw|
      invariant forall k | 0 <= k < i && IsControl(visible[k]) :: UpperText(Strip(raw[k])) == Words(visible[k])[0]
      invariant found == Controls(visible[..i])
    {
      var words := Words(visible[i]);
      assert visible[..i + 1][..i] == visible[..i];
      if |words| == 1 && words[0] in CONTROLS {
        if UpperText(Strip(raw[i])) != words[0] {
          return None;
        }
        found := found + words;
      }
    }
    assert visible[..|visible|] == visible;
    return Some(found);
  }

  method ValidateTransactionBoundary(source: Text) returns (raised: Option<Error>)
    ensures raised.None? <==> Accepted(source)
  {
    if '\\' in source {
      return Some(MetaCommand);
    }
    var lexed := LexVisibleSql(source);
    if lexed.None? {
      return Some(LexerInvalid);
    }
    var visible := lexed.value;
    var raw, lines := SplitLines(source), SplitLines(visible);
    if |raw| != |lines| {
      return Some(LinesDiffer);
    }
    var controls := CollectControls(raw, lines);
    if controls.None? {
      return Some(BoundaryInvalid);
    }
    var statements := Statements(visible);
    if statements == [] {
      return Some(Empty);
    }
    var transactions := Transactions(statements);
    NoneIffFree(statements);
    WrappedIff(statements);
    if transactions == [] {
      return None;
    }
    if controls.value != ["BEGIN;", "COMMIT;"] || transactions != [BEGIN, COMMIT]
       || statements[0] != BEGIN || statements[|statements| - 1] != COMMIT {
      return Some(BoundaryInvalid);
    }
    return None;
  }
}
