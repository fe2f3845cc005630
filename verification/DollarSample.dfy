/**
 Code that the lexer of the migration checks does not see.  Between two identifiers that contain dollars
 it sees a dollar quote, so a file may hold any statements there and is accepted as one that holds no
 transaction statement; and it sees a literal between two quotes whose tags are not of ASCII characters.
 */
module DollarSample {
  import opened Common
  import opened TextScan
  import opened SqlLexer
  import opened SqlErasure
  import opened SqlPieces
  import opened TransactionBoundary
  import opened SqlIdentifiers
  import TransactionWords

  // ---------- plain code in both lexings ----------

  /** Characters that begin nothing. */
  predicate Plain(c: char) {
    c != '-' && c != '/' && c != '$' && !IsQuote(c)
  }

  predicate PlainText(t: Text) {
    forall k | 0 <= k < |t| :: Plain(t[k])
  }

  lemma PrependAgain(a: Text, b: Text, r: Option<Text>)
    ensures Prepend(a, Prepend(b, r)) == Prepend(a + b, r)
  {
    if r.Some? {
      assert a + (b + r.value) == a + b + r.value;
    }
  }

  lemma CodeFirst(c: char, rest: Text)
    requires ValidPiece(Code(c), rest)
    ensures Lex(Normal, [c] + rest) == Prepend([c], Lex(Normal, rest))
  {
    ReadPiece(Code(c), rest);
    LexBites([c] + rest);
  }

  lemma {:induction false} LexPlain(code: Text, rest: Text)
    requires PlainText(code)
    ensures Lex(Normal, code + rest) == Prepend(code, Lex(Normal, rest))
    decreases |code|
  {
    if code == [] {
      assert code + rest == rest;
      PrependNothing(Lex(Normal, rest));
    } else {
      var back := code[1..];
      assert code == [code[0]] + back && code + rest == [code[0]] + (back + rest);
      CodeFirst(code[0], back + rest);
      LexPlain(back, rest);
      PrependAgain([code[0]], back, Lex(Normal, rest));
    }
  }

  /** Whether the lexing is within an identifier behind the code. */
  predicate Within(word: bool, code: Text)
    decreases |code|
  {
    if code == [] then word else Within(Continues(word, code[0]), code[1..])
  }

  /** Plain characters, and dollars only within identifiers. */
  predicate Open(word: bool, code: Text)
    decreases |code|
  {
    code == [] || ((Plain(code[0]) || (code[0] == '$' && word)) && Open(Continues(word, code[0]), code[1..]))
  }

  lemma {:induction false} PlainIsOpen(word: bool, code: Text)
    requires PlainText(code)
    ensures Open(word, code)
    decreases |code|
  {
    if code != [] {
      PlainIsOpen(Continues(word, code[0]), code[1..]);
    }
  }

  lemma {:induction false} WordsOpen(word: bool, code: Text, rest: Text)
    requires Open(word, code)
    ensures LexWords(word, code + rest) == Prepend(code, LexWords(Within(word, code), rest))
    decreases |code|
  {
    if code == [] {
      assert code + rest == rest;
      PrependNothing(LexWords(word, rest));
    } else {
      var back := code[1..];
      assert code == [code[0]] + back && code + rest == [code[0]] + (back + rest);
      ReadWord(word, Code(code[0]), back + rest);
      WordsOpen(Continues(word, code[0]), back, rest);
      PrependAgain([code[0]], back, LexWords(Within(word, code), rest));
    }
  }

  lemma {:induction false} EndsWithin(word: bool, code: Text)
    requires code != [] && WordStart(code[|code| - 1])
    ensures Within(word, code)
    decreases |code|
  {
    if |code| > 1 {
      EndsWithin(Continues(word, code[0]), code[1..]);
    }
  }

  // ---------- a file that hides its statements ----------

  const QUOTE: Text := "$b$"

  function Quoted(code: Text): Text {
    ";" + (code + ";y")
  }

  /** For example x$b$;COMMIT;y$b$ on one line. */
  function File(code: Text): Text {
    "x" + (QUOTE + Quoted(code) + QUOTE + [])
  }

  /** Code on one line, in which nothing begins a comment, a literal or a dollar quote. */
  predicate OneLine(code: Text) {
    PlainText(code) && forall k | 0 <= k < |code| :: InLine(code[k]) && code[k] != '\\'
  }

  lemma {:induction false} FindFresh(body: Text, d: Text)
    requires d != [] && d[0] !in body
    ensures Find(body + d, d) == Some(|body|)
    decreases |body|
  {
    if body == [] {
      assert body + d == d;
    } else {
      assert (body + d)[0] == body[0] && body[0] in body;
      assert (body + d)[1..] == body[1..] + d;
      FindFresh(body[1..], d);
    }
  }

  lemma QuoteIsDelimiter()
    ensures DelimiterLen(QUOTE) == Some(3)
  {
    assert Run(QUOTE[1..], TagContinue) == 1;
  }

  /** Plain code in front of a dollar quote. */
  lemma {:induction false} LexAround(head: Text, d: Text, body: Text)
    requires PlainText(head) && DelimiterLen(d) == Some(|d|) && Find(body + d, d) == Some(|body|)
    ensures Lex(Normal, head + (d + body + d + [])) == Some(head + (" " + LineEnds(body)))
  {
    LexPlain(head, d + body + d + []);
    ReadDollar(d, body, []);
    LexBites(d + body + d + []);
    assert " " + LineEnds(body) + [] == " " + LineEnds(body);
  }

  lemma QuotedIsPlain(code: Text)
    requires OneLine(code)
    ensures PlainText(Quoted(code)) && '$' !in Quoted(code) && '\n' !in Quoted(code)
  {
  }

  /** The lexer sees one word. */
  lemma FileSeen(code: Text)
    requires OneLine(code)
    ensures Lex(Normal, File(code)) == Some("x" + (" " + []))
  {
    QuotedIsPlain(code);
    QuoteIsDelimiter();
    FindFresh(Quoted(code), QUOTE);
    LexAround("x", QUOTE, Quoted(code));
    NoLineEnds(Quoted(code));
  }

  /** As the manual has it all of the file is code. */
  lemma FileStandsOpen(code: Text)
    requires OneLine(code)
    ensures LexWords(false, File(code)) == Some(File(code))
  {
    QuotedIsPlain(code);
    var body := Quoted(code);
    assert File(code) == "x" + (QUOTE + (body + (QUOTE + [])));
    assert Open(true, QUOTE) && Within(true, QUOTE);
    PlainIsOpen(true, body);
    EndsWithin(true, body);
    WordsOpen(false, "x", QUOTE + (body + (QUOTE + [])));
    WordsOpen(true, QUOTE, body + (QUOTE + []));
    WordsOpen(true, body, QUOTE + []);
    WordsOpen(true, QUOTE, []);
  }

  // ---------- statements and lines ----------

  lemma {:induction false} JoinConcat(a: seq<Text>, b: seq<Text>)
    requires a != [] && b != []
    ensures TransactionWords.Join(a + b) == TransactionWords.Join(a) + (";" + TransactionWords.Join(b))
    decreases |a|
  {
    if |a| == 1 {
      TransactionWords.JoinFirst(a[0], b);
      assert a == [a[0]];
    } else {
      JoinConcat(a[1..], b);
      TransactionWords.JoinFirst(a[0], a[1..]);
      TransactionWords.JoinFirst(a[0], a[1..] + b);
      assert [a[0]] + (a[1..] + b) == a + b && [a[0]] + a[1..] == a;
    }
  }

  /** The statements of two texts around a semicolon. */
  lemma SplitAround(a: Text, b: Text)
    ensures SplitStatements(a + (";" + b)) == SplitStatements(a) + SplitStatements(b)
  {
    TransactionWords.JoinSplit(a);
    TransactionWords.JoinSplit(b);
    JoinConcat(SplitStatements(a), SplitStatements(b));
    TransactionWords.SplitJoin(SplitStatements(a) + SplitStatements(b));
  }

  lemma StatementsAround(a: Text, b: Text)
    ensures Statements(a + (";" + b)) == Statements(a) + Statements(b)
  {
    SplitAround(a, b);
    NonBlankConcat(SplitStatements(a), SplitStatements(b));
  }

  predicate IsWord(w: Text) {
    w != [] && forall k | 0 <= k < |w| :: !Space(w[k]) && w[k] != ';'
  }

  lemma {:induction false} OneWord(w: Text)
    requires IsWord(w)
    ensures Words(w) == [UpperText(w)] && Words(w + (" " + [])) == [UpperText(w)]
  {
    var t := w + (" " + []);
    RunIs(w, InWord, |w|);
    RunIs(t, InWord, |w|);
    assert t[..|w|] == w && t[|w|..] == [' '] && [' '][1..] == [];
    assert Words([' ']) == [];
  }

  lemma OneStatement(t: Text)
    requires ';' !in t && Words(t) != []
    ensures Statements(t) == [Words(t)]
  {
    assert forall k | 0 <= k < |t| :: t[k] in t;
    RunIs(t, InStatement, |t|);
    assert SplitStatements(t) == [t];
    assert NonBlank([t]) == [Words(t)] + NonBlank([t][1..]);
  }

  /** Statements between two words. */
  lemma StatementsBetween(x: Text, code: Text, y: Text)
    requires IsWord(x) && IsWord(y)
    ensures Statements(x + (";" + (code + (";" + y)))) == [[UpperText(x)]] + (Statements(code) + [[UpperText(y)]])
  {
    StatementsAround(x, code + (";" + y));
    StatementsAround(code, y);
    OneWord(x);
    OneWord(y);
    OneStatement(x);
    OneStatement(y);
  }

  /** No control, and no transaction statement, begins with these letters. */
  lemma NoControl(t: Text)
    requires t != [] && t[0] in {'x', 'y'}
    ensures !IsControl(t) && !IsTransaction([UpperText(t)])
  {
    assert Words(t)[0][0] == Upper(t[0]);
    assert UpperText(t)[0] == Upper(t[0]);
  }

  /** Any code on one line is accepted between the two identifiers.  As the manual has it the statements of
      the file are those of the code, and one on either side, so that it keeps the boundary only if the code
      holds no transaction statement. */
  lemma CodeIsHidden(code: Text)
    requires OneLine(code)
    ensures Accepted(File(code))
    ensures LexWords(false, File(code)) == Some(File(code))
    ensures Bounded(File(code), LexWords(false, File(code))) <==> Free(Statements(code))
  {
    FileSeen(code);
    FileStandsOpen(code);
    FileIsLine(code);
    SeenIsFree();
    FileFreeIff(code);
    OneLineIsBare(File(code), Seen());
    OneLineIsBare(File(code), File(code));
    BoundedIff(File(code), Seen());
    BoundedIff(File(code), File(code));
  }

  lemma FileIsLine(code: Text)
    requires OneLine(code)
    ensures '\\' !in File(code) && File(code) != [] && File(code)[0] == 'x' && forall k | 0 <= k < |File(code)| :: InLine(File(code)[k])
  {
  }

  lemma {:induction false} BoundedIff(source: Text, visible: Text)
    requires '\\' !in source && ControlsBare(SplitLines(source), SplitLines(visible))
    requires Statements(visible) != [] && !Wrapped(Statements(visible))
    ensures Bounded(source, Some(visible)) <==> Free(Statements(visible))
  {
  }

  /** What the lexer sees of a file. */
  function Seen(): Text {
    "x" + (" " + [])
  }

  lemma SeenIsFree()
    ensures Statements(Seen()) != [] && Free(Statements(Seen())) && !Wrapped(Statements(Seen()))
  {
    OneWord("x");
    OneStatement(Seen());
    NoControl("x");
  }

  lemma {:induction false} OneLineIsBare(raw: Text, visible: Text)
    requires raw != [] && visible != [] && visible[0] in {'x', 'y'}
    requires (forall k | 0 <= k < |raw| :: InLine(raw[k])) && (forall k | 0 <= k < |visible| :: InLine(visible[k]))
    ensures ControlsBare(SplitLines(raw), SplitLines(visible))
  {
    RunIs(raw, InLine, |raw|);
    RunIs(visible, InLine, |visible|);
    NoControl(visible);
  }

  lemma FreeBetween(x: seq<Text>, inner: seq<seq<Text>>, y: seq<Text>)
    requires !IsTransaction(x) && !IsTransaction(y)
    ensures var all := [x] + (inner + [y]); !Wrapped(all) && (Free(all) <==> Free(inner))
  {
    var all := [x] + (inner + [y]);
    assert forall i | 0 <= i < |inner| :: all[i + 1] == inner[i];
    assert forall i | 0 < i < |all| - 1 :: all[i] == inner[i - 1];
    assert IsTransaction(BEGIN);
  }

  lemma FileFreeIff(code: Text)
    ensures Statements(File(code)) != [] && !Wrapped(Statements(File(code)))
    ensures Free(Statements(File(code))) <==> Free(Statements(code))
  {
    var x, y := "x" + QUOTE, "y" + QUOTE;
    assert File(code) == x + (";" + (code + (";" + y)));
    StatementsBetween(x, code, y);
    NoControl(x);
    NoControl(y);
    FreeBetween([UpperText(x)], Statements(code), [UpperText(y)]);
  }

  lemma WordIsHidden(w: Text)
    requires OneLine(w) && IsWord(w) && IsTransaction([UpperText(w)])
    ensures Accepted(File(w)) && !Bounded(File(w), LexWords(false, File(w)))
  {
    CodeIsHidden(w);
    OneWord(w);
    assert forall k | 0 <= k < |w| :: w[k] in w;
    OneStatement(w);
    assert IsTransaction(Statements(w)[0]);
  }

  /** The file x$b$;COMMIT;y$b$ is accepted, and commits. */
  lemma CommitIsHidden()
    ensures Accepted(File("COMMIT")) && !Bounded(File("COMMIT"), LexWords(false, File("COMMIT")))
  {
    assert UpperText("COMMIT") == "COMMIT";
    WordIsHidden("COMMIT");
  }

  // ---------- a tag that the lexer does not take ----------

  function Foreign(c: char): Text {
    ['$', c, '$']
  }

  /** A dollar that no delimiter begins with. */
  lemma NoDelimiter(rest: Text)
    requires rest == [] || (rest[0] != '$' && !TagStart(rest[0]))
    ensures DelimiterLen(['$'] + rest) == None
  {
  }

  lemma ForeignText(c: char, rest: Text)
    ensures Foreign(c) + rest == ['$'] + ([c] + (['$'] + rest)) && ['$'] + ([c] + ['$']) == Foreign(c)
  {
  }

  /** The dollars of such a tag are code to the lexer, in front of anything that does not begin one. */
  lemma ForeignIsCode(c: char, rest: Text)
    requires c as int >= 128 && (rest == [] || (rest[0] != '$' && !TagStart(rest[0])))
    ensures Lex(Normal, Foreign(c) + rest) == Prepend(Foreign(c), Lex(Normal, rest))
  {
    var inner, last := [c] + (['$'] + rest), ['$'] + rest;
    ForeignText(c, rest);
    NoDelimiter(inner);
    NoDelimiter(rest);
    CodeFirst('$', inner);
    CodeFirst(c, last);
    CodeFirst('$', rest);
    PrependAgain([c], ['$'], Lex(Normal, rest));
    PrependAgain(['$'], [c] + ['$'], Lex(Normal, rest));
  }

  lemma {:induction false} Unquoted(body: Text)
    requires '\'' !in body
    ensures Doubled('\'', body)
    decreases |body|
  {
    if body != [] {
      Unquoted(body[1..]);
    }
  }

  lemma LexLiteral(body: Text, rest: Text)
    requires '\'' !in body && (rest == [] || rest[0] != '\'')
    ensures Lex(Normal, ['\''] + body + ['\''] + rest) == Prepend(" " + LineEnds(body), Lex(Normal, rest))
  {
    Unquoted(body);
    ReadPiece(Literal('\'', body), rest);
    LexBites(['\''] + body + ['\''] + rest);
  }

  /** Two quotations of a quote, with code between them. */
  function Quotations(c: char, code: Text): Text {
    Foreign(c) + (['\''] + (Foreign(c) + code + Foreign(c)) + ['\''] + Foreign(c))
  }

  /** The lexer takes the code between them for a literal, ... */
  lemma TagHidesCode(c: char, code: Text)
    requires c as int >= 128 && '\'' !in code
    ensures Lex(Normal, Quotations(c, code))
      == Some(Foreign(c) + (" " + LineEnds(Foreign(c) + code + Foreign(c)) + Foreign(c)))
  {
    var body := Foreign(c) + code + Foreign(c);
    ForeignIsCode(c, ['\''] + body + ['\''] + Foreign(c));
    LexLiteral(body, Foreign(c));
    ForeignIsCode(c, []);
    assert Foreign(c) + [] == Foreign(c);
  }

  lemma WordsQuotation(c: char, rest: Text)
    requires c as int >= 128
    ensures LexWords(false, Foreign(c) + ['\''] + Foreign(c) + rest) == Prepend(" ", LexWords(false, rest))
  {
    var p := DollarLiteral(Foreign(c), ['\'']);
    assert Run(Foreign(c)[1..], WordContinue) == 1;
    FindFresh(['\''], Foreign(c));
    ReadWord(false, p, rest);
    assert LineEnds(['\'']) == [] by { NoLineEnds(['\'']); }
    assert Shown(p) == " ";
  }

  lemma QuotationsText(c: char, code: Text)
    ensures Quotations(c, code) == Foreign(c) + ['\''] + Foreign(c) + (code + (Foreign(c) + ['\''] + Foreign(c) + []))
  {
  }

  /** ... which as the manual has it stands in the open. */
  lemma CodeStandsOpen(c: char, code: Text)
    requires c as int >= 128 && PlainText(code) && !Within(false, code)
    ensures LexWords(false, Quotations(c, code)) == Some(" " + (code + " "))
  {
    var last := Foreign(c) + ['\''] + Foreign(c) + [];
    QuotationsText(c, code);
    WordsQuotation(c, code + last);
    PlainIsOpen(false, code);
    WordsOpen(false, code, last);
    WordsQuotation(c, []);
    assert " " + [] == " ";
  }
}
