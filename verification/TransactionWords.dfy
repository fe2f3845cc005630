/**
 Statements, words and keywords, told letter by letter: which statements the boundary check takes for
 transaction statements, what an accepted file looks like in these terms, and that the case of the
 letters of its code does not matter.
 */
module TransactionWords {
  import opened Common
  import opened TextScan
  import opened SqlLexer
  import opened TransactionBoundary

  // ---------- characters ----------

  lemma SpaceIff(c: char)
    ensures Space(c) <==>
      c == ' ' || c == '\t' || c == '\n' || c == '\r' || c == '\U{0B}' || c == '\U{0C}'
      || c == '\U{1C}' || c == '\U{1D}' || c == '\U{1E}' || c == '\U{1F}'
  {
  }

  lemma LineBreakIff(c: char)
    ensures LineBreak(c) <==>
      c == '\n' || c == '\r' || c == '\U{0B}' || c == '\U{0C}' || c == '\U{1C}' || c == '\U{1D}' || c == '\U{1E}'
  {
  }

  /** A word that spells a keyword, each letter in either case. */
  predicate Spells(w: Text, keyword: Text) {
    |w| == |keyword| && forall k | 0 <= k < |w| ::
      w[k] == keyword[k] || ('A' <= keyword[k] <= 'Z' && w[k] as int == keyword[k] as int + 32)
  }

  predicate Capitals(keyword: Text) {
    forall k | 0 <= k < |keyword| :: !('a' <= keyword[k] <= 'z')
  }

  lemma SpellsIff(w: Text, keyword: Text)
    requires Capitals(keyword)
    ensures UpperText(w) == keyword <==> Spells(w, keyword)
  {
    if UpperText(w) == keyword {
      forall k | 0 <= k < |w|
        ensures w[k] == keyword[k] || ('A' <= keyword[k] <= 'Z' && w[k] as int == keyword[k] as int + 32)
      {
        assert Upper(w[k]) == keyword[k];
      }
    }
  }

  // ---------- words ----------

  predicate Blank(t: Text) {
    forall k | 0 <= k < |t| :: Space(t[k])
  }

  predicate Solid(w: Text) {
    w != [] && forall k | 0 <= k < |w| :: !Space(w[k])
  }

  /** Nothing, or a blank to begin with. */
  predicate Ends(rest: Text) {
    rest == [] || Space(rest[0])
  }

  lemma {:induction false} WordsOf(blank: Text, w: Text, rest: Text)
    requires Blank(blank) && Solid(w) && Ends(rest)
    ensures Words(blank + (w + rest)) == [UpperText(w)] + Words(rest)
    decreases |blank|
  {
    var t := blank + (w + rest);
    if blank == [] {
      assert t == w + rest;
      assert t[..|w|] == w && t[|w|..] == rest;
      RunIs(t, InWord, |w|);
      assert rest == [] ==> t == w;
    } else {
      assert t[1..] == blank[1..] + (w + rest);
      WordsOf(blank[1..], w, rest);
    }
  }

  lemma {:induction false} BlankIff(t: Text)
    ensures Words(t) == [] <==> Blank(t)
    decreases |t|
  {
    if t != [] && Space(t[0]) {
      BlankIff(t[1..]);
      assert Blank(t) <==> Blank(t[1..]) by {
        assert forall k | 0 < k < |t| :: t[k] == t[1..][k - 1];
      }
    }
  }

  /** The first word of a text that is not blank. */
  lemma {:induction false} FirstWord(t: Text) returns (blank: Text, w: Text, rest: Text)
    requires Words(t) != []
    ensures t == blank + (w + rest) && Blank(blank) && Solid(w) && Ends(rest)
    ensures Words(t) == [UpperText(w)] + Words(rest)
    decreases |t|
  {
    if Space(t[0]) {
      var back;
      back, w, rest := FirstWord(t[1..]);
      blank := [t[0]] + back;
      assert t == [t[0]] + t[1..];
      assert t == blank + (w + rest);
    } else {
      var n := Run(t, InWord);
      blank, w, rest := [], t[..n], t[n..];
      assert t == blank + (w + rest);
    }
    WordsOf(blank, w, rest);
  }

  // ---------- statements ----------

  /** The statement begins with one of these keywords, ... */
  ghost predicate BeginsWith(t: Text, keywords: set<Text>) {
    exists blank, w, rest, keyword ::
      && t == blank + (w + rest) && Blank(blank) && Solid(w) && Ends(rest)
      && keyword in keywords && Spells(w, keyword)
  }

  /** ... with two of them in a row, ... */
  ghost predicate BeginsWithTwo(t: Text, first: Text, second: Text) {
    exists blank, w, rest :: t == blank + (w + rest) && Blank(blank) && Solid(w) && Ends(rest)
                             && Spells(w, first) && BeginsWith(rest, {second})
  }

  /** ... or consists of one. */
  ghost predicate Is(t: Text, keyword: Text) {
    exists blank, w, rest :: t == blank + (w + rest) && Blank(blank) && Solid(w) && Blank(rest) && Spells(w, keyword)
  }

  lemma BeginsIff(t: Text, keywords: set<Text>)
    requires forall keyword | keyword in keywords :: Capitals(keyword)
    ensures BeginsWith(t, keywords) <==> Words(t) != [] && Words(t)[0] in keywords
  {
    if Words(t) != [] {
      var blank, w, rest := FirstWord(t);
      if Words(t)[0] in keywords {
        SpellsIff(w, Words(t)[0]);
      }
    }
    if BeginsWith(t, keywords) {
      var blank, w, rest, keyword :|
        && t == blank + (w + rest) && Blank(blank) && Solid(w) && Ends(rest)
        && keyword in keywords && Spells(w, keyword);
      WordsOf(blank, w, rest);
      SpellsIff(w, keyword);
    }
  }

  lemma BeginsTwoIff(t: Text, first: Text, second: Text)
    requires Capitals(first) && Capitals(second)
    ensures BeginsWithTwo(t, first, second) <==> |Words(t)| > 1 && Words(t)[0] == first && Words(t)[1] == second
  {
    if |Words(t)| > 1 && Words(t)[0] == first && Words(t)[1] == second {
      var blank, w, rest := FirstWord(t);
      SpellsIff(w, first);
      BeginsIff(rest, {second});
    }
    if BeginsWithTwo(t, first, second) {
      var blank, w, rest :| t == blank + (w + rest) && Blank(blank) && Solid(w) && Ends(rest)
                            && Spells(w, first) && BeginsWith(rest, {second});
      WordsOf(blank, w, rest);
      SpellsIff(w, first);
      BeginsIff(rest, {second});
    }
  }

  lemma IsIff(t: Text, keyword: Text)
    requires Capitals(keyword)
    ensures Is(t, keyword) <==> Words(t) == [keyword]
  {
    if Words(t) == [keyword] {
      var blank, w, rest := FirstWord(t);
      assert Words(t)[0] == UpperText(w) && |Words(rest)| == 0;
      SpellsIff(w, keyword);
      BlankIff(rest);
    }
    if Is(t, keyword) {
      var blank, w, rest :| t == blank + (w + rest) && Blank(blank) && Solid(w) && Blank(rest) && Spells(w, keyword);
      WordsOf(blank, w, rest);
      BlankIff(rest);
      SpellsIff(w, keyword);
      assert Words(t) == [UpperText(w)] + Words(rest);
    }
  }

  /** The transaction statements, in either case. */
  lemma TransactionIff(t: Text)
    ensures IsTransaction(Words(t)) <==>
      || BeginsWith(t, {"BEGIN", "COMMIT", "END", "ROLLBACK", "ABORT", "SAVEPOINT"})
      || BeginsWithTwo(t, "START", "TRANSACTION") || BeginsWithTwo(t, "RELEASE", "SAVEPOINT")
      || BeginsWithTwo(t, "PREPARE", "TRANSACTION")
  {
    BeginsIff(t, {"BEGIN", "COMMIT", "END", "ROLLBACK", "ABORT", "SAVEPOINT"});
    BeginsTwoIff(t, "START", "TRANSACTION");
    BeginsTwoIff(t, "RELEASE", "SAVEPOINT");
    BeginsTwoIff(t, "PREPARE", "TRANSACTION");
  }

  /** A transaction statement of any kind. */
  predicate Transacts(t: Text) {
    IsTransaction(Words(t))
  }

  // ---------- splitting ----------

  function Join(parts: seq<Text>): Text
    requires parts != []
  {
    if |parts| == 1 then parts[0] else parts[0] + (";" + Join(parts[1..]))
  }

  lemma Around(front: Text, end: Text, rest: Text)
    requires end != []
    ensures var t := front + (end + rest);
      && |t| == |front| + |end| + |rest| && t[|front|] == end[0] && (|end| > 1 ==> t[|front| + 1] == end[1])
      && (|end| == 1 && rest != [] ==> t[|front| + 1] == rest[0])
      && t[..|front|] == front && t[|front| + |end|..] == rest && forall k | 0 <= k < |front| :: t[k] == front[k]
  {
  }

  predicate Plain(part: Text) {
    forall k | 0 <= k < |part| :: part[k] != ';'
  }

  lemma PartFirst(part: Text, rest: Text)
    requires Plain(part)
    ensures SplitStatements(part) == [part]
    ensures SplitStatements(part + (";" + rest)) == [part] + SplitStatements(rest)
  {
    RunIs(part, InStatement, |part|);
    Around(part, ";", rest);
    RunIs(part + (";" + rest), InStatement, |part|);
  }

  lemma {:induction false} SplitJoin(parts: seq<Text>)
    requires parts != [] && forall k | 0 <= k < |parts| :: Plain(parts[k])
    ensures SplitStatements(Join(parts)) == parts
    decreases |parts|
  {
    if |parts| == 1 {
      PartFirst(parts[0], []);
    } else {
      SplitJoin(parts[1..]);
      PartFirst(parts[0], Join(parts[1..]));
    }
  }

  lemma JoinFirst(part: Text, parts: seq<Text>)
    requires parts != []
    ensures Join([part] + parts) == part + (";" + Join(parts))
  {
    assert ([part] + parts)[1..] == parts;
  }

  lemma {:induction false} JoinSplit(t: Text)
    ensures Join(SplitStatements(t)) == t && forall k | 0 <= k < |SplitStatements(t)| :: Plain(SplitStatements(t)[k])
    decreases |t|
  {
    var n := Run(t, InStatement);
    if n < |t| {
      JoinSplit(t[n + 1..]);
      JoinFirst(t[..n], SplitStatements(t[n + 1..]));
      Reassembled(t, n);
    }
  }

  lemma Reassembled(t: Text, n: nat)
    requires n < |t| && t[n] == ';'
    ensures t == t[..n] + (";" + t[n + 1..])
  {
  }

  /** The statements of a text are what stands between its semicolons. */
  lemma SplitIff(t: Text, parts: seq<Text>)
    ensures SplitStatements(t) == parts <==>
      parts != [] && Join(parts) == t && forall k | 0 <= k < |parts| :: Plain(parts[k])
  {
    JoinSplit(t);
    if parts != [] && Join(parts) == t && forall k | 0 <= k < |parts| :: Plain(parts[k]) {
      SplitJoin(parts);
    }
  }

  lemma LineFirst(line: Text, end: Text, rest: Text)
    requires end != [] && LineBreak(end[0]) && (|end| == 1 || end == ['\r', '\n']) && forall k | 0 <= k < |line| :: !LineBreak(line[k])
    requires end == ['\r'] ==> rest == [] || rest[0] != '\n'
    ensures SplitLines(line + (end + rest)) == [line] + SplitLines(rest)
  {
    Around(line, end, rest);
    RunIs(line + (end + rest), InLine, |line|);
  }

  /** A line ends at the first break, of which a carriage return with a line feed is one. */
  lemma LinesIff(line: Text, end: Text, rest: Text)
    requires forall k | 0 <= k < |line| :: !LineBreak(line[k])
    ensures line != [] ==> SplitLines(line) == [line]
    ensures end == ['\r', '\n'] ==> SplitLines(line + (end + rest)) == [line] + SplitLines(rest)
    ensures |end| == 1 && LineBreak(end[0]) && (end[0] == '\r' ==> rest == [] || rest[0] != '\n') ==>
      SplitLines(line + (end + rest)) == [line] + SplitLines(rest)
  {
    RunIs(line, InLine, |line|);
    if end == ['\r', '\n'] || (|end| == 1 && LineBreak(end[0]) && (end[0] == '\r' ==> rest == [] || rest[0] != '\n')) {
      LineFirst(line, end, rest);
    }
  }
}
