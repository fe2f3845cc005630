/**
 The boundary check as a reader of the file sees it: what an accepted file is, statement by statement
 and line by line.
 */
module TransactionReading {
  import opened Common
  import opened TextScan
  import opened SqlLexer
  import opened TransactionBoundary
  import opened TransactionWords

  // ---------- statements that are not blank ----------

  predicate AllBlank(parts: seq<Text>) {
    forall k | 0 <= k < |parts| :: Blank(parts[k])
  }

  lemma {:induction false} BlankParts(parts: seq<Text>)
    ensures NonBlank(parts) == [] <==> AllBlank(parts)
    decreases |parts|
  {
    if parts != [] {
      BlankIff(parts[0]);
      BlankParts(parts[1..]);
      assert AllBlank(parts) <==> Blank(parts[0]) && AllBlank(parts[1..]) by {
        assert forall k | 0 < k < |parts| :: parts[k] == parts[1..][k - 1];
      }
    }
  }

  lemma OneNonBlank(part: Text)
    ensures NonBlank([part]) == if Blank(part) then [] else [Words(part)]
  {
    BlankIff(part);
    assert NonBlank([part]) == (if Words(part) != [] then [Words(part)] else []) + NonBlank([part][1..]);
  }

  lemma FreeConcat(a: seq<seq<Text>>, b: seq<seq<Text>>)
    ensures Free(a + b) <==> Free(a) && Free(b)
  {
    assert forall i | 0 <= i < |a| :: (a + b)[i] == a[i];
    assert forall i | 0 <= i < |b| :: (a + b)[|a| + i] == b[i];
    assert forall i | |a| <= i < |a| + |b| :: (a + b)[i] == b[i - |a|];
  }

  predicate NoneTransacts(parts: seq<Text>) {
    forall k | 0 <= k < |parts| :: !Transacts(parts[k])
  }

  lemma {:induction false} FreeParts(parts: seq<Text>)
    ensures Free(NonBlank(parts)) <==> NoneTransacts(parts)
    decreases |parts|
  {
    if parts != [] {
      OneNonBlank(parts[0]);
      BlankIff(parts[0]);
      FreeParts(parts[1..]);
      assert parts == [parts[0]] + parts[1..];
      NonBlankConcat([parts[0]], parts[1..]);
      FreeConcat(NonBlank([parts[0]]), NonBlank(parts[1..]));
      assert NoneTransacts(parts) <==> !Transacts(parts[0]) && NoneTransacts(parts[1..]) by {
        assert forall k | 0 < k < |parts| :: parts[k] == parts[1..][k - 1];
      }
    }
  }

  /** Statements a and b, and nothing but blanks before and behind them. */
  predicate Outer(parts: seq<Text>, a: nat, b: nat) {
    && a < b < |parts| && !Blank(parts[a]) && !Blank(parts[b])
    && AllBlank(parts[..a]) && AllBlank(parts[b + 1..])
  }

  lemma {:induction false} EdgeWords(blank: seq<Text>, part: Text)
    requires AllBlank(blank) && !Blank(part)
    ensures NonBlank(blank + [part]) == [Words(part)] && NonBlank([part] + blank) == [Words(part)]
  {
    NonBlankConcat(blank, [part]);
    NonBlankConcat([part], blank);
    BlankParts(blank);
    OneNonBlank(part);
  }

  lemma OuterWords(parts: seq<Text>, a: nat, b: nat)
    requires Outer(parts, a, b)
    ensures NonBlank(parts) == [Words(parts[a])] + NonBlank(parts[a + 1..b]) + [Words(parts[b])]
  {
    var front, inner, back := parts[..a] + [parts[a]], parts[a + 1..b], [parts[b]] + parts[b + 1..];
    assert parts == front + (inner + back);
    EdgeWords(parts[..a], parts[a]);
    EdgeWords(parts[b + 1..], parts[b]);
    NonBlankConcat(front, inner + back);
    NonBlankConcat(inner, back);
  }

  lemma {:induction false} FirstOne(parts: seq<Text>) returns (a: nat)
    requires !AllBlank(parts)
    ensures a < |parts| && !Blank(parts[a]) && AllBlank(parts[..a])
    decreases |parts|
  {
    if Blank(parts[0]) {
      assert parts == [parts[0]] + parts[1..];
      var rest := FirstOne(parts[1..]);
      a := rest + 1;
      assert parts[..a] == [parts[0]] + parts[1..][..rest];
    } else {
      a := 0;
    }
  }

  lemma {:induction false} LastOne(parts: seq<Text>) returns (b: nat)
    requires !AllBlank(parts)
    ensures b < |parts| && !Blank(parts[b]) && AllBlank(parts[b + 1..])
    decreases |parts|
  {
    var last := |parts| - 1;
    if Blank(parts[last]) {
      assert parts == parts[..last] + [parts[last]];
      b := LastOne(parts[..last]);
      assert parts[b + 1..] == parts[..last][b + 1..] + [parts[last]];
    } else {
      b := last;
    }
  }

  /** BEGIN is the first statement, COMMIT the last, and none between them transacts. */
  ghost predicate OneTransaction(parts: seq<Text>) {
    exists a: nat, b: nat :: Outer(parts, a, b) && Is(parts[a], "BEGIN") && Is(parts[b], "COMMIT") && NoneTransacts(parts[a + 1..b])
  }

  lemma WrappedAround(s: seq<seq<Text>>, first: seq<Text>, inner: seq<seq<Text>>, last: seq<Text>)
    requires s == [first] + inner + [last]
    ensures Wrapped(s) <==> first == BEGIN && last == COMMIT && Free(inner)
  {
    assert forall i | 0 < i < |s| - 1 :: s[i] == inner[i - 1];
    assert forall i | 0 <= i < |inner| :: inner[i] == s[i + 1];
  }

  lemma WrappedParts(parts: seq<Text>)
    ensures Wrapped(NonBlank(parts)) <==> OneTransaction(parts)
  {
    if OneTransaction(parts) {
      var a: nat, b: nat :| Outer(parts, a, b) && Is(parts[a], "BEGIN") && Is(parts[b], "COMMIT") && NoneTransacts(parts[a + 1..b]);
      OuterIsWrapped(parts, a, b);
    }
    if Wrapped(NonBlank(parts)) {
      BlankParts(parts);
      var a := FirstOne(parts);
      var b := LastOne(parts);
      OnlyOne(parts, a, b);
      OuterIsWrapped(parts, a, b);
    }
  }

  lemma OuterIsWrapped(parts: seq<Text>, a: nat, b: nat)
    requires Outer(parts, a, b)
    ensures Wrapped(NonBlank(parts)) <==> Is(parts[a], "BEGIN") && Is(parts[b], "COMMIT") && NoneTransacts(parts[a + 1..b])
  {
    OuterWords(parts, a, b);
    WrappedAround(NonBlank(parts), Words(parts[a]), NonBlank(parts[a + 1..b]), Words(parts[b]));
    IsIff(parts[a], "BEGIN");
    IsIff(parts[b], "COMMIT");
    FreeParts(parts[a + 1..b]);
  }

  lemma OneAtMost(parts: seq<Text>, a: nat)
    requires a < |parts| && !Blank(parts[a]) && AllBlank(parts[..a]) && AllBlank(parts[a + 1..])
    ensures |NonBlank(parts)| == 1
  {
    assert parts == parts[..a] + ([parts[a]] + parts[a + 1..]);
    NonBlankConcat(parts[..a], [parts[a]] + parts[a + 1..]);
    EdgeWords(parts[a + 1..], parts[a]);
    BlankParts(parts[..a]);
  }

  /** Two statements are not one. */
  lemma OnlyOne(parts: seq<Text>, a: nat, b: nat)
    requires a < |parts| && b < |parts| && !Blank(parts[a]) && !Blank(parts[b])
    requires AllBlank(parts[..a]) && AllBlank(parts[b + 1..]) && |NonBlank(parts)| >= 2
    ensures a < b
  {
    assert forall k | 0 <= k < a :: Blank(parts[k]) by {
      assert forall k | 0 <= k < a :: parts[k] == parts[..a][k];
    }
    if a == b {
      OneAtMost(parts, a);
    }
  }

  // ---------- control lines ----------

  lemma {:induction false} StripOf(blank: Text, w: Text, rest: Text)
    requires Blank(blank) && Solid(w) && Blank(rest)
    ensures Strip(blank + (w + rest)) == w
    decreases |blank| + |rest|
  {
    var t := blank + (w + rest);
    if blank != [] {
      assert t[1..] == blank[1..] + (w + rest);
      StripOf(blank[1..], w, rest);
    } else if rest != [] {
      assert t[0] == w[0] && t[|t| - 1] == rest[|rest| - 1];
      assert t[..|t| - 1] == [] + (w + rest[..|rest| - 1]);
      StripOf([], w, rest[..|rest| - 1]);
    } else {
      assert t == w;
    }
  }

  lemma FrontAgain(t: Text, back: Text, rest: Text)
    requires t != [] && t[1..] == back + rest
    ensures t == [t[0]] + back + rest
  {
    assert t == [t[0]] + t[1..];
  }

  lemma BackAgain(t: Text, blank: Text, w: Text, back: Text)
    requires t != [] && t[..|t| - 1] == blank + (w + back)
    ensures t == blank + (w + (back + [t[|t| - 1]]))
  {
    assert t == t[..|t| - 1] + [t[|t| - 1]];
  }

  lemma {:induction false} StripSplits(t: Text) returns (blank: Text, rest: Text)
    ensures t == blank + (Strip(t) + rest) && Blank(blank) && Blank(rest)
    decreases |t|
  {
    if t != [] && Space(t[0]) {
      var back;
      back, rest := StripSplits(t[1..]);
      blank := [t[0]] + back;
      FrontAgain(t, back, Strip(t) + rest);
    } else if t != [] && Space(t[|t| - 1]) {
      var back;
      blank, back := StripSplits(t[..|t| - 1]);
      rest := back + [t[|t| - 1]];
      BackAgain(t, blank, Strip(t), back);
    } else {
      blank, rest := [], [];
      assert t == [] + (t + []);
    }
  }

  /** The line, stripped of its blanks, spells the keyword. */
  lemma StripIff(t: Text, keyword: Text)
    requires Capitals(keyword) && Solid(keyword)
    ensures UpperText(Strip(t)) == keyword <==> Is(t, keyword)
  {
    if UpperText(Strip(t)) == keyword {
      var blank, rest := StripSplits(t);
      SpellsIff(Strip(t), keyword);
      SolidSpelling(Strip(t), keyword);
    }
    if Is(t, keyword) {
      var blank, w, rest :| t == blank + (w + rest) && Blank(blank) && Solid(w) && Blank(rest) && Spells(w, keyword);
      StripOf(blank, w, rest);
      SpellsIff(w, keyword);
    }
  }

  lemma SolidSpelling(w: Text, keyword: Text)
    requires Solid(keyword) && Spells(w, keyword)
    ensures Solid(w)
  {
    assert forall k | 0 <= k < |w| :: !Space(keyword[k]);
  }

  /** A line that is nothing but a transaction control. */
  ghost predicate Control(line: Text) {
    Is(line, "BEGIN;") || Is(line, "COMMIT;") || Is(line, "ROLLBACK;")
  }

  lemma ControlIff(line: Text)
    ensures IsControl(line) <==> Control(line)
  {
    IsIff(line, "BEGIN;");
    IsIff(line, "COMMIT;");
    IsIff(line, "ROLLBACK;");
  }

  lemma ControlIsSolid(keyword: Text)
    requires keyword in CONTROLS
    ensures Capitals(keyword) && Solid(keyword)
  {
    forall k | 0 <= k < |keyword|
      ensures !Space(keyword[k])
    {
      SpaceIff(keyword[k]);
    }
  }

  lemma BareIff(raw: Text, visible: Text, keyword: Text)
    requires keyword in CONTROLS && Is(visible, keyword)
    ensures IsControl(visible) && (UpperText(Strip(raw)) == Words(visible)[0] <==> Is(raw, keyword))
  {
    ControlIsSolid(keyword);
    IsIff(visible, keyword);
    StripIff(raw, keyword);
  }

  // ---------- two controls ----------

  /** What each line adds to the list of controls, ... */
  function Cut(line: Text): seq<Text> {
    if IsControl(line) then Words(line) else []
  }

  function Cuts(lines: seq<Text>): seq<seq<Text>> {
    seq(|lines|, i requires 0 <= i < |lines| => Cut(lines[i]))
  }

  /** ... and all of it. */
  function Flat(cuts: seq<seq<Text>>): seq<Text> {
    if cuts == [] then [] else Flat(cuts[..|cuts| - 1]) + cuts[|cuts| - 1]
  }

  lemma {:induction false} ControlsAreFlat(lines: seq<Text>)
    ensures Controls(lines) == Flat(Cuts(lines))
    decreases |lines|
  {
    if lines != [] {
      var last := |lines| - 1;
      ControlsAreFlat(lines[..last]);
      assert Cuts(lines)[..last] == Cuts(lines[..last]);
      assert Cuts(lines)[last] == Cut(lines[last]);
    }
  }

  predicate Short(cuts: seq<seq<Text>>) {
    forall k | 0 <= k < |cuts| :: |cuts[k]| <= 1
  }

  lemma {:induction false} FlatNone(cuts: seq<seq<Text>>)
    ensures Flat(cuts) == [] <==> forall k | 0 <= k < |cuts| :: cuts[k] == []
    decreases |cuts|
  {
    if cuts != [] {
      FlatNone(cuts[..|cuts| - 1]);
      assert forall k | 0 <= k < |cuts| - 1 :: cuts[..|cuts| - 1][k] == cuts[k];
    }
  }

  /** The last line that adds something. */
  lemma {:induction false} FlatLast(cuts: seq<seq<Text>>, front: seq<Text>, x: Text) returns (j: nat)
    requires Short(cuts) && Flat(cuts) == front + [x]
    ensures j < |cuts| && cuts[j] == [x] && Flat(cuts[..j]) == front && forall k | j < k < |cuts| :: cuts[k] == []
    decreases |cuts|
  {
    var last := |cuts| - 1;
    var before := Flat(cuts[..last]);
    if cuts[last] == [] {
      assert before == front + [x];
      j := FlatLast(cuts[..last], front, x);
      assert cuts[..last][..j] == cuts[..j];
      assert forall k | j < k < last :: cuts[..last][k] == cuts[k];
    } else {
      j := last;
      assert cuts[last] == [cuts[last][0]];
      assert before == (before + cuts[last])[..|before|] == (front + [x])[..|front|] == front;
    }
  }

  lemma {:induction false} FlatUpTo(cuts: seq<seq<Text>>, j: nat)
    requires j < |cuts| && forall k | j < k < |cuts| :: cuts[k] == []
    ensures Flat(cuts) == Flat(cuts[..j]) + cuts[j]
    decreases |cuts|
  {
    var last := |cuts| - 1;
    if j < last {
      FlatUpTo(cuts[..last], j);
      assert cuts[..last][..j] == cuts[..j];
    }
  }

  predicate Two(cuts: seq<seq<Text>>, i: nat, j: nat, x: Text, y: Text) {
    && i < j < |cuts| && cuts[i] == [x] && cuts[j] == [y]
    && forall k | 0 <= k < |cuts| && k != i && k != j :: cuts[k] == []
  }

  lemma FlatTwo(cuts: seq<seq<Text>>, x: Text, y: Text) returns (i: nat, j: nat)
    requires Short(cuts) && Flat(cuts) == [x, y]
    ensures Two(cuts, i, j, x, y)
  {
    j := FlatLast(cuts, [x], y);
    i := FlatLast(cuts[..j], [], x);
    FlatNone(cuts[..j][..i]);
    assert forall k | 0 <= k < i :: cuts[k] == cuts[..j][..i][k];
    assert forall k | i < k < j :: cuts[k] == cuts[..j][k];
  }

  lemma TwoFlat(cuts: seq<seq<Text>>, i: nat, j: nat, x: Text, y: Text)
    requires Two(cuts, i, j, x, y)
    ensures Flat(cuts) == [x, y]
  {
    FlatUpTo(cuts, j);
    FlatUpTo(cuts[..j], i);
    FlatNone(cuts[..j][..i]);
  }

  /** Lines i and j are the only controls. */
  ghost predicate TwoControls(lines: seq<Text>, i: nat, j: nat) {
    && i < j < |lines| && Is(lines[i], "BEGIN;") && Is(lines[j], "COMMIT;")
    && forall k | 0 <= k < |lines| && k != i && k != j :: !Control(lines[k])
  }

  lemma CutIff(line: Text)
    ensures |Cut(line)| <= 1
    ensures Cut(line) == [] <==> !Control(line)
    ensures Cut(line) == ["BEGIN;"] <==> Is(line, "BEGIN;")
    ensures Cut(line) == ["COMMIT;"] <==> Is(line, "COMMIT;")
  {
    ControlIff(line);
    IsIff(line, "BEGIN;");
    IsIff(line, "COMMIT;");
  }

  lemma TwoControlsIff(lines: seq<Text>, i: nat, j: nat)
    ensures TwoControls(lines, i, j) <==> Two(Cuts(lines), i, j, "BEGIN;", "COMMIT;")
  {
    forall k | 0 <= k < |lines|
      ensures Cuts(lines)[k] == [] <==> !Control(lines[k])
      ensures Cuts(lines)[k] == ["BEGIN;"] <==> Is(lines[k], "BEGIN;")
      ensures Cuts(lines)[k] == ["COMMIT;"] <==> Is(lines[k], "COMMIT;")
    {
      CutIff(lines[k]);
    }
  }

  lemma ControlsIff(lines: seq<Text>)
    ensures Controls(lines) == ["BEGIN;", "COMMIT;"] <==> exists i: nat, j: nat :: TwoControls(lines, i, j)
  {
    ControlsAreFlat(lines);
    if Controls(lines) == ["BEGIN;", "COMMIT;"] {
      forall k | 0 <= k < |lines|
        ensures |Cuts(lines)[k]| <= 1
      {
        CutIff(lines[k]);
      }
      var i, j := FlatTwo(Cuts(lines), "BEGIN;", "COMMIT;");
      TwoControlsIff(lines, i, j);
    }
    if i: nat, j: nat :| TwoControls(lines, i, j) {
      TwoControlsIff(lines, i, j);
      TwoFlat(Cuts(lines), i, j, "BEGIN;", "COMMIT;");
    }
  }

  // ---------- accepted files ----------

  /** Each line of the visible text that is nothing but a control is one in the source as well. */
  ghost predicate ControlsStandBare(raw: seq<Text>, lines: seq<Text>) {
    |raw| == |lines| && forall i, keyword | 0 <= i < |raw| && keyword in CONTROLS && Is(lines[i], keyword) ::
      Is(raw[i], keyword)
  }

  lemma BareLines(raw: seq<Text>, lines: seq<Text>)
    ensures ControlsBare(raw, lines) <==> ControlsStandBare(raw, lines)
  {
    if |raw| == |lines| {
      forall i, keyword | 0 <= i < |raw| && keyword in CONTROLS && Is(lines[i], keyword)
        ensures IsControl(lines[i]) && (UpperText(Strip(raw[i])) == Words(lines[i])[0] <==> Is(raw[i], keyword))
      {
        BareIff(raw[i], lines[i], keyword);
      }
      forall i | 0 <= i < |raw|
        ensures IsControl(lines[i]) <==> exists keyword :: keyword in CONTROLS && Is(lines[i], keyword)
      {
        ControlIff(lines[i]);
      }
    }
  }

  /** What is demanded of a file and what is visible of it. */
  ghost predicate Keeps(source: Text, visible: Text) {
    var lines, parts := SplitLines(visible), SplitStatements(visible);
    && '\\' !in source
    && ControlsStandBare(SplitLines(source), lines)
    && !AllBlank(parts)
    && (NoneTransacts(parts) || (OneTransaction(parts) && exists i: nat, j: nat :: TwoControls(lines, i, j)))
  }

  lemma BoundedIff(source: Text, visible: Text)
    ensures Bounded(source, Some(visible)) <==> Keeps(source, visible)
  {
    var lines, parts := SplitLines(visible), SplitStatements(visible);
    BareLines(SplitLines(source), lines);
    BlankParts(parts);
    FreeParts(parts);
    WrappedParts(parts);
    ControlsIff(lines);
  }

  /** A file is accepted exactly when it has no backslash, the lexer takes it, its visible control lines are
      bare, and its visible statements, not all of them blank, hold no transaction statement or are one
      transaction, whose BEGIN and COMMIT are the only control lines. */
  lemma AcceptedIff(source: Text)
    ensures Accepted(source) <==> Lex(Normal, source).Some? && Keeps(source, Lex(Normal, source).value)
  {
    if Lex(Normal, source).Some? {
      BoundedIff(source, Lex(Normal, source).value);
    }
  }

  lemma OuterPlaces(parts: seq<Text>, a: nat, b: nat)
    requires Outer(parts, a, b) && NoneTransacts(parts[a + 1..b])
    ensures forall i | 0 <= i < a || b < i < |parts| :: Blank(parts[i])
    ensures forall i | a < i < b :: !Transacts(parts[i])
  {
    assert forall i | 0 <= i < a :: parts[i] == parts[..a][i];
    assert forall i | b < i < |parts| :: parts[i] == parts[b + 1..][i - b - 1];
    assert forall i | a < i < b :: parts[i] == parts[a + 1..b][i - a - 1];
  }

  /** If a visible statement of an accepted file begins, in either case, with one of the transaction keywords, then
      the first statement is BEGIN, the last is COMMIT, and it is one of the two. */
  lemma {:induction false} OnlyOneTransaction(source: Text, k: nat) returns (a: nat, b: nat)
    requires Accepted(source) && k < |SplitStatements(Lex(Normal, source).value)|
    requires var t := SplitStatements(Lex(Normal, source).value)[k];
      || BeginsWith(t, {"BEGIN", "COMMIT", "END", "ROLLBACK", "ABORT", "SAVEPOINT"})
      || BeginsWithTwo(t, "START", "TRANSACTION") || BeginsWithTwo(t, "RELEASE", "SAVEPOINT")
      || BeginsWithTwo(t, "PREPARE", "TRANSACTION")
    ensures var parts := SplitStatements(Lex(Normal, source).value);
      && a < b < |parts| && Is(parts[a], "BEGIN") && Is(parts[b], "COMMIT")
      && (forall i | 0 <= i < a || b < i < |parts| :: Blank(parts[i]))
      && (k == a || k == b)
  {
    var parts := SplitStatements(Lex(Normal, source).value);
    AcceptedIff(source);
    TransactionIff(parts[k]);
    assert Transacts(parts[k]) && OneTransaction(parts);
    a, b :| Outer(parts, a, b) && Is(parts[a], "BEGIN") && Is(parts[b], "COMMIT") && NoneTransacts(parts[a + 1..b]);
    OuterPlaces(parts, a, b);
    BlankIff(parts[k]);
  }
}
