/**
 The lexer as it runs: cursors that advance over the whole source.  Each method is the lexer of
 `RustLexer` at the position it is given; the lemmas say what its token list leaves out.
 */
module RustTokenizer {
  import opened Common
  import opened NestedComments
  import opened RustLexer
  import opened TextScan

  function ShiftLiteral(r: Literal, i: nat): Literal {
    match r case Ends(n) => Ends(i + n) case other => other
  }

  method RunEnd(source: Text, start: nat, p: char -> bool) returns (index: nat)
    requires start <= |source|
    ensures index == start + Run(source[start..], p)
  {
    index := start;
    while index < |source| && p(source[index])
      invariant start <= index <= |source|
      invariant start + Run(source[start..], p) == index + Run(source[index..], p)
    {
      Behind(source, index, 1);
      index := index + 1;
    }
  }

  lemma QuotedStep(s: Text, i: nat, next: nat)
    requires i < |s| && s[i] != '"' && next == i + if s[i] == '\\' then 2 else 1
    ensures next <= |s| ==> Shift(QuotedLen(s[i..]), i) == Shift(QuotedLen(s[next..]), next)
    ensures next > |s| ==> QuotedLen(s[i..]) == None
  {
    if next <= |s| {
      Behind(s, i, next - i);
    }
  }

  method QuotedEnd(source: Text, quote: nat) returns (end: Option<nat>)
    requires quote < |source|
    ensures end == Shift(QuotedLen(source[quote + 1..]), quote + 1)
  {
    var index := quote + 1;
    ghost var expected := Shift(QuotedLen(source[quote + 1..]), quote + 1);
    while index < |source|
      invariant index <= |source| ==> expected == Shift(QuotedLen(source[index..]), index)
      invariant index > |source| ==> expected == None
    {
      if source[index] == '\\' {
        QuotedStep(source, index, index + 2);
        index := index + 2;
      } else if source[index] == '"' {
        return Some(index + 1);
      } else {
        QuotedStep(source, index, index + 1);
        index := index + 1;
      }
    }
    return None;
  }

  const RAW_PREFIXES: seq<Text> := ["br", "cr", "r"]

  lemma RawOpenAt(s: Text, i: nat, hashes: nat, open: nat)
    requires i <= hashes <= |s| && hashes == i + RawPrefix(s[i..])
    requires open == hashes + Run(s[hashes..], Hash)
    ensures open == i + RawOpen(s[i..])
  {
    Behind(s, i, hashes - i);
  }

  lemma RawAbsent(t: Text)
    requires RawOpen(t) == |t| || t[RawOpen(t)] != '"'
    ensures RawLen(t) == Absent
  {
  }

  lemma RawFrom(t: Text, open: nat, back: Text)
    requires open == RawOpen(t) < |t| && t[open] == '"' && RawPrefix(t) > 0 && back == t[open + 1..]
    ensures RawLen(t) == match Find(back, RawClosing(t))
                         case None => Unterminated
                         case Some(j) => Ends(open + 1 + j + |RawClosing(t)|)
  {
  }

  lemma RawAt(s: Text, i: nat, open: nat)
    requires i <= open < |s| && open == i + RawOpen(s[i..]) && s[open] == '"' && RawPrefix(s[i..]) > 0
    ensures var closing := RawClosing(s[i..]);
      ShiftLiteral(RawLen(s[i..]), i)
      == match Find(s[open + 1..], closing)
         case None => Unterminated
         case Some(j) => Ends(open + 1 + j + |closing|)
  {
    Slices(s, i, open + 1);
    RawFrom(s[i..], open - i, s[open + 1..]);
  }

  method RawStringBehind(source: Text, start: nat, prefix: Text) returns (end: Literal)
    requires start < |source| && |prefix| == RawPrefix(source[start..]) > 0
    ensures end == ShiftLiteral(RawLen(source[start..]), start)
  {
    var index := RunEnd(source, start + |prefix|, Hash);
    RawOpenAt(source, start, start + |prefix|, index);
    if index >= |source| || source[index] != '"' {
      RawAbsent(source[start..]);
      return Absent;
    }
    var closing := ['"'] + Hashes(index - start - |prefix|);
    RawAt(source, start, index);
    match Find(source[index + 1..], closing) {
      case None => return Unterminated;
      case Some(j) => return Ends(index + 1 + j + |closing|);
    }
  }

  method RawStringEnd(source: Text, start: nat) returns (end: Literal)
    requires start < |source|
    ensures end == ShiftLiteral(RawLen(source[start..]), start)
  {
    ghost var t := source[start..];
    var k := 0;
    while k < |RAW_PREFIXES|
      invariant 0 <= k <= |RAW_PREFIXES|
      invariant RawLen(t) == Absent
        || (&& (k > 0 ==> !Starts(t, 'b', 'r'))
            && (k > 1 ==> !Starts(t, 'c', 'r'))
            && (k > 2 ==> t[0] != 'r'))
    {
      var prefix := RAW_PREFIXES[k];
      k := k + 1;
      if prefix <= source[start..] {
        assert |prefix| == RawPrefix(t);
        end := RawStringBehind(source, start, prefix);
        if end != Absent {
          return;
        }
      }
    }
    return Absent;
  }

  method CharacterEnd(source: Text, quote: nat) returns (end: Literal)
    requires quote < |source| && source[quote] == '\''
    ensures end == ShiftLiteral(CharLen(source[quote..]), quote)
  {
    var index := quote + 1;
    if index >= |source| || source[index] in {'\'', '\r', '\n'} {
      return Absent;
    }
    if source[index] == '\\' {
      index := index + 1;
      if index >= |source| {
        return Unterminated;
      }
      if source[index] == 'u' && index + 1 < |source| && source[index + 1] == '{' {
        Behind(source, quote, 4);
        match Find(source[index + 2..], "}") {
          case None => return Unterminated;
          case Some(j) => index := index + 2 + j + 1;
        }
      } else if source[index] == 'x' {
        index := index + 3;
      } else {
        index := index + 1;
      }
    } else {
      index := index + 1;
    }
    end := if index < |source| && source[index] == '\'' then Ends(index + 1) else Absent;
  }

  lemma NumericFrom(u: Unicode, t: Text, n: nat, back: Text, m: nat)
    requires n == IntegerLen(t) && back == t[n..]
    requires m == if RadixOf(t) == Decimal then DecimalRestLen(u, back) else SuffixLen(back)
    ensures n + m == NumericLen(u, t)
  {
  }

  lemma NumericAt(u: Unicode, s: Text, i: nat, a: nat, b: nat)
    requires i <= a <= |s| && a == i + IntegerLen(s[i..])
    requires b == a + if RadixOf(s[i..]) == Decimal then DecimalRestLen(u, s[a..]) else SuffixLen(s[a..])
    ensures b == i + NumericLen(u, s[i..])
  {
    Slices(s, i, a);
    NumericFrom(u, s[i..], a - i, s[a..], b - a);
  }

  lemma IntegerAt(s: Text, i: nat, digits: nat, a: nat)
    requires i <= digits <= |s| && digits == i + if RadixOf(s[i..]) == Decimal then 0 else 2
    requires a == digits + Run(s[digits..], c => RadixDigit(RadixOf(s[i..]), c))
    ensures a == i + IntegerLen(s[i..])
  {
    Behind(s, i, digits - i);
  }

  method NumericEnd(u: Unicode, source: Text, start: nat) returns (index: nat)
    requires start < |source|
    ensures index == start + NumericLen(u, source[start..])
  {
    var radix := RadixOf(source[start..]);
    var digits := if radix == Decimal then start else start + 2;
    var integer := RunEnd(source, digits, c => RadixDigit(radix, c));
    IntegerAt(source, start, digits, integer);
    if radix == Decimal {
      index := DecimalRestEnd(u, source, integer);
    } else {
      index := SuffixEnd(source, integer);
    }
    NumericAt(u, source, start, integer, index);
  }

  lemma DecimalRestFrom(u: Unicode, t: Text, n: nat, back: Text, m: nat)
    requires n == FractionLen(u, t) && back == t[n..] && m == ScaleLen(u, back)
    ensures DecimalRestLen(u, t) == n + m
  {
  }

  lemma DecimalRestAt(u: Unicode, s: Text, i: nat, a: nat, b: nat)
    requires i <= a <= |s| && a == i + FractionLen(u, s[i..]) && b == a + ScaleLen(u, s[a..])
    ensures b == i + DecimalRestLen(u, s[i..])
  {
    Slices(s, i, a);
    DecimalRestFrom(u, s[i..], a - i, s[a..], b - a);
  }

  method DecimalRestEnd(u: Unicode, source: Text, start: nat) returns (index: nat)
    requires start <= |source|
    ensures index == start + DecimalRestLen(u, source[start..])
  {
    var point := FractionEnd(u, source, start);
    index := ScaleEnd(u, source, point);
    DecimalRestAt(u, source, start, point, index);
  }

  lemma ScaleAt(u: Unicode, s: Text, i: nat, a: nat, b: nat)
    requires i <= a <= |s| && a == i + ExponentLen(u, s[i..]) && b == a + SuffixLen(s[a..])
    ensures b == i + ScaleLen(u, s[i..])
  {
    Behind(s, i, a - i);
  }

  method ScaleEnd(u: Unicode, source: Text, start: nat) returns (index: nat)
    requires start <= |source|
    ensures index == start + ScaleLen(u, source[start..])
  {
    var exponent := ExponentEnd(u, source, start);
    index := SuffixEnd(source, exponent);
    ScaleAt(u, source, start, exponent, index);
  }

  method SuffixEnd(source: Text, start: nat) returns (index: nat)
    requires start <= |source|
    ensures index == start + SuffixLen(source[start..])
  {
    index := start;
    if index < |source| && IdentStart(source[index]) {
      Behind(source, index, 1);
      index := RunEnd(source, index + 1, IdentContinue);
    }
  }

  method FractionEnd(u: Unicode, source: Text, start: nat) returns (index: nat)
    requires start <= |source|
    ensures index == start + FractionLen(u, source[start..])
  {
    index := start;
    if index < |source| && source[index] == '.' && !Starts(source[index..], '.', '.')
       && (index + 1 == |source| || Digit(u, source[index + 1]) || source[index + 1] in {'_', 'e', 'E'}
           || !IdentStart(source[index + 1])) {
      Behind(source, index, 1);
      index := RunEnd(source, index + 1, c => Digit(u, c) || c == '_');
    }
  }

  method ExponentEnd(u: Unicode, source: Text, start: nat) returns (index: nat)
    requires start <= |source|
    ensures index == start + ExponentLen(u, source[start..])
  {
    index := start;
    if index < |source| && source[index] in {'e', 'E'} {
      var digitStart := index + 1;
      if digitStart < |source| && source[digitStart] in {'+', '-'} {
        digitStart := digitStart + 1;
      }
      Behind(source, index, digitStart - index);
      var cursor := RunEnd(source, digitStart, c => Digit(u, c) || c == '_');
      if cursor > digitStart {
        index := cursor;
      }
    }
  }

  lemma BlockStep(s: Text, i: nat, depth: nat)
    requires i < |s| && depth > 0
    ensures var t := s[i..];
      var d := if Opens(t) || Closes(t) then 2 else 1;
      var inner := if Opens(t) then depth + 1 else if Closes(t) then depth - 1 else depth;
      i + d <= |s| && Shift(BlockLen(t, depth), i) == Shift(BlockLen(s[i + d..], inner), i + d)
  {
    var t := s[i..];
    Behind(s, i, if Opens(t) || Closes(t) then 2 else 1);
  }

  method BlockCommentEnd(source: Text, start: nat) returns (end: Option<nat>)
    requires start <= |source|
    ensures end == Shift(BlockLen(source[start..], 1), start)
  {
    var depth: nat := 1;
    var cursor := start;
    while cursor < |source| && depth > 0
      invariant start <= cursor <= |source|
      invariant Shift(BlockLen(source[start..], 1), start) == Shift(BlockLen(source[cursor..], depth), cursor)
    {
      BlockStep(source, cursor, depth);
      var t := source[cursor..];
      if Opens(t) {
        depth := depth + 1;
        cursor := cursor + 2;
      } else if Closes(t) {
        depth := depth - 1;
        cursor := cursor + 2;
      } else {
        cursor := cursor + 1;
      }
    }
    end := if depth > 0 then None else Some(cursor);
  }

  /** The first punctuation token of the list that stands at the front, or one character. */
  method PunctuationEnd(source: Text, start: nat) returns (end: nat)
    requires start < |source|
    ensures end == start + PunctuationLen(source[start..])
  {
    end := FirstItemEnd(MULTI_PUNCTUATION, source, start);
  }

  method FirstItemEnd(items: seq<Text>, source: Text, start: nat) returns (end: nat)
    requires start < |source|
    ensures end == start + FirstItemLen(items, source[start..])
  {
    var k := 0;
    assert items[0..] == items;
    while k < |items|
      invariant 0 <= k <= |items|
      invariant FirstItemLen(items, source[start..]) == FirstItemLen(items[k..], source[start..])
    {
      if items[k] <= source[start..] {
        return start + |items[k]|;
      }
      k := k + 1;
    }
    return start + 1;
  }

  method Tokenize(u: Unicode, source: Text) returns (result: Option<seq<Text>>)
    ensures result == Tokens(u, source)
  {
    var tokens: seq<Text> := [];
    var index := 0;
    assert source[0..] == source;
    PrependNone(Tokens(u, source));
    while index < |source|
      invariant 0 <= index <= |source|
      invariant Tokens(u, source) == Prepend(tokens, Tokens(u, source[index..]))
    {
      var step := LexAt(u, source, index);
      match step {
        case Fail =>
          FailFrom(u, source[index..]);
          return None;
        case Skip(next) =>
          SkipAt(u, source, index, next);
          index := next;
        case Emit(end) =>
          EmitAt(u, source, index, end);
          PrependOne(tokens, source[index..end], Tokens(u, source[end..]));
          tokens := tokens + [source[index..end]];
          index := end;
      }
    }
    assert source[index..] == [];
    PrependEmpty(tokens);
    return Some(tokens);
  }

  lemma FailFrom(u: Unicode, t: Text)
    requires t != [] && LexStep(u, t) == Fail
    ensures Tokens(u, t) == None
  {
  }

  lemma SkipFrom(u: Unicode, t: Text, n: nat, back: Text)
    requires t != [] && LexStep(u, t) == Skip(n) && back == t[n..]
    ensures Tokens(u, t) == Tokens(u, back)
  {
  }

  lemma SkipAt(u: Unicode, s: Text, i: nat, next: nat)
    requires i < |s| && ShiftStep(LexStep(u, s[i..]), i) == Skip(next)
    ensures i < next <= |s| && Tokens(u, s[i..]) == Tokens(u, s[next..])
  {
    Slices(s, i, next);
    SkipFrom(u, s[i..], next - i, s[next..]);
  }

  lemma EmitFrom(u: Unicode, t: Text, n: nat, token: Text, back: Text)
    requires t != [] && LexStep(u, t) == Emit(n) && token == t[..n] && back == t[n..]
    ensures Tokens(u, t) == Prepend([token], Tokens(u, back))
  {
  }

  lemma EmitAt(u: Unicode, s: Text, i: nat, end: nat)
    requires i < |s| && ShiftStep(LexStep(u, s[i..]), i) == Emit(end)
    ensures i < end <= |s| && Tokens(u, s[i..]) == Prepend([s[i..end]], Tokens(u, s[end..]))
  {
    Slices(s, i, end);
    EmitFrom(u, s[i..], end - i, s[i..end], s[end..]);
  }

  lemma PrependEmpty(front: seq<Text>)
    ensures Prepend(front, Some([])) == Some(front)
  {
    assert front + [] == front;
  }

  function Prepend(front: seq<Text>, rest: Option<seq<Text>>): Option<seq<Text>> {
    match rest case None => None case Some(back) => Some(front + back)
  }

  lemma PrependOne(front: seq<Text>, t: Text, rest: Option<seq<Text>>)
    ensures Prepend(front, Prepend([t], rest)) == Prepend(front + [t], rest)
  {
    if rest.Some? {
      assert front + ([t] + rest.value) == front + [t] + rest.value;
    }
  }

  lemma PrependNone(rest: Option<seq<Text>>)
    ensures Prepend([], rest) == rest
  {
    if rest.Some? {
      assert [] + rest.value == rest.value;
    }
  }

  function ShiftStep(r: Step, i: nat): Step {
    match r case Skip(n) => Skip(i + n) case Emit(n) => Emit(i + n) case Fail => Fail
  }

  /** One round of the loop: where it leaves the cursor, and whether it appends a token. */
  method LexAt(u: Unicode, source: Text, index: nat) returns (step: Step)
    requires index < |source|
    ensures step == ShiftStep(LexStep(u, source[index..]), index)
  {
    if Space(u, source[index]) {
      return Skip(index + 1);
    }
    if Starts(source[index..], '/', '/') {
      Behind(source, index, 2);
      match Find(source[index + 2..], "\n") {
        case None => return Skip(|source|);
        case Some(j) => return Skip(index + 2 + j + 1);
      }
    }
    if Opens(source[index..]) {
      Behind(source, index, 2);
      var end := BlockCommentEnd(source, index + 2);
      return if end.None? then Fail else Skip(end.value);
    }
    var raw := RawStringEnd(source, index);
    match raw {
      case Unterminated => return Fail;
      case Ends(end) => return Emit(end);
      case Absent =>
    }
    if StringStart(source[index..]) {
      step := StringAt(source, index);
      return;
    }
    var literal := CharTokenEnd(source, index);
    match literal {
      case Unterminated => return Fail;
      case Ends(end) => return Emit(end);
      case Absent => step := WordAt(u, source, index);
    }
  }

  method StringAt(source: Text, index: nat) returns (step: Step)
    requires index < |source| && StringStart(source[index..])
    ensures step == ShiftStep(StringStep(source[index..]), index)
  {
    var quote := if source[index] == '"' then index else index + 1;
    Behind(source, index, quote + 1 - index);
    var end := QuotedEnd(source, quote);
    return if end.None? then Fail else Emit(end.value);
  }

  method CharTokenEnd(source: Text, index: nat) returns (end: Literal)
    requires index < |source|
    ensures end == ShiftLiteral(CharToken(source[index..]), index)
  {
    var quote := if Starts(source[index..], 'b', '\'') then index + 1 else index;
    if quote >= |source| || source[quote] != '\'' {
      return Absent;
    }
    Behind(source, index, quote - index);
    end := CharacterEnd(source, quote);
  }

  method WordAt(u: Unicode, source: Text, index: nat) returns (step: Step)
    requires index < |source|
    ensures step == ShiftStep(LexWord(u, source[index..]), index)
  {
    if Starts(source[index..], 'r', '#') && index + 2 < |source| && IdentStart(source[index + 2]) {
      Behind(source, index, 3);
      var end := RunEnd(source, index + 3, IdentContinue);
      return Emit(end);
    }
    if IdentStart(source[index]) {
      Behind(source, index, 1);
      var end := RunEnd(source, index + 1, IdentContinue);
      return Emit(end);
    }
    if Digit(u, source[index]) {
      var end := NumericEnd(u, source, index);
      return Emit(end);
    }
    var end := PunctuationEnd(source, index);
    return Emit(end);
  }

  // ---------- what lies between the tokens ----------

  /** The text in front of each token, and behind the last one. */
  function Gaps(u: Unicode, t: Text): (gaps: seq<Text>)
    requires Tokens(u, t).Some?
    ensures |gaps| == |Tokens(u, t).value| + 1
    decreases |t|
  {
    if t == [] then [[]]
    else
      var step := LexStep(u, t);
      var rest := Gaps(u, t[step.length..]);
      if step.Emit? then [[]] + rest
      else [t[..step.length] + rest[0]] + rest[1..]
  }

  function Interleave(gaps: seq<Text>, tokens: seq<Text>): Text
    requires |gaps| == |tokens| + 1
  {
    if tokens == [] then gaps[0] else gaps[0] + tokens[0] + Interleave(gaps[1..], tokens[1..])
  }

  lemma {:induction false} BlockPrefix(t: Text, w: Text, depth: nat)
    requires Prefix(t, w) && BlockLen(t, depth).Some? && BlockLen(t, depth).value <= |w|
    ensures BlockLen(w, depth) == BlockLen(t, depth)
    decreases |t|
  {
    if depth > 0 {
      var d := if Opens(t) || Closes(t) then 2 else 1;
      var inner := if Opens(t) then depth + 1 else if Closes(t) then depth - 1 else depth;
      BlockPrefix(t[d..], w[d..], inner);
    }
  }

  /** Skipped text is skipped in the same way when the rest of the source is cut off. */
  lemma SkipPrefix(u: Unicode, t: Text, w: Text)
    requires Prefix(t, w) && w != [] && LexStep(u, t).Skip? && LexStep(u, t).length <= |w|
    ensures LexStep(u, w) == LexStep(u, t)
  {
    if Space(u, t[0]) {
    } else if Starts(t, '/', '/') {
      if Find(t[2..], "\n").Some? {
        FindPrefix(t[2..], w[2..], "\n");
      } else {
        assert w == t;
      }
    } else {
      BlockPrefix(t[2..], w[2..], 1);
    }
  }

  lemma {:induction false} SkipGap(u: Unicode, t: Text, gap: Text)
    requires t != [] && LexStep(u, t).Skip?
    requires gap <= t[LexStep(u, t).length..] && Tokens(u, gap) == Some([])
    ensures Tokens(u, t[..LexStep(u, t).length] + gap) == Some([])
  {
    var n := LexStep(u, t).length;
    var w := t[..n] + gap;
    SkipPrefix(u, t, w);
    assert w[n..] == gap;
  }

  lemma InterleaveSkip(skipped: Text, gaps: seq<Text>, tokens: seq<Text>)
    requires |gaps| == |tokens| + 1
    ensures Interleave([skipped + gaps[0]] + gaps[1..], tokens) == skipped + Interleave(gaps, tokens)
  {
    assert ([skipped + gaps[0]] + gaps[1..])[1..] == gaps[1..];
    if tokens != [] {
      var back := Interleave(gaps[1..], tokens[1..]);
      assert skipped + gaps[0] + tokens[0] + back == skipped + (gaps[0] + tokens[0] + back);
    }
  }

  lemma InterleaveToken(token: Text, gaps: seq<Text>, tokens: seq<Text>)
    requires |gaps| == |tokens| + 1
    ensures Interleave([[]] + gaps, [token] + tokens) == token + Interleave(gaps, tokens)
  {
    assert ([[]] + gaps)[1..] == gaps && ([token] + tokens)[1..] == tokens;
    assert [] + token == token;
  }

  /** The source is its tokens, each a non-empty slice in source order, ... */
  lemma {:induction false} TokensCoverSource(u: Unicode, t: Text)
    requires Tokens(u, t).Some?
    ensures Interleave(Gaps(u, t), Tokens(u, t).value) == t
    ensures forall i | 0 <= i < |Tokens(u, t).value| :: Tokens(u, t).value[i] != []
    decreases |t|
  {
    if t != [] {
      var step := LexStep(u, t);
      var back := t[step.length..];
      TokensCoverSource(u, back);
      assert t == t[..step.length] + back;
      if step.Skip? {
        InterleaveSkip(t[..step.length], Gaps(u, back), Tokens(u, back).value);
      } else {
        InterleaveToken(t[..step.length], Gaps(u, back), Tokens(u, back).value);
      }
    }
  }

  lemma FirstGap(gaps: seq<Text>, tokens: seq<Text>)
    requires |gaps| == |tokens| + 1
    ensures gaps[0] <= Interleave(gaps, tokens)
  {
    if tokens != [] {
      assert gaps[0] + tokens[0] + Interleave(gaps[1..], tokens[1..])
        == gaps[0] + (tokens[0] + Interleave(gaps[1..], tokens[1..]));
    }
  }

  /** ... with nothing between them but text that lexes to no token at all. */
  lemma {:induction false} GapsAreEmpty(u: Unicode, t: Text)
    requires Tokens(u, t).Some?
    ensures forall i | 0 <= i < |Gaps(u, t)| :: Tokens(u, Gaps(u, t)[i]) == Some([])
    decreases |t|
  {
    if t != [] {
      var step := LexStep(u, t);
      var back := t[step.length..];
      GapsAreEmpty(u, back);
      if step.Skip? {
        var rest := Gaps(u, back);
        TokensCoverSource(u, back);
        FirstGap(rest, Tokens(u, back).value);
        SkipGap(u, t, rest[0]);
      }
    }
  }
}
