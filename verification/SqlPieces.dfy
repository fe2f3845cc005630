/**
 A declarative reading of the same sources: a text is a list of pieces, each a character of code, a
 comment or a literal, and erasure drops all but the line ends of the latter two.  The lexer
 computes exactly this erasure.
 */
module SqlPieces {
  import opened Common
  import opened TextScan
  import opened NestedComments
  import opened SqlLexer
  import opened SqlErasure

  datatype Piece =
    | Code(c: char)
    | LineComment(body: Text, ended: bool)
    | BlockComment(inside: Inside)
    | Literal(quote: char, body: Text)
    | DollarLiteral(delimiter: Text, body: Text)

  function Source(p: Piece): Text {
    match p
    case Code(c) => [c]
    case LineComment(body, ended) => "--" + body + (if ended then "\n" else [])
    case BlockComment(inside) => ['/', '*'] + Render(inside)
    case Literal(q, body) => [q] + body + [q]
    case DollarLiteral(d, body) => d + body + d
  }

  function Shown(p: Piece): Text {
    match p
    case Code(c) => [c]
    case LineComment(body, ended) => if ended then "\n" else " "
    case BlockComment(inside) => " " + LineEnds(Render(inside))
    case Literal(q, body) => " " + LineEnds(body)
    case DollarLiteral(d, body) => " " + LineEnds(body)
  }

  /** A literal's inside: its own quote occurs only doubled. */
  predicate Doubled(q: char, body: Text) {
    || body == []
    || (body[0] != q && Doubled(q, body[1..]))
    || (Starts(body, q, q) && Doubled(q, body[2..]))
  }

  /** The piece is complete, read as far as it goes, in front of `rest`. */
  predicate ValidPiece(p: Piece, rest: Text) {
    match p
    case Code(c) =>
      && !Starts([c] + rest, '-', '-') && !Opens([c] + rest) && !IsQuote(c)
      && DelimiterLen([c] + rest) == None
    case LineComment(body, ended) => '\n' !in body && (ended || rest == [])
    case BlockComment(inside) => WellFormed(inside)
    case Literal(q, body) => IsQuote(q) && Doubled(q, body) && (rest == [] || rest[0] != q)
    case DollarLiteral(d, body) => DelimiterLen(d) == Some(|d|) && Find(body + d, d) == Some(|body|)
  }

  function SourceOf(ps: seq<Piece>): Text {
    if ps == [] then [] else Source(ps[0]) + SourceOf(ps[1..])
  }

  function ShownOf(ps: seq<Piece>): Text {
    if ps == [] then [] else Shown(ps[0]) + ShownOf(ps[1..])
  }

  predicate Valid(ps: seq<Piece>) {
    ps == [] || (ValidPiece(ps[0], SourceOf(ps[1..])) && Valid(ps[1..]))
  }

  // ---------- one bite of the lexer ----------

  /** What the lexer shows until it is back in its normal state, and what is left then. */
  datatype Left = Left(shown: Text, rest: Text)

  function Showing(front: Text, l: Option<Left>): Option<Left> {
    match l case None => None case Some(left) => Some(Left(front + left.shown, left.rest))
  }

  function Leave(state: State, t: Text): (l: Option<Left>)
    ensures l.Some? ==> |l.value.rest| <= |t|
    decreases |t|, if state.Dollar? then 1 else 0
  {
    if state.Normal? then Some(Left([], t))
    else if t == [] then None
    else match Step(state, t)
      case None => None
      case Some(m) => Showing(m.visible, Leave(m.next, t[m.length..]))
  }

  /** A character of code, or a whole comment or literal. */
  function Bite(t: Text): (l: Option<Left>)
    requires t != []
    ensures l.Some? ==> |l.value.rest| < |t|
  {
    var m := StepNormal(t);
    Showing(m.visible, Leave(m.next, t[m.length..]))
  }

  function Onward(l: Option<Left>): Option<Text> {
    match l case None => None case Some(left) => Prepend(left.shown, Lex(Normal, left.rest))
  }

  lemma OnwardShowing(front: Text, l: Option<Left>)
    ensures Onward(Showing(front, l)) == Prepend(front, Onward(l))
  {
    if l.Some? && Lex(Normal, l.value.rest).Some? {
      assert front + (l.value.shown + Lex(Normal, l.value.rest).value) == front + l.value.shown + Lex(Normal, l.value.rest).value;
    }
  }

  lemma {:induction false} LexLeaves(state: State, t: Text)
    ensures Lex(state, t) == Onward(Leave(state, t))
    decreases |t|, if state.Dollar? then 1 else 0
  {
    if state.Normal? {
      PrependNothing(Lex(Normal, t));
    } else if t != [] && Step(state, t).Some? {
      var m := Step(state, t).value;
      LexLeaves(m.next, t[m.length..]);
      OnwardShowing(m.visible, Leave(m.next, t[m.length..]));
    }
  }

  /** The lexer works bite by bite. */
  lemma LexBites(t: Text)
    requires t != []
    ensures Lex(Normal, t) == Onward(Bite(t))
  {
    var m := StepNormal(t);
    LexLeaves(m.next, t[m.length..]);
    OnwardShowing(m.visible, Leave(m.next, t[m.length..]));
    LexStep(Normal, t, m, t[m.length..]);
  }

  // ---------- a valid piece is one bite ----------

  lemma LeaveThen(state: State, t: Text, front: Text, visible: Text, next: State, back: Text)
    requires t == front + back && t != [] && !state.Normal?
    requires Step(state, t) == Some(Move(|front|, visible, next))
    ensures Leave(state, t) == Showing(visible, Leave(next, back))
    ensures next.Normal? ==> Leave(state, t) == Some(Left(visible, back))
  {
    assert t[|front|..] == back;
    assert visible + [] == visible;
  }

  lemma BiteThen(t: Text, front: Text, visible: Text, next: State, back: Text)
    requires t == front + back && t != []
    requires StepNormal(t) == Move(|front|, visible, next)
    ensures Bite(t) == Showing(visible, Leave(next, back))
    ensures next.Normal? ==> Bite(t) == Some(Left(visible, back))
  {
    assert t[|front|..] == back;
    assert visible + [] == visible;
  }

  lemma {:induction false} ReadQuoted(q: char, body: Text, rest: Text)
    requires Doubled(q, body) && IsQuote(q) && (rest == [] || rest[0] != q)
    ensures Leave(Quoted(q), body + ([q] + rest)) == Some(Left(LineEnds(body), rest))
    decreases |body|
  {
    var t := body + ([q] + rest);
    if body == [] {
      assert t == [q] + rest;
      LeaveThen(Quoted(q), t, [q], [], Normal, rest);
    } else if body[0] != q {
      assert t == [body[0]] + (body[1..] + ([q] + rest));
      LeaveThen(Quoted(q), t, [body[0]], LineEndOf(body[0]), Quoted(q), body[1..] + ([q] + rest));
      ReadQuoted(q, body[1..], rest);
      LineEndsFirst(body);
    } else {
      assert t == [q, q] + (body[2..] + ([q] + rest));
      LeaveThen(Quoted(q), t, [q, q], [], Quoted(q), body[2..] + ([q] + rest));
      ReadQuoted(q, body[2..], rest);
      assert [] + LineEnds(body[2..]) == LineEnds(body[2..]);
      assert LineEnds(body) == LineEnds(body[1..]) == LineEnds(body[1..][1..]) && body[1..][1..] == body[2..];
    }
  }

  lemma LineEndsFirst(t: Text)
    requires t != []
    ensures LineEnds(t) == LineEndOf(t[0]) + LineEnds(t[1..])
  {
    if t[0] != '\n' {
      assert [] + LineEnds(t[1..]) == LineEnds(t[1..]);
    }
  }

  lemma BlockStep(t: Text, depth: nat) returns (front: Text, back: Text, next: State)
    requires depth > 0 && t != []
    ensures t == front + back && 1 <= |front| <= 2
    ensures next == if Closes(t) && !Opens(t) then if depth == 1 then Normal else Block(depth - 1)
                    else if Opens(t) then Block(depth + 1) else Block(depth)
    ensures |front| == if Opens(t) || Closes(t) then 2 else 1
    ensures Leave(Block(depth), t) == Showing(LineEnds(front), Leave(next, back))
  {
    var m := Step(Block(depth), t).value;
    front, back, next := t[..m.length], t[m.length..], m.next;
    assert t == front + back;
    LeaveThen(Block(depth), t, front, m.visible, m.next, back);
    NoLineEndsButOne(t, m.length);
  }

  lemma {:induction false} ReadBlock(t: Text, depth: nat, n: nat)
    requires depth > 0 && BlockLen(t, depth) == Some(n)
    ensures Leave(Block(depth), t) == Some(Left(LineEnds(t[..n]), t[n..]))
    decreases |t|
  {
    var front, back, next := BlockStep(t, depth);
    if next == Normal {
      assert n == 2 && t[..n] == front && t[n..] == back;
      assert LineEnds(front) + [] == LineEnds(front);
    } else {
      ReadBlock(back, next.depth, n - |front|);
      assert t[..n] == front + back[..n - |front|] && t[n..] == back[n - |front|..];
      LineEndsConcat(front, back[..n - |front|]);
    }
  }

  lemma ReadDelimiter(d: Text, inner: Text)
    requires DelimiterLen(d) == Some(|d|)
    ensures Bite(d + inner) == Showing(" ", Leave(Dollar(d), inner))
  {
    var t := d + inner;
    DelimiterSame(t, d);
    assert t[0] == '$' && t[..|d|] == d;
    BiteThen(t, d, " ", Dollar(d), inner);
  }

  lemma {:induction false} DollarStep(d: Text, inner: Text, k: nat, body: Text, rest: Text)
    requires inner != [] && Find(inner, d) == Some(k) && body == inner[..k] && rest == inner[k + |d|..]
    ensures Leave(Dollar(d), inner) == Some(Left(LineEnds(body), rest))
  {
    assert Step(Dollar(d), inner) == Some(Move(k + |d|, LineEnds(body), Normal));
    assert Leave(Normal, rest) == Some(Left([], rest));
    assert LineEnds(body) + [] == LineEnds(body);
  }

  lemma ReadDollar(d: Text, body: Text, rest: Text)
    requires ValidPiece(DollarLiteral(d, body), rest)
    ensures Bite(d + body + d + rest) == Some(Left(" " + LineEnds(body), rest))
  {
    DollarText(d, body, rest);
    ReadDelimiter(d, body + d + rest);
    FindGrows(body + d + rest, body + d, d);
    DollarStep(d, body + d + rest, |body|, body, rest);
  }

  lemma CommentParts(inner: Text, rest: Text)
    ensures ['/', '*'] + inner + rest == ['/', '*'] + (inner + rest)
    ensures (inner + rest)[..|inner|] == inner && (inner + rest)[|inner|..] == rest
  {
  }

  lemma ReadComment(inside: Inside, rest: Text)
    requires WellFormed(inside)
    ensures Bite(['/', '*'] + Render(inside) + rest) == Some(Left(" " + LineEnds(Render(inside)), rest))
  {
    var inner := Render(inside);
    CommentParts(inner, rest);
    BiteThen(['/', '*'] + (inner + rest), ['/', '*'], " ", Block(1), inner + rest);
    CommentStops(inside, rest);
    ReadBlock(inner + rest, 1, |inner|);
  }

  lemma CommentBites(t: Text, front: Text, back: Text, j: nat)
    requires Starts(t, '-', '-') && Find(t[2..], "\n") == Some(j) && t == front + back && |front| == j + 3
    ensures Bite(t) == Some(Left("\n", back))
  {
    BiteThen(t, front, "\n", Normal, back);
  }

  lemma EndedText(body: Text, rest: Text)
    ensures var t := Source(LineComment(body, true)) + rest;
      Starts(t, '-', '-') && t[2..] == body + (['\n'] + rest) && |Source(LineComment(body, true))| == |body| + 3
  {
  }

  lemma UnendedText(body: Text)
    ensures Source(LineComment(body, false)) + [] == "--" + body && ("--" + body)[2..] == body
  {
  }

  lemma ReadUnended(body: Text)
    requires '\n' !in body
    ensures Bite("--" + body) == Some(Left(" ", []))
  {
    var t := "--" + body;
    FindOne(body, '\n', []);
    UnendedText(body);
    BiteThen(t, t, " ", Normal, []);
  }

  lemma ReadLineComment(body: Text, ended: bool, rest: Text)
    requires '\n' !in body && (ended || rest == [])
    ensures Bite(Source(LineComment(body, ended)) + rest) == Some(Left(if ended then "\n" else " ", rest))
  {
    if ended {
      FindOne(body, '\n', rest);
      EndedText(body, rest);
      CommentBites(Source(LineComment(body, true)) + rest, Source(LineComment(body, true)), rest, |body|);
    } else {
      UnendedText(body);
      ReadUnended(body);
    }
  }

  lemma ReadPiece(p: Piece, rest: Text)
    requires ValidPiece(p, rest)
    ensures Bite(Source(p) + rest) == Some(Left(Shown(p), rest))
  {
    match p
    case Code(c) => BiteThen([c] + rest, [c], [c], Normal, rest);
    case LineComment(body, ended) => ReadLineComment(body, ended, rest);
    case BlockComment(inside) => ReadComment(inside, rest);
    case DollarLiteral(d, body) => ReadDollar(d, body, rest);
    case Literal(q, body) =>
      var inner := body + ([q] + rest);
      assert Source(p) + rest == [q] + inner;
      BiteThen([q] + inner, [q], " ", Quoted(q), inner);
      ReadQuoted(q, body, rest);
  }

  lemma {:induction false} ReadPieces(ps: seq<Piece>)
    requires Valid(ps)
    ensures Lex(Normal, SourceOf(ps)) == Some(ShownOf(ps))
  {
    if ps != [] {
      ReadPiece(ps[0], SourceOf(ps[1..]));
      ReadPieces(ps[1..]);
      LexBites(SourceOf(ps));
    }
  }

  // ---------- every bite is a valid piece ----------

  /** `t` is the inside of a literal, its closing quote, and `rest`. */
  predicate Splits(q: char, t: Text, body: Text, rest: Text) {
    t == body + ([q] + rest) && Doubled(q, body) && (rest == [] || rest[0] != q)
  }

  lemma SplitsBehind(q: char, front: Text, t: Text, body: Text, rest: Text)
    requires Splits(q, t, body, rest)
    requires front == [q, q] || (|front| == 1 && front[0] != q)
    ensures Splits(q, front + t, front + body, rest)
  {
    assert (front + body)[|front|..] == body;
    assert front + (body + ([q] + rest)) == front + body + ([q] + rest);
  }

  lemma {:induction false} ParseQuoted(q: char, t: Text) returns (body: Text, rest: Text)
    requires IsQuote(q) && Leave(Quoted(q), t).Some?
    ensures Splits(q, t, body, rest)
    decreases |t|
  {
    if t[0] != q {
      body, rest := ParseQuoted(q, t[1..]);
      SplitsBehind(q, [t[0]], t[1..], body, rest);
      assert t == [t[0]] + t[1..];
      body := [t[0]] + body;
    } else if |t| > 1 && t[1] == q {
      body, rest := ParseQuoted(q, t[2..]);
      SplitsBehind(q, [q, q], t[2..], body, rest);
      assert t == [q, q] + t[2..];
      body := [q, q] + body;
    } else {
      body, rest := [], t[1..];
      assert t == [] + ([q] + rest);
    }
  }

  lemma {:induction false} BlockMustClose(t: Text, depth: nat)
    requires depth > 0 && Leave(Block(depth), t).Some?
    ensures BlockLen(t, depth).Some?
    decreases |t|
  {
    var m := Step(Block(depth), t).value;
    if m.next != Normal {
      BlockMustClose(t[m.length..], m.next.depth);
    }
  }

  lemma FindCuts(t: Text, word: Text, k: nat) returns (before: Text, behind: Text)
    requires Find(t, word) == Some(k)
    ensures before == t[..k] && behind == t[k + |word|..]
    ensures t == before + word + behind
    ensures Find(before + word, word) == Some(|before|)
  {
    before, behind := t[..k], t[k + |word|..];
    assert t[k..][..|word|] == word;
    assert t == before + word + behind;
    FindPrefix(t, before + word, word);
  }

  /** The piece that a bite is. */
  lemma ParsePiece(t: Text) returns (p: Piece, rest: Text)
    requires t != [] && Bite(t).Some?
    ensures t == Source(p) + rest && ValidPiece(p, rest)
    ensures Bite(t) == Some(Left(Shown(p), rest))
  {
    p, rest := PieceThere(t);
    ReadPiece(p, rest);
  }

  lemma PieceThere(t: Text) returns (p: Piece, rest: Text)
    requires t != [] && Bite(t).Some?
    ensures t == Source(p) + rest && ValidPiece(p, rest)
  {
    if Starts(t, '-', '-') {
      p, rest := ParseLineComment(t);
    } else if Opens(t) {
      p, rest := ParseBlock(t);
    } else if IsQuote(t[0]) {
      p, rest := ParseLiteral(t);
    } else if DelimiterLen(t).Some? {
      p, rest := ParseDollar(t);
    } else {
      p, rest := Code(t[0]), t[1..];
      Halves(t, 1);
    }
  }

  lemma ParseBlock(t: Text) returns (p: Piece, rest: Text)
    requires Opens(t) && !Starts(t, '-', '-') && Bite(t).Some?
    ensures t == Source(p) + rest && ValidPiece(p, rest)
  {
    Halves(t, 2);
    BlockMustClose(t[2..], 1);
    var inside, behind := Parse(t[2..], 1);
    p, rest := BlockComment(inside), behind;
    CommentParts(Render(inside), rest);
  }

  lemma ParseLiteral(t: Text) returns (p: Piece, rest: Text)
    requires t != [] && IsQuote(t[0]) && !Starts(t, '-', '-') && !Opens(t) && Bite(t).Some?
    ensures t == Source(p) + rest && ValidPiece(p, rest)
  {
    var body;
    body, rest := ParseQuoted(t[0], t[1..]);
    p := Literal(t[0], body);
    Halves(t, 1);
    LiteralText(t[0], body, rest);
  }

  lemma LiteralText(q: char, body: Text, rest: Text)
    ensures [q] + (body + ([q] + rest)) == [q] + body + [q] + rest
  {
  }

  lemma ParseLineComment(t: Text) returns (p: Piece, rest: Text)
    requires Starts(t, '-', '-')
    ensures t == Source(p) + rest && ValidPiece(p, rest)
  {
    var inner := t[2..];
    assert t == "--" + inner;
    match Find(inner, "\n")
    case None =>
      p, rest := LineComment(inner, false), [];
      NoneBefore(inner, '\n', |inner|);
      assert inner[..|inner|] == inner;
      CommentText(inner, [], []);
    case Some(j) =>
      var body;
      body, rest := FindCuts(inner, "\n", j);
      p := LineComment(body, true);
      NoneBefore(inner, '\n', j);
      CommentText(body, "\n", rest);
  }

  lemma CommentText(body: Text, ending: Text, rest: Text)
    ensures "--" + (body + ending + rest) == "--" + body + ending + rest
    ensures body + [] == body && "--" + body + [] + [] == "--" + body
  {
  }

  lemma DelimiterBites(t: Text, n: nat)
    requires DelimiterLen(t) == Some(n)
    ensures DelimiterLen(t[..n]) == Some(n)
    ensures Bite(t) == Showing(" ", Leave(Dollar(t[..n]), t[n..]))
  {
    DelimiterPrefix(t, n);
    assert t[0] == '$';
    assert t == t[..n] + t[n..];
    BiteThen(t, t[..n], " ", Dollar(t[..n]), t[n..]);
  }

  lemma ParseDollarBody(d: Text, inner: Text) returns (body: Text, rest: Text)
    requires Leave(Dollar(d), inner).Some?
    ensures inner == body + d + rest && Find(body + d, d) == Some(|body|)
  {
    body, rest := FindCuts(inner, d, Find(inner, d).value);
  }

  lemma ParseDollar(t: Text) returns (p: Piece, rest: Text)
    requires t != [] && DelimiterLen(t).Some? && Bite(t).Some?
    ensures t == Source(p) + rest && ValidPiece(p, rest)
  {
    var n := DelimiterLen(t).value;
    var d, inner := t[..n], t[n..];
    DelimiterBites(t, n);
    var body;
    body, rest := ParseDollarBody(d, inner);
    p := DollarLiteral(d, body);
    Halves(t, n);
    DollarText(d, body, rest);
  }

  lemma DollarText(d: Text, body: Text, rest: Text)
    ensures d + (body + d + rest) == d + body + d + rest
  {
  }

  lemma {:induction false} ParsePieces(t: Text) returns (ps: seq<Piece>)
    requires Lex(Normal, t).Some?
    ensures Valid(ps) && SourceOf(ps) == t
    decreases |t|
  {
    if t == [] {
      ps := [];
    } else {
      LexBites(t);
      var p, rest := ParsePiece(t);
      var back := ParsePieces(rest);
      ps := [p] + back;
      assert ps[1..] == back;
    }
  }

  ghost predicate Erases(t: Text, v: Text) {
    exists ps :: Valid(ps) && SourceOf(ps) == t && ShownOf(ps) == v
  }

  /** The lexer succeeds exactly on the texts that are pieces, and returns their erasure. */
  lemma LexIsErasure(t: Text, v: Text)
    ensures Lex(Normal, t) == Some(v) <==> Erases(t, v)
  {
    if Lex(Normal, t) == Some(v) {
      var ps := ParsePieces(t);
      ReadPieces(ps);
    }
    if Erases(t, v) {
      var ps :| Valid(ps) && SourceOf(ps) == t && ShownOf(ps) == v;
      ReadPieces(ps);
    }
  }

  // ---------- what the pieces are, character by character ----------

  /** A dollar delimiter: two dollars, and between them nothing or a tag of ASCII letters, digits and underscores that
      begins with no digit. */
  lemma DelimiterIff(t: Text, n: nat)
    ensures DelimiterLen(t) == Some(n) <==>
      && 2 <= n <= |t| && t[0] == '$' && t[n - 1] == '$'
      && (n > 2 ==> !('0' <= t[1] <= '9'))
      && forall k | 0 < k < n - 1 ::
        'a' <= t[k] <= 'z' || 'A' <= t[k] <= 'Z' || '0' <= t[k] <= '9' || t[k] == '_'
  {
    if 2 <= |t| && t[0] == '$' && t[1] != '$' {
      var m := Run(t[1..], TagContinue);
      assert forall k | 0 <= k < m :: t[1 + k] == t[1..][k];
      assert 1 + m < |t| ==> t[1 + m] == t[1..][m];
      if 2 < n <= |t| && t[n - 1] == '$' && forall k | 0 < k < n - 1 :: TagContinue(t[k]) {
        RunIs(t[1..], TagContinue, n - 2);
      }
    }
  }

  lemma QuoteIff(c: char)
    ensures IsQuote(c) <==> c == '\'' || c == '"'
  {
  }

  /** Nothing but blanks and line ends is shown of a comment or a literal, and never nothing: what stands before and
      behind it is not joined. */
  lemma ErasedIsBlank(p: Piece)
    requires !p.Code?
    ensures Shown(p) != [] && forall k | 0 <= k < |Shown(p)| :: Shown(p)[k] == ' ' || Shown(p)[k] == '\n'
  {
    match p
    case LineComment(_, _) =>
    case BlockComment(inside) => OnlyLineEnds(Render(inside));
    case Literal(_, body) => OnlyLineEnds(body);
    case DollarLiteral(_, body) => OnlyLineEnds(body);
  }

  lemma {:induction false} OnlyLineEnds(t: Text)
    ensures forall k | 0 <= k < |LineEnds(t)| :: LineEnds(t)[k] == '\n'
    decreases |t|
  {
    if t != [] {
      OnlyLineEnds(t[1..]);
    }
  }
}
