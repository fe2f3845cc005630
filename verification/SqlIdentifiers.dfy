/**
 Section 4.1.2.4 of the PostgreSQL manual: a dollar quote that follows an identifier must be separated
 from it, otherwise its dollars belong to the identifier, and the tag of a dollar quote follows the rules
 of an identifier without dollars.  The lexer of the migration checks does not look at what stands before
 a dollar, and takes tags of ASCII characters only.  Here is the lexing that the manual describes, when
 the two agree, and what an accepted file is worth where they do.
 */
module SqlIdentifiers {
  import opened Common
  import opened TextScan
  import opened SqlLexer
  import opened SqlErasure
  import opened SqlPieces
  import opened TransactionBoundary

  // ---------- lexing with identifiers ----------

  /** Letters, those outside of ASCII included, and the underscore. */
  predicate WordStart(c: char) {
    TagStart(c) || c as int >= 128
  }

  /** Whether a character of code leaves the lexer within an identifier. */
  predicate Continues(word: bool, c: char) {
    WordStart(c) || (word && ('0' <= c <= '9' || c == '$'))
  }

  predicate WordContinue(c: char) {
    WordStart(c) || '0' <= c <= '9'
  }

  /** Length of the dollar-quote delimiter in front of `t`, with letters of any alphabet in its tag. */
  function WideLen(t: Text): (r: Option<nat>)
    ensures r.Some? ==> 2 <= r.value <= |t|
  {
    if |t| < 2 || t[0] != '$' then None
    else if t[1] == '$' then Some(2)
    else if !WordStart(t[1]) then None
    else
      var n := 1 + Run(t[1..], WordContinue);
      if n < |t| && t[n] == '$' then Some(n + 1) else None
  }

  /** Within an identifier a dollar is a character of code; outside of one it may begin a quote. */
  function WordBite(word: bool, t: Text): (l: Option<Left>)
    requires t != []
    ensures l.Some? ==> |l.value.rest| < |t|
  {
    if t[0] != '$' then Bite(t)
    else if word || WideLen(t).None? then Some(Left("$", t[1..]))
    else
      var n := WideLen(t).value;
      Showing(" ", Leave(Dollar(t[..n]), t[n..]))
  }

  predicate IsCode(t: Text, l: Left)
    requires t != []
  {
    l == Left([t[0]], t[1..])
  }

  /** The visible text, when identifiers are respected; `word` says whether one goes on in front of `t`. */
  function LexWords(word: bool, t: Text): Option<Text>
    decreases |t|
  {
    if t == [] then Some([])
    else match WordBite(word, t)
      case None => None
      case Some(l) => Prepend(l.shown, LexWords(IsCode(t, l) && Continues(word, t[0]), l.rest))
  }

  // ---------- in terms of pieces ----------

  predicate After(word: bool, p: Piece) {
    p.Code? && Continues(word, p.c)
  }

  /** A piece as it may stand in a text that is read so. */
  predicate Fits(word: bool, p: Piece, rest: Text) {
    match p
    case Code(c) => if c == '$' then word || WideLen([c] + rest).None? else ValidPiece(p, rest)
    case DollarLiteral(d, body) => !word && WideLen(d) == Some(|d|) && Find(body + d, d) == Some(|body|)
    case _ => ValidPiece(p, rest)
  }

  predicate ValidWords(word: bool, ps: seq<Piece>)
    decreases |ps|
  {
    ps == [] || (Fits(word, ps[0], SourceOf(ps[1..])) && ValidWords(After(word, ps[0]), ps[1..]))
  }

  /** No dollar quote directly follows an identifier. */
  predicate Separated(word: bool, ps: seq<Piece>)
    decreases |ps|
  {
    ps == [] || (!(word && ps[0].DollarLiteral?) && Separated(After(word, ps[0]), ps[1..]))
  }

  /** No dollar outside of an identifier begins a delimiter, as one whose tag is not of ASCII characters
      would. */
  predicate AsciiTags(word: bool, ps: seq<Piece>)
    decreases |ps|
  {
    ps == [] || ((ps[0] == Code('$') && !word ==> WideLen(SourceOf(ps)).None?) && AsciiTags(After(word, ps[0]), ps[1..]))
  }

  // ---------- delimiters ----------

  lemma {:induction false} RunWider(t: Text)
    requires Run(t, TagContinue) < |t| && t[Run(t, TagContinue)] == '$'
    ensures Run(t, WordContinue) == Run(t, TagContinue)
    decreases |t|
  {
    if TagContinue(t[0]) {
      RunWider(t[1..]);
    }
  }

  lemma NarrowIsWide(t: Text)
    ensures DelimiterLen(t).Some? ==> WideLen(t) == DelimiterLen(t)
  {
    if DelimiterLen(t).Some? && t[1] != '$' {
      RunWider(t[1..]);
    }
  }

  lemma WidePrefix(t: Text, n: nat)
    requires WideLen(t) == Some(n)
    ensures WideLen(t[..n]) == Some(n)
  {
    if t[1] != '$' {
      RunPrefix(t[1..], WordContinue, n - 1);
      assert t[..n][1..] == t[1..][..n - 1];
    }
  }

  lemma WideSame(d: Text, inner: Text)
    requires WideLen(d) == Some(|d|)
    ensures WideLen(d + inner) == Some(|d|)
  {
    var t := d + inner;
    if d[1] != '$' {
      assert forall k | 0 <= k < |d| - 1 :: t[1..][k] == d[1..][k];
      RunSame(t[1..], d[1..], WordContinue, |d| - 2);
    }
  }

  lemma SourceFirst(p: Piece, rest: Text)
    requires ValidPiece(p, rest)
    ensures Source(p) != []
    ensures (Source(p) + rest)[0] == '$' <==> p.DollarLiteral? || p == Code('$')
    ensures p.Code? <==> IsCode(Source(p) + rest, Left(Shown(p), rest))
    ensures p.Code? ==> p.c == (Source(p) + rest)[0]
  {
  }

  lemma ReadWide(d: Text, body: Text, rest: Text)
    requires Fits(false, DollarLiteral(d, body), rest)
    ensures WordBite(false, d + body + d + rest) == Some(Left(" " + LineEnds(body), rest))
  {
    var inner := body + d + rest;
    WideSame(d, inner);
    DollarText(d, body, rest);
    assert (d + inner)[..|d|] == d && (d + inner)[|d|..] == inner;
    FindGrows(inner, body + d, d);
    DollarStep(d, inner, |body|, body, rest);
  }

  /** A piece that fits is what the lexing takes next. */
  lemma ReadWord(word: bool, p: Piece, rest: Text)
    requires Fits(word, p, rest)
    ensures LexWords(word, Source(p) + rest) == Prepend(Shown(p), LexWords(After(word, p), rest))
    ensures Source(p) != []
  {
    var t := Source(p) + rest;
    if p == Code('$') {
      assert t[1..] == rest;
    } else if p.DollarLiteral? {
      ReadWide(p.delimiter, p.body, rest);
    } else {
      ReadPiece(p, rest);
      SourceFirst(p, rest);
    }
  }

  lemma ParseWide(t: Text) returns (p: Piece, rest: Text)
    requires t != [] && t[0] == '$' && WideLen(t).Some? && WordBite(false, t).Some?
    ensures t == Source(p) + rest && p.DollarLiteral? && Fits(false, p, rest)
  {
    var n := WideLen(t).value;
    var d, inner := t[..n], t[n..];
    WidePrefix(t, n);
    var body;
    body, rest := ParseDollarBody(d, inner);
    p := DollarLiteral(d, body);
    calc {
      t;
      d + inner;
      d + (body + d + rest);
      { DollarText(d, body, rest); }
      Source(p) + rest;
    }
  }

  /** The piece that the lexing takes next. */
  lemma ParseWord(word: bool, t: Text) returns (p: Piece, rest: Text)
    requires t != [] && LexWords(word, t).Some?
    ensures t == Source(p) + rest && |rest| < |t| && Fits(word, p, rest)
    ensures LexWords(After(word, p), rest).Some?
  {
    if t[0] == '$' && (word || WideLen(t).None?) {
      p, rest := Code('$'), t[1..];
      assert t == Source(p) + rest;
    } else if t[0] == '$' {
      p, rest := ParseWide(t);
    } else {
      p, rest := ParsePiece(t);
      SourceFirst(p, rest);
    }
    ReadWord(word, p, rest);
  }

  lemma {:induction false} ReadWords(word: bool, ps: seq<Piece>)
    requires ValidWords(word, ps)
    ensures LexWords(word, SourceOf(ps)) == Some(ShownOf(ps))
    decreases |ps|
  {
    if ps != [] {
      ReadWord(word, ps[0], SourceOf(ps[1..]));
      ReadWords(After(word, ps[0]), ps[1..]);
    }
  }

  lemma {:induction false} ParseWords(word: bool, t: Text) returns (ps: seq<Piece>)
    requires LexWords(word, t).Some?
    ensures ValidWords(word, ps) && SourceOf(ps) == t
    decreases |t|
  {
    if t == [] {
      ps := [];
    } else {
      var p, rest := ParseWord(word, t);
      var back := ParseWords(After(word, p), rest);
      ps := [p] + back;
      assert ps[1..] == back;
    }
  }

  ghost predicate ErasesWords(t: Text, v: Text) {
    exists ps :: ValidWords(false, ps) && SourceOf(ps) == t && ShownOf(ps) == v
  }

  /** This lexing, too, is the erasure of a list of pieces, in which no dollar quote follows an
      identifier. */
  lemma LexWordsIsErasure(t: Text, v: Text)
    ensures LexWords(false, t) == Some(v) <==> ErasesWords(t, v)
  {
    if LexWords(false, t) == Some(v) {
      var ps := ParseWords(false, t);
      ReadWords(false, ps);
    }
    if ErasesWords(t, v) {
      var ps :| ValidWords(false, ps) && SourceOf(ps) == t && ShownOf(ps) == v;
      ReadWords(false, ps);
    }
  }

  // ---------- when the two lexings agree ----------

  lemma PrependInjective(front: Text, a: Option<Text>, b: Text)
    ensures Prepend(front, a) == Some(front + b) <==> a == Some(b)
  {
    if a.Some? && front + a.value == front + b {
      assert a.value == (front + a.value)[|front|..] == (front + b)[|front|..] == b;
    }
  }

  /** Where a piece of the lexer's is none of this lexing, their results differ. */
  lemma PieceDiffers(word: bool, p: Piece, rest: Text, shown: Text)
    requires ValidPiece(p, rest) && !Fits(word, p, rest)
    ensures LexWords(word, Source(p) + rest) != Some(Shown(p) + shown)
  {
    var t := Source(p) + rest;
    if p.DollarLiteral? {
      NarrowIsWide(p.delimiter);
      assert word && WordBite(word, t) == Some(Left("$", t[1..])) && (Shown(p) + shown)[0] == ' ';
    } else {
      assert p == Code('$') && !word && WideLen(t).Some? && (Shown(p) + shown)[0] == '$';
    }
  }

  lemma FitsIff(word: bool, p: Piece, rest: Text)
    requires ValidPiece(p, rest)
    ensures Fits(word, p, rest)
      <==> !(word && p.DollarLiteral?) && (p == Code('$') && !word ==> WideLen(Source(p) + rest).None?)
  {
    if p.DollarLiteral? {
      NarrowIsWide(p.delimiter);
    }
  }

  lemma {:induction false} SeparatedIff(word: bool, ps: seq<Piece>)
    requires Valid(ps)
    ensures LexWords(word, SourceOf(ps)) == Some(ShownOf(ps)) <==> Separated(word, ps) && AsciiTags(word, ps)
    decreases |ps|
  {
    if ps != [] {
      var p, rest := ps[0], SourceOf(ps[1..]);
      FitsIff(word, p, rest);
      if Fits(word, p, rest) {
        ReadWord(word, p, rest);
        SeparatedIff(After(word, p), ps[1..]);
        PrependInjective(Shown(p), LexWords(After(word, p), rest), ShownOf(ps[1..]));
      } else {
        PieceDiffers(word, p, rest, ShownOf(ps[1..]));
      }
    }
  }

  /** On a text that the lexer takes, it agrees exactly when none of the dollar quotes it reads directly
      follows an identifier, and no dollar outside of an identifier begins a tag that is not ASCII. */
  lemma AgreesIffSeparated(ps: seq<Piece>)
    requires Valid(ps)
    ensures LexWords(false, SourceOf(ps)) == Lex(Normal, SourceOf(ps)) <==> Separated(false, ps) && AsciiTags(false, ps)
  {
    ReadPieces(ps);
    SeparatedIff(false, ps);
  }

  /** Where a piece of this lexing is none of the lexer's, their results differ. */
  lemma {:induction false} WordDiffers(word: bool, p: Piece, rest: Text, shown: Text)
    requires Fits(word, p, rest) && !ValidPiece(p, rest)
    ensures Source(p) != [] && Lex(Normal, Source(p) + rest) != Some(Shown(p) + shown)
  {
    if p.DollarLiteral? {
      QuoteDiffers(p, rest, shown);
    } else {
      LexBites(Source(p) + rest);
      assert p == Code('$') && StepNormal(Source(p) + rest).visible == " " && (Shown(p) + shown)[0] == '$';
    }
  }

  lemma QuoteDiffers(p: Piece, rest: Text, shown: Text)
    requires p.DollarLiteral? && WideLen(p.delimiter) == Some(|p.delimiter|) && DelimiterLen(p.delimiter) != Some(|p.delimiter|)
    ensures Source(p) != [] && Lex(Normal, Source(p) + rest) != Some(Shown(p) + shown)
  {
    NotNarrow(p.delimiter, p.body + p.delimiter + rest);
    DollarText(p.delimiter, p.body, rest);
    DollarShows(Source(p) + rest);
    assert (Shown(p) + shown)[0] == ' ';
  }

  lemma DollarShows(t: Text)
    requires t != [] && t[0] == '$' && DelimiterLen(t).None?
    ensures Lex(Normal, t).Some? ==> Lex(Normal, t).value != [] && Lex(Normal, t).value[0] == '$'
  {
    LexBites(t);
    assert StepNormal(t).visible == "$";
  }

  lemma NotNarrow(d: Text, inner: Text)
    requires WideLen(d) == Some(|d|) && DelimiterLen(d) != Some(|d|)
    ensures DelimiterLen(d + inner) == None
  {
    WideSame(d, inner);
    NarrowIsWide(d + inner);
    assert (d + inner)[..|d|] == d;
    if DelimiterLen(d + inner).Some? {
      DelimiterPrefix(d + inner, |d|);
    }
  }

  lemma {:induction false} ValidIff(word: bool, ps: seq<Piece>)
    requires ValidWords(word, ps)
    ensures Lex(Normal, SourceOf(ps)) == Some(ShownOf(ps)) <==> Valid(ps)
    decreases |ps|
  {
    if ps != [] {
      var p, rest := ps[0], SourceOf(ps[1..]);
      ValidIff(After(word, p), ps[1..]);
      if ValidPiece(p, rest) {
        SourceFirst(p, rest);
        LexBites(SourceOf(ps));
        ReadPiece(p, rest);
        PrependInjective(Shown(p), Lex(Normal, rest), ShownOf(ps[1..]));
      } else {
        WordDiffers(word, p, rest, ShownOf(ps[1..]));
      }
    }
  }

  /** On a text that the manual's lexing takes, the lexer agrees exactly when each of its pieces is one of
      the lexer's: no dollar within an identifier would open a quote, and every tag is of ASCII characters. */
  lemma AgreesIffValid(ps: seq<Piece>)
    requires ValidWords(false, ps)
    ensures LexWords(false, SourceOf(ps)) == Lex(Normal, SourceOf(ps)) <==> Valid(ps)
  {
    ReadWords(false, ps);
    ValidIff(false, ps);
  }

  /** Where the two agree, a file is accepted exactly when it keeps the transaction boundary as the manual
      has it read. */
  lemma AcceptedWhereSeparated(source: Text, ps: seq<Piece>)
    requires Valid(ps) && SourceOf(ps) == source && Separated(false, ps) && AsciiTags(false, ps)
    ensures Accepted(source) <==> Bounded(source, LexWords(false, source))
  {
    AgreesIffSeparated(ps);
  }
}
