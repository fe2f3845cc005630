/**
 The case of the letters of the code does not matter: a file and the same file with letters of its code
 in the other case are both accepted or both refused.
 */
module LetterCase {
  import opened Common
  import opened TextScan
  import opened NestedComments
  import opened SqlLexer
  import opened SqlPieces
  import opened TransactionBoundary

  /** The same character, or the same letter in the other case. */
  predicate SameLetter(c: char, d: char) {
    || c == d
    || ('a' <= c <= 'z' && c as int == d as int + 32)
    || ('a' <= d <= 'z' && d as int == c as int + 32)
  }

  predicate Alike(t: Text, u: Text) {
    |t| == |u| && forall k | 0 <= k < |t| :: SameLetter(t[k], u[k])
  }

  predicate AllAlike(ts: seq<Text>, us: seq<Text>) {
    |ts| == |us| && forall k | 0 <= k < |ts| :: Alike(ts[k], us[k])
  }

  // ---------- the boundary check reads letters without their case ----------

  lemma RunAlike(t: Text, u: Text, p: char -> bool)
    requires Alike(t, u) && forall c, d | SameLetter(c, d) :: p(c) == p(d)
    ensures Run(t, p) == Run(u, p)
  {
    if t != [] && p(t[0]) {
      RunAlike(t[1..], u[1..], p);
    }
  }

  lemma UpperAlike(t: Text, u: Text)
    requires Alike(t, u)
    ensures UpperText(t) == UpperText(u)
  {
    assert forall k | 0 <= k < |t| :: Upper(t[k]) == Upper(u[k]);
  }

  lemma {:induction false} WordsAlike(t: Text, u: Text)
    requires Alike(t, u)
    ensures Words(t) == Words(u)
    decreases |t|
  {
    if t != [] {
      if Space(t[0]) {
        WordsAlike(t[1..], u[1..]);
      } else {
        var n := Run(t, InWord);
        RunAlike(t, u, InWord);
        UpperAlike(t[..n], u[..n]);
        UpperAlike(t, u);
        WordsAlike(t[n..], u[n..]);
      }
    }
  }

  lemma {:induction false} StripAlike(t: Text, u: Text)
    requires Alike(t, u)
    ensures UpperText(Strip(t)) == UpperText(Strip(u))
    decreases |t|
  {
    if t != [] && Space(t[0]) {
      StripAlike(t[1..], u[1..]);
    } else if t != [] && Space(t[|t| - 1]) {
      StripAlike(t[..|t| - 1], u[..|u| - 1]);
    } else {
      UpperAlike(t, u);
    }
  }

  /** Where the line behind a break begins. */
  function Next(t: Text, n: nat): (next: nat)
    requires n < |t|
    ensures n < next <= |t|
  {
    if t[n] == '\r' && n + 1 < |t| && t[n + 1] == '\n' then n + 2 else n + 1
  }

  lemma {:induction false} FirstLine(t: Text, n: nat)
    requires n == Run(t, InLine) < |t|
    ensures SplitLines(t) == [t[..n]] + SplitLines(t[Next(t, n)..])
  {
  }

  lemma AllAlikeCons(t: Text, u: Text, ts: seq<Text>, us: seq<Text>)
    requires Alike(t, u) && AllAlike(ts, us)
    ensures AllAlike([t] + ts, [u] + us)
  {
  }

  lemma {:induction false} LinesAlike(t: Text, u: Text)
    requires Alike(t, u)
    ensures AllAlike(SplitLines(t), SplitLines(u))
    decreases |t|
  {
    if t != [] {
      var n := Run(t, InLine);
      RunAlike(t, u, InLine);
      if n < |t| {
        var next := Next(t, n);
        assert next == Next(u, n);
        FirstLine(t, n);
        FirstLine(u, n);
        LinesAlike(t[next..], u[next..]);
        AllAlikeCons(t[..n], u[..n], SplitLines(t[next..]), SplitLines(u[next..]));
      }
    }
  }

  lemma {:induction false} PartsAlike(t: Text, u: Text)
    requires Alike(t, u)
    ensures AllAlike(SplitStatements(t), SplitStatements(u))
    decreases |t|
  {
    var n := Run(t, InStatement);
    RunAlike(t, u, InStatement);
    if n < |t| {
      PartsAlike(t[n + 1..], u[n + 1..]);
      assert Alike(t[..n], u[..n]);
    }
  }

  lemma {:induction false} NonBlankAlike(ts: seq<Text>, us: seq<Text>)
    requires AllAlike(ts, us)
    ensures NonBlank(ts) == NonBlank(us)
    decreases |ts|
  {
    if ts != [] {
      WordsAlike(ts[0], us[0]);
      NonBlankAlike(ts[1..], us[1..]);
    }
  }

  lemma {:induction false} ControlsAlike(ts: seq<Text>, us: seq<Text>)
    requires AllAlike(ts, us)
    ensures Controls(ts) == Controls(us)
    decreases |ts|
  {
    if ts != [] {
      WordsAlike(ts[|ts| - 1], us[|us| - 1]);
      ControlsAlike(ts[..|ts| - 1], us[..|us| - 1]);
    }
  }

  lemma BareAlike(raw: seq<Text>, visible: seq<Text>, raw': seq<Text>, visible': seq<Text>)
    requires AllAlike(raw, raw') && AllAlike(visible, visible')
    ensures ControlsBare(raw, visible) <==> ControlsBare(raw', visible')
  {
    if |raw| == |visible| {
      forall i | 0 <= i < |raw|
        ensures Words(visible[i]) == Words(visible'[i]) && UpperText(Strip(raw[i])) == UpperText(Strip(raw'[i]))
      {
        WordsAlike(visible[i], visible'[i]);
        StripAlike(raw[i], raw'[i]);
      }
    }
  }

  /** What is demanded of a source and its visible text does not depend on the case of their letters. */
  lemma BoundedAlike(source: Text, visible: Text, source': Text, visible': Text)
    requires Alike(source, source') && Alike(visible, visible')
    ensures Bounded(source, Some(visible)) <==> Bounded(source', Some(visible'))
  {
    assert '\\' in source <==> '\\' in source' by {
      assert forall k | 0 <= k < |source| :: SameLetter(source[k], source'[k]);
    }
    LinesAlike(source, source');
    LinesAlike(visible, visible');
    BareAlike(SplitLines(source), SplitLines(visible), SplitLines(source'), SplitLines(visible'));
    PartsAlike(visible, visible');
    NonBlankAlike(SplitStatements(visible), SplitStatements(visible'));
    ControlsAlike(SplitLines(visible), SplitLines(visible'));
  }

  // ---------- so does the lexer ----------

  /** The same file, but for the case of the letters of its code. */
  predicate Recased(ps: seq<Piece>, qs: seq<Piece>) {
    |ps| == |qs| && forall k | 0 <= k < |ps| ::
      if ps[k].Code? then qs[k].Code? && SameLetter(ps[k].c, qs[k].c) else qs[k] == ps[k]
  }

  lemma ConcatAlike(t: Text, u: Text, t': Text, u': Text)
    requires Alike(t, t') && Alike(u, u')
    ensures Alike(t + u, t' + u')
  {
  }

  lemma DelimiterAlike(t: Text, u: Text)
    requires Alike(t, u)
    ensures DelimiterLen(t) == DelimiterLen(u)
  {
    if |t| >= 2 && t[0] == '$' {
      RunAlike(t[1..], u[1..], TagContinue);
    }
  }

  lemma {:induction false} RecasedSource(ps: seq<Piece>, qs: seq<Piece>)
    requires Recased(ps, qs)
    ensures Alike(SourceOf(ps), SourceOf(qs)) && Alike(ShownOf(ps), ShownOf(qs))
    decreases |ps|
  {
    if ps != [] {
      RecasedSource(ps[1..], qs[1..]);
      ConcatAlike(Source(ps[0]), SourceOf(ps[1..]), Source(qs[0]), SourceOf(qs[1..]));
      ConcatAlike(Shown(ps[0]), ShownOf(ps[1..]), Shown(qs[0]), ShownOf(qs[1..]));
    }
  }

  lemma PieceAlike(p: Piece, q: Piece, rest: Text, rest': Text)
    requires Alike(rest, rest') && ValidPiece(p, rest)
    requires if p.Code? then q.Code? && SameLetter(p.c, q.c) else q == p
    ensures ValidPiece(q, rest')
  {
    if p.Code? {
      ConcatAlike([p.c], rest, [q.c], rest');
      DelimiterAlike([p.c] + rest, [q.c] + rest');
    }
  }

  lemma {:induction false} RecasedValid(ps: seq<Piece>, qs: seq<Piece>)
    requires Recased(ps, qs) && Valid(ps)
    ensures Valid(qs)
    decreases |ps|
  {
    if ps != [] {
      RecasedSource(ps[1..], qs[1..]);
      PieceAlike(ps[0], qs[0], SourceOf(ps[1..]), SourceOf(qs[1..]));
      RecasedValid(ps[1..], qs[1..]);
    }
  }

  /** Any letters of the code may be put into the other case: the lexer still reads the same pieces, and the check
      gives the same answer. */
  lemma CaseIsIgnored(ps: seq<Piece>, qs: seq<Piece>)
    requires Valid(ps) && |ps| == |qs|
    requires forall k | 0 <= k < |ps| ::
               || qs[k] == ps[k]
               || (ps[k].Code? && qs[k].Code? && 'a' <= ps[k].c <= 'z' && ps[k].c as int == qs[k].c as int + 32)
               || (ps[k].Code? && qs[k].Code? && 'a' <= qs[k].c <= 'z' && qs[k].c as int == ps[k].c as int + 32)
    ensures Valid(qs)
    ensures Accepted(SourceOf(ps)) <==> Accepted(SourceOf(qs))
  {
    assert Recased(ps, qs);
    RecasedValid(ps, qs);
    RecasedSource(ps, qs);
    LexIsErasure(SourceOf(ps), ShownOf(ps));
    LexIsErasure(SourceOf(qs), ShownOf(qs));
    BoundedAlike(SourceOf(ps), ShownOf(ps), SourceOf(qs), ShownOf(qs));
  }
}
