/**
 What erasing literals and comments keeps and what it leaves behind: every line end is kept, and
 the visible text contains nothing that the lexer would erase again.
 */
module SqlErasure {
  import opened Common
  import opened TextScan
  import opened NestedComments
  import opened SqlLexer

  // ---------- line ends ----------

  lemma {:induction false} LineEndsConcat(a: Text, b: Text)
    ensures LineEnds(a + b) == LineEnds(a) + LineEnds(b)
  {
    if a == [] {
      assert a + b == b;
    } else {
      LineEndsConcat(a[1..], b);
      assert (a + b)[1..] == a[1..] + b;
    }
  }

  lemma {:induction false} LineEndsTwice(t: Text)
    ensures LineEnds(LineEnds(t)) == LineEnds(t)
  {
    if t != [] {
      LineEndsTwice(t[1..]);
      if t[0] == '\n' {
        assert LineEnds(t)[1..] == LineEnds(t[1..]);
      }
    }
  }

  lemma {:induction false} NoLineEnds(t: Text)
    requires forall k | 0 <= k < |t| :: t[k] != '\n'
    ensures LineEnds(t) == []
  {
    if t != [] {
      NoLineEnds(t[1..]);
    }
  }

  /** The delimiters the lexer can remember contain no line end. */
  predicate ValidState(state: State) {
    match state
    case Normal => true
    case Quoted(q) => IsQuote(q)
    case Block(depth) => depth > 0
    case Dollar(delimiter) => DelimiterLen(delimiter) == Some(|delimiter|)
  }

  lemma DelimiterPrefix(t: Text, n: nat)
    requires DelimiterLen(t) == Some(n)
    ensures DelimiterLen(t[..n]) == Some(n)
    ensures forall k | 0 <= k < n :: t[k] == '$' || TagContinue(t[k])
  {
    if t[1] != '$' {
      RunPrefix(t[1..], TagContinue, n - 1);
      assert t[..n][1..] == t[1..][..n - 1];
      assert forall k | 1 <= k < n - 1 :: t[k] == t[1..][k - 1];
    }
  }

  lemma {:induction false} RunPrefix(t: Text, p: char -> bool, n: nat)
    requires Run(t, p) < n <= |t|
    ensures Run(t[..n], p) == Run(t, p)
    decreases |t|
  {
    if p(t[0]) {
      assert t[..n][1..] == t[1..][..n - 1];
      RunPrefix(t[1..], p, n - 1);
    }
  }

  /** A step keeps the line ends of what it reads. */
  lemma StepKeepsLineEnds(state: State, t: Text)
    requires t != [] && ValidState(state) && Step(state, t).Some?
    ensures ValidState(Step(state, t).value.next)
    ensures LineEnds(Step(state, t).value.visible) == LineEnds(t[..Step(state, t).value.length])
  {
    var m := Step(state, t).value;
    match state
    case Normal => NormalKeepsLineEnds(t);
    case Quoted(q) => NoLineEndsButOne(t, m.length);
    case Block(depth) => NoLineEndsButOne(t, m.length);
    case Dollar(delimiter) =>
      var k := Find(t, delimiter).value;
      DelimiterPrefix(delimiter, |delimiter|);
      assert delimiter[..|delimiter|] == delimiter;
      NoLineEnds(delimiter);
      LineEndsConcat(t[..k], delimiter);
      assert t[..m.length] == t[..k] + delimiter;
      LineEndsTwice(t[..k]);
  }

  lemma NoLineEndsButOne(t: Text, n: nat)
    requires 1 <= n <= 2 && n <= |t| && (n == 2 ==> t[0] != '\n' && t[1] != '\n')
    ensures LineEnds(t[..n]) == if n == 1 then LineEndOf(t[0]) else []
  {
    assert t[..1] == [t[0]];
    if n == 2 {
      NoLineEnds(t[..2]);
    }
  }

  lemma NormalKeepsLineEnds(t: Text)
    requires t != []
    ensures ValidState(StepNormal(t).next)
    ensures LineEnds(StepNormal(t).visible) == LineEnds(t[..StepNormal(t).length])
  {
    var m := StepNormal(t);
    if Starts(t, '-', '-') {
      LineCommentEnds(t);
    } else if Opens(t) {
      NoLineEndsButOne(t, 2);
    } else if IsQuote(t[0]) {
      NoLineEndsButOne(t, 1);
    } else if DelimiterLen(t).Some? {
      DelimiterPrefix(t, m.length);
      NoLineEnds(t[..m.length]);
    } else {
      assert t[..1] == [t[0]];
    }
  }

  lemma LineCommentEnds(t: Text)
    requires Starts(t, '-', '-')
    ensures LineEnds(t[..StepNormal(t).length]) == if Find(t[2..], "\n").Some? then "\n" else []
  {
    match Find(t[2..], "\n")
    case None =>
      forall k | 0 <= k < |t|
        ensures t[k] != '\n'
      {
        if k >= 2 && t[k] == '\n' {
          assert "\n" <= t[2..][k - 2..];
          FindFirst(t[2..], "\n", k - 2);
        }
      }
      NoLineEnds(t);
      assert t[..|t|] == t;
    case Some(j) =>
      forall k | 0 <= k < j + 2
        ensures t[k] != '\n'
      {
        if k >= 2 && t[k] == '\n' {
          assert "\n" <= t[2..][k - 2..];
          FindFirst(t[2..], "\n", k - 2);
        }
      }
      NoLineEnds(t[..j + 2]);
      assert t[2..][j..][..1] == "\n" && t[j + 2] == '\n';
      assert t[..j + 3] == t[..j + 2] + "\n";
      LineEndsConcat(t[..j + 2], "\n");
  }

  /** The visible text has exactly the line ends of the source. */
  lemma {:induction false} ErasureKeepsLineEnds(state: State, t: Text)
    requires ValidState(state) && Lex(state, t).Some?
    ensures LineEnds(Lex(state, t).value) == LineEnds(t)
    decreases |t|, if state.Dollar? then 1 else 0
  {
    if t != [] {
      var m := Step(state, t).value;
      StepKeepsLineEnds(state, t);
      ErasureKeepsLineEnds(m.next, t[m.length..]);
      LineEndsConcat(m.visible, Lex(m.next, t[m.length..]).value);
      LineEndsConcat(t[..m.length], t[m.length..]);
      assert t == t[..m.length] + t[m.length..];
    }
  }

  // ---------- erasing again changes nothing ----------

  /** At no position does anything begin that the lexer erases. */
  predicate Clean(t: Text) {
    t == [] || (StepNormal(t) == Move(1, [t[0]], Normal) && Clean(t[1..]))
  }

  lemma {:induction false} CleanIsFixed(t: Text)
    requires Clean(t)
    ensures Lex(Normal, t) == Some(t)
  {
    if t != [] {
      CleanIsFixed(t[1..]);
      assert t == [t[0]] + t[1..];
    }
  }

  predicate Blank(c: char) {
    c == ' ' || c == '\n'
  }

  /** A run of visible non-blank characters stands unchanged in the source. */
  lemma {:induction false} VisibleRun(t: Text, n: nat)
    requires Lex(Normal, t).Some? && n <= |Lex(Normal, t).value|
    requires forall k | 0 <= k < n :: !Blank(Lex(Normal, t).value[k])
    ensures n <= |t|
    ensures forall k | 0 <= k < n :: t[k] == Lex(Normal, t).value[k]
    decreases |t|
  {
    if n > 0 {
      var v := Lex(Normal, t).value;
      var m := StepNormal(t);
      var back := Lex(m.next, t[m.length..]).value;
      assert v == m.visible + back;
      assert !Blank(m.visible[0]) by { assert v[0] == m.visible[0]; }
      assert v[1..] == back;
      forall k | 0 <= k < n - 1
        ensures !Blank(back[k])
      {
        assert back[k] == v[k + 1];
      }
      VisibleRun(t[1..], n - 1);
      forall k | 0 <= k < n
        ensures t[k] == v[k]
      {
        if k > 0 {
          assert t[k] == t[1..][k - 1] && v[k] == back[k - 1];
        }
      }
    }
  }

  lemma {:induction false} RunSame(t: Text, w: Text, p: char -> bool, n: nat)
    requires n < |t| && n < |w| && (forall k | 0 <= k <= n :: t[k] == w[k]) && Run(w, p) == n
    ensures Run(t, p) == n
    decreases n
  {
    if n > 0 {
      RunSame(t[1..], w[1..], p, n - 1);
    }
  }

  /** A delimiter is recognised by its own characters. */
  lemma DelimiterSame(t: Text, w: Text)
    requires DelimiterLen(w).Some? && DelimiterLen(w).value <= |t|
    requires forall k | 0 <= k < DelimiterLen(w).value :: t[k] == w[k]
    ensures DelimiterLen(t) == DelimiterLen(w)
  {
    if w[1] != '$' {
      RunSame(t[1..], w[1..], TagContinue, DelimiterLen(w).value - 2);
    }
  }

  /** A delimiter in front of visible text already stood in the source. */
  lemma DelimiterWasThere(t: Text, v: Text)
    requires t != [] && Lex(Normal, t[1..]) == Some(v) && DelimiterLen([t[0]] + v).Some?
    ensures DelimiterLen(t) == DelimiterLen([t[0]] + v)
  {
    var w := [t[0]] + v;
    var n := DelimiterLen(w).value;
    DelimiterPrefix(w, n);
    forall k | 0 <= k < n - 1
      ensures !Blank(v[k])
    {
      assert v[k] == w[k + 1];
    }
    VisibleRun(t[1..], n - 1);
    forall k | 0 <= k < n
      ensures t[k] == w[k]
    {
      if k > 0 { assert t[k] == t[1..][k - 1] && w[k] == v[k - 1]; }
    }
    DelimiterSame(t, w);
  }

  /** A visible character does not begin anything together with the visible text behind it. */
  lemma VisibleStaysVisible(t: Text, v: Text)
    requires t != [] && StepNormal(t) == Move(1, [t[0]], Normal) && Lex(Normal, t[1..]) == Some(v)
    ensures StepNormal([t[0]] + v) == Move(1, [t[0]], Normal)
  {
    if v != [] && !Blank(v[0]) {
      VisibleRun(t[1..], 1);
    }
    if DelimiterLen([t[0]] + v).Some? {
      DelimiterWasThere(t, v);
    }
  }

  lemma BlankIsClean(c: char, v: Text)
    requires Blank(c) && Clean(v)
    ensures Clean([c] + v)
  {
    assert ([c] + v)[1..] == v;
  }

  lemma {:induction false} LineEndsClean(t: Text, v: Text)
    requires Clean(v)
    ensures Clean(LineEnds(t) + v)
  {
    if t == [] {
      assert LineEnds(t) + v == v;
    } else {
      LineEndsClean(t[1..], v);
      if t[0] == '\n' {
        assert LineEnds(t) + v == ['\n'] + (LineEnds(t[1..]) + v);
        BlankIsClean('\n', LineEnds(t[1..]) + v);
      }
    }
  }

  lemma NormalStepClean(t: Text, v: Text)
    requires t != [] && Clean(v) && Lex(StepNormal(t).next, t[StepNormal(t).length..]) == Some(v)
    ensures Clean(StepNormal(t).visible + v)
  {
    var m := StepNormal(t);
    if m.visible == " " {
      BlankIsClean(' ', v);
    } else if m.visible == "\n" {
      BlankIsClean('\n', v);
    } else {
      VisibleStaysVisible(t, v);
      assert ([t[0]] + v)[1..] == v;
    }
  }

  lemma {:induction false} ErasureIsClean(state: State, t: Text)
    requires Lex(state, t).Some?
    ensures Clean(Lex(state, t).value)
    decreases |t|, if state.Dollar? then 1 else 0
  {
    if t != [] {
      var m := Step(state, t).value;
      var v := Lex(m.next, t[m.length..]).value;
      ErasureIsClean(m.next, t[m.length..]);
      match state
      case Normal => NormalStepClean(t, v);
      case Dollar(delimiter) => LineEndsClean(t[..Find(t, delimiter).value], v);
      case _ =>
        if m.visible == [] { assert [] + v == v; } else { BlankIsClean('\n', v); }
    }
  }

  /** The visible text is a fixed point of the lexer. */
  lemma ErasureIsFixed(t: Text)
    requires Lex(Normal, t).Some?
    ensures Lex(Normal, Lex(Normal, t).value) == Lex(Normal, t)
  {
    ErasureIsClean(Normal, t);
    CleanIsFixed(Lex(Normal, t).value);
  }
}
