/**
 Joining the tokens of a text with newlines and lexing the result gives the same tokens.  The heart
 is locality: a token is recognised again when everything behind it is replaced by a line end.
 */
module RustRoundTrip {
  import opened Common
  import opened RustLexer
  import opened TextScan

  /** `w` is the first n characters of `t`, and then nothing or a line end. */
  predicate Cut(t: Text, w: Text, n: nat) {
    && n <= |t| && n <= |w|
    && (forall k | 0 <= k < n :: w[k] == t[k])
    && (n < |w| ==> w[n] == '\n')
  }

  lemma CutDrop(t: Text, w: Text, n: nat, d: nat)
    requires Cut(t, w, n) && d <= n
    ensures Cut(t[d..], w[d..], n - d)
  {
  }

  // ---------- locality of the scanners ----------

  lemma {:induction false} RunLocal(t: Text, w: Text, n: nat, p: char -> bool)
    requires Cut(t, w, n) && Run(t, p) <= n && !p('\n')
    ensures Run(w, p) == Run(t, p)
    decreases |t|
  {
    if n > 0 && p(t[0]) {
      CutDrop(t, w, n, 1);
      RunLocal(t[1..], w[1..], n - 1, p);
    }
  }

  lemma {:induction false} FindLocal(t: Text, w: Text, n: nat, word: Text)
    requires Cut(t, w, n)
    requires Find(t, word).Some? && Find(t, word).value + |word| <= n
    ensures Find(w, word) == Find(t, word)
    decreases |t|
  {
    assert w[..|word|] == t[..|word|];
    if !(word <= t) {
      CutDrop(t, w, n, 1);
      FindLocal(t[1..], w[1..], n - 1, word);
    }
  }

  lemma {:induction false} QuotedLocal(t: Text, w: Text, n: nat)
    requires Cut(t, w, n) && QuotedLen(t).Some? && QuotedLen(t).value <= n
    ensures QuotedLen(w) == QuotedLen(t)
    decreases |t|
  {
    if t[0] != '"' {
      var d := if t[0] == '\\' then 2 else 1;
      CutDrop(t, w, n, d);
      QuotedLocal(t[d..], w[d..], n - d);
    }
  }

  // ---------- locality of the literals ----------

  lemma RawOpenLocal(t: Text, w: Text, n: nat)
    requires Cut(t, w, n) && 0 < RawPrefix(t) && RawOpen(t) < n
    ensures RawPrefix(w) == RawPrefix(t)
    ensures RawOpen(w) == RawOpen(t)
  {
    CutDrop(t, w, n, RawPrefix(t));
    RunLocal(t[RawPrefix(t)..], w[RawPrefix(t)..], n - RawPrefix(t), Hash);
  }

  lemma RawLocal(t: Text, w: Text, n: nat)
    requires Cut(t, w, n) && RawLen(t) == Ends(n)
    ensures RawLen(w) == Ends(n)
  {
    var open := RawOpen(t);
    RawOpenLocal(t, w, n);
    assert RawClosing(w) == RawClosing(t);
    CutDrop(t, w, n, open + 1);
    FindLocal(t[open + 1..], w[open + 1..], n - (open + 1), RawClosing(t));
  }

  lemma CharLocal(t: Text, w: Text, n: nat)
    requires Cut(t, w, n) && t != [] && t[0] == '\'' && CharLen(t) == Ends(n)
    ensures CharLen(w) == Ends(n)
  {
    if t[1] == '\\' && t[2] == 'u' && |t| > 3 && t[3] == '{' {
      CutDrop(t, w, n, 4);
      FindLocal(t[4..], w[4..], n - 4, "}");
    }
  }

  lemma CharTokenLocal(t: Text, w: Text, n: nat)
    requires Cut(t, w, n) && CharToken(t) == Ends(n)
    ensures CharToken(w) == Ends(n)
  {
    var q := QuoteAt(t);
    CutDrop(t, w, n, q);
    CharLocal(t[q..], w[q..], n - q);
  }

  lemma StringLocal(t: Text, w: Text, n: nat)
    requires Cut(t, w, n) && StringStart(t) && StringStep(t) == Emit(n)
    ensures StringStart(w) && StringStep(w) == Emit(n)
  {
    var open := if t[0] == '"' then 1 else 2;
    CutDrop(t, w, n, open);
    QuotedLocal(t[open..], w[open..], n - open);
  }

  // ---------- locality of numbers ----------

  lemma DigitsLocal(u: Unicode, t: Text, w: Text, n: nat)
    requires Cut(t, w, n) && DigitsLen(u, t) <= n
    ensures DigitsLen(u, w) == DigitsLen(u, t)
  {
    RunLocal(t, w, n, c => Digit(u, c) || c == '_');
  }

  lemma IntegerLocal(t: Text, w: Text, n: nat)
    requires Cut(t, w, n) && 0 < n && IntegerLen(t) <= n
    ensures RadixOf(w) == RadixOf(t)
    ensures IntegerLen(w) == IntegerLen(t)
  {
    var d := if RadixOf(t) == Decimal then 0 else 2;
    CutDrop(t, w, n, d);
    RunLocal(t[d..], w[d..], n - d, c => RadixDigit(RadixOf(t), c));
  }

  lemma SuffixLocal(t: Text, w: Text)
    requires Cut(t, w, SuffixLen(t))
    ensures SuffixLen(w) == SuffixLen(t)
  {
    var n := SuffixLen(t);
    if n > 0 {
      CutDrop(t, w, n, 1);
      RunLocal(t[1..], w[1..], n - 1, IdentContinue);
    }
  }

  lemma ExponentLocal(u: Unicode, t: Text, w: Text, n: nat)
    requires Cut(t, w, n) && n == ScaleLen(u, t) && ExponentLen(u, t) > 0
    ensures ExponentLen(u, w) == ExponentLen(u, t)
  {
    var d := if |t| > 1 && t[1] in {'+', '-'} then 2 else 1;
    CutDrop(t, w, n, d);
    DigitsLocal(u, t[d..], w[d..], n - d);
  }

  /** An `e` without digits behind it belongs to the suffix, and still does when it is cut off. */
  lemma NoExponentLocal(u: Unicode, t: Text, w: Text, n: nat)
    requires Cut(t, w, n) && n == ScaleLen(u, t) && ExponentLen(u, t) == 0
    ensures ExponentLen(u, w) == 0
  {
    if n > 0 && t[0] in {'e', 'E'} {
      CutDrop(t, w, n, 1);
      if |t| > 1 && t[1] in {'+', '-'} {
        assert !IdentContinue(t[1..][0]);
      } else {
        DigitsLocal(u, t[1..], w[1..], n - 1);
      }
    }
  }

  lemma ScaleLocal(u: Unicode, t: Text, w: Text)
    requires Cut(t, w, ScaleLen(u, t))
    ensures ScaleLen(u, w) == ScaleLen(u, t)
  {
    var n := ScaleLen(u, t);
    var e := ExponentLen(u, t);
    if e > 0 {
      ExponentLocal(u, t, w, n);
    } else {
      NoExponentLocal(u, t, w, n);
    }
    CutDrop(t, w, n, e);
    SuffixLocal(t[e..], w[e..]);
  }

  lemma FractionLocal(u: Unicode, t: Text, w: Text, n: nat)
    requires Cut(t, w, n) && FractionLen(u, t) <= n
    requires n > 0 && t[0] == '.' ==> FractionLen(u, t) > 0
    ensures FractionLen(u, w) == FractionLen(u, t)
  {
    if FractionLen(u, t) > 0 {
      CutDrop(t, w, n, 1);
      DigitsLocal(u, t[1..], w[1..], n - 1);
    }
  }

  lemma DecimalRestLocal(u: Unicode, t: Text, w: Text)
    requires Cut(t, w, DecimalRestLen(u, t))
    ensures DecimalRestLen(u, w) == DecimalRestLen(u, t)
  {
    var n := DecimalRestLen(u, t);
    var f := FractionLen(u, t);
    FractionLocal(u, t, w, n);
    CutDrop(t, w, n, f);
    ScaleLocal(u, t[f..], w[f..]);
  }

  lemma NumericLocal(u: Unicode, t: Text, w: Text)
    requires Cut(t, w, NumericLen(u, t)) && NumericLen(u, t) > 0
    ensures NumericLen(u, w) == NumericLen(u, t)
  {
    var n := NumericLen(u, t);
    var i := IntegerLen(t);
    IntegerLocal(t, w, n);
    CutDrop(t, w, n, i);
    if RadixOf(t) == Decimal {
      DecimalRestLocal(u, t[i..], w[i..]);
    } else {
      SuffixLocal(t[i..], w[i..]);
    }
  }

  // ---------- locality of a step ----------

  lemma {:induction false} FirstItemLocal(items: seq<Text>, t: Text, w: Text)
    requires t != [] && (forall k | 0 <= k < |items| :: ItemShape(items[k])) && Cut(t, w, FirstItemLen(items, t))
    ensures FirstItemLen(items, w) == FirstItemLen(items, t)
  {
    if items != [] {
      var n := FirstItemLen(items, t);
      var item := items[0];
      if n < |item| && n < |w| {
        assert item[n] != w[n];
      }
      if |item| <= n {
        assert w[..|item|] == t[..|item|];
      }
      if !(item <= t) {
        FirstItemLocal(items[1..], t, w);
      }
    }
  }

  lemma WordLocal(u: Unicode, t: Text, w: Text, n: nat)
    requires t != [] && LexWord(u, t) == Emit(n) && Cut(t, w, n)
    ensures LexWord(u, w) == Emit(n)
  {
    if RawIdent(t) {
      CutDrop(t, w, n, 3);
      RunLocal(t[3..], w[3..], n - 3, IdentContinue);
    } else if IdentStart(t[0]) {
      CutDrop(t, w, n, 1);
      RunLocal(t[1..], w[1..], n - 1, IdentContinue);
    } else if Digit(u, t[0]) {
      NumericLocal(u, t, w);
    } else {
      ItemShapes();
      FirstItemLocal(MULTI_PUNCTUATION, t, w);
    }
  }

  /** A word cut off is still not a raw string, ... */
  lemma WordNotRaw(u: Unicode, t: Text, w: Text, n: nat)
    requires t != [] && LexWord(u, t) == Emit(n) && Cut(t, w, n) && RawLen(t) == Absent
    ensures RawLen(w) == Absent
  {
    var p := RawPrefix(w);
    if p > 0 {
      if RawIdent(t) {
        assert w[1..][0] == '#' && w[1..][1] == t[2];
        assert Run(w[1..], Hash) == 1;
      } else {
        assert n == 1 + Run(t[1..], IdentContinue);
        if p < n {
          assert w[p] == t[1..][p - 1];
        }
      }
    }
  }

  /** ... nor a character literal. */
  lemma WordNotChar(u: Unicode, t: Text, w: Text, n: nat)
    requires t != [] && LexWord(u, t) == Emit(n) && Cut(t, w, n) && CharToken(t) == Absent
    ensures CharToken(w) == Absent
  {
    if IdentStart(t[0]) && !RawIdent(t) && n > 1 {
      assert IdentContinue(t[1..][0]);
    }
    assert !Starts(w, 'b', '\'');
    ItemShapes();
    FirstItemFits(MULTI_PUNCTUATION, t);
  }

  lemma StepLocal(u: Unicode, t: Text, w: Text, n: nat)
    requires t != [] && LexStep(u, t) == Emit(n) && Cut(t, w, n)
    ensures LexStep(u, w) == Emit(n)
  {
    if RawLen(t).Ends? {
      RawLocal(t, w, n);
    } else if StringStart(t) {
      StringLocal(t, w, n);
    } else if CharToken(t).Ends? {
      CharTokenLocal(t, w, n);
    } else {
      WordLocal(u, t, w, n);
      WordNotRaw(u, t, w, n);
      WordNotChar(u, t, w, n);
    }
  }

  // ---------- the round trip ----------

  function Join(ts: seq<Text>): Text {
    if ts == [] then []
    else if |ts| == 1 then ts[0]
    else ts[0] + "\n" + Join(ts[1..])
  }

  lemma TokensBehindNewline(u: Unicode, t: Text)
    ensures Tokens(u, "\n" + t) == Tokens(u, t)
  {
    assert LexStep(u, "\n" + t) == Skip(1);
    assert ("\n" + t)[1..] == t;
  }

  /** A token in front of a joined text is read back alone. */
  lemma {:induction false} TokensOfCut(u: Unicode, t: Text, n: nat, r: Text)
    requires t != [] && LexStep(u, t) == Emit(n) && (r == [] || r[0] == '\n')
    ensures Tokens(u, t[..n] + r)
      == match Tokens(u, r) { case None => None case Some(rest) => Some([t[..n]] + rest) }
  {
    var w := t[..n] + r;
    StepLocal(u, t, w, n);
    assert w[n..] == r && w[..n] == t[..n];
  }

  lemma {:induction false} RoundTrip(u: Unicode, t: Text)
    requires Tokens(u, t).Some?
    ensures Tokens(u, Join(Tokens(u, t).value)) == Tokens(u, t)
    decreases |t|
  {
    if t != [] {
      var step := LexStep(u, t);
      RoundTrip(u, t[step.length..]);
      if step.Emit? {
        var rest := Tokens(u, t[step.length..]).value;
        assert ([t[..step.length]] + rest)[1..] == rest;
        if rest == [] {
          TokensOfCut(u, t, step.length, []);
          assert t[..step.length] + [] == t[..step.length];
        } else {
          TokensOfCut(u, t, step.length, "\n" + Join(rest));
          assert t[..step.length] + "\n" + Join(rest) == t[..step.length] + ("\n" + Join(rest));
          TokensBehindNewline(u, Join(rest));
        }
      }
    }
  }
}
