/**
 The literals of the Rust lexer as a grammar: what a character literal and a number are made of, apart
 from how they are scanned.  The scans end exactly behind such a literal.
 */
module RustGrammar {
  import opened Common
  import opened TextScan
  import opened RustLexer

  // ---------- character literals ----------

  datatype CharLiteral =
    | Single(c: char)
    | Escaped(c: char)
    | HexEscape(a: char, b: char)
    | UnicodeEscape(code: Text)

  function CharText(l: CharLiteral): Text {
    match l
    case Single(c) => ['\'', c, '\'']
    case Escaped(c) => ['\'', '\\', c, '\'']
    case HexEscape(a, b) => ['\'', '\\', 'x', a, b, '\'']
    case UnicodeEscape(code) => ['\'', '\\', 'u', '{'] + code + ['}', '\'']
  }

  predicate IsCharLiteral(l: CharLiteral) {
    match l
    case Single(c) => c !in {'\'', '\\', '\r', '\n'}
    case Escaped(c) => c != 'x'
    case HexEscape(_, _) => true
    case UnicodeEscape(code) => '}' !in code
  }

  ghost predicate IsCharText(w: Text) {
    exists l :: IsCharLiteral(l) && CharText(l) == w
  }

  lemma UnicodeEnds(t: Text, j: nat)
    requires 5 + j < |t| && t[0] == '\'' && t[1] == '\\' && t[2] == 'u' && t[3] == '{' && t[5 + j] == '\''
    requires Find(t[4..], "}") == Some(j)
    ensures CharLen(t) == Ends(j + 6)
  {
  }

  lemma UnicodeText(code: Text, rest: Text)
    ensures CharText(UnicodeEscape(code)) + rest == ['\'', '\\', 'u', '{'] + (code + (['}'] + (['\''] + rest)))
  {
  }

  lemma Behind4(opening: Text, inner: Text)
    requires |opening| == 4
    ensures (opening + inner)[4..] == inner
  {
  }

  lemma ReadUnicode(code: Text, rest: Text)
    requires '}' !in code
    ensures CharLen(CharText(UnicodeEscape(code)) + rest) == Ends(|code| + 6)
  {
    var opening: Text := ['\'', '\\', 'u', '{'];
    var inner := code + (['}'] + (['\''] + rest));
    FindOne(code, '}', ['\''] + rest);
    Behind4(opening, inner);
    assert (opening + inner)[5 + |code|] == inner[1 + |code|] == '\'';
    UnicodeEnds(opening + inner, |code|);
    UnicodeText(code, rest);
  }

  lemma ReadChar(l: CharLiteral, rest: Text)
    requires IsCharLiteral(l)
    ensures CharLen(CharText(l) + rest) == Ends(|CharText(l)|)
  {
    match l
    case UnicodeEscape(code) => ReadUnicode(code, rest);
    case Escaped(c) => assert (CharText(l) + rest)[3] == '\'';
    case _ =>
  }

  lemma ParseUnicode(t: Text, n: nat) returns (l: CharLiteral)
    requires |t| > 3 && t[0] == '\'' && t[1] == '\\' && t[2] == 'u' && t[3] == '{' && CharLen(t) == Ends(n)
    ensures IsCharLiteral(l) && CharText(l) == t[..n]
  {
    var j := Find(t[4..], "}").value;
    l := UnicodeEscape(t[4..][..j]);
    NoneBefore(t[4..], '}', j);
    assert t[4..][j..][..1] == "}";
    assert t[4 + j] == '}' && t[5 + j] == '\'';
    assert t[..n] == t[..4] + t[4..][..j] + t[4 + j..n];
  }

  lemma ParseChar(t: Text, n: nat) returns (l: CharLiteral)
    requires t != [] && t[0] == '\'' && CharLen(t) == Ends(n)
    ensures IsCharLiteral(l) && CharText(l) == t[..n]
  {
    if t[1] != '\\' {
      l := Single(t[1]);
    } else if t[2] == 'u' && |t| > 3 && t[3] == '{' {
      l := ParseUnicode(t, n);
    } else if t[2] == 'x' {
      l := HexEscape(t[3], t[4]);
    } else {
      l := Escaped(t[2]);
    }
  }

  /** The scan ends exactly behind a character literal. */
  lemma CharacterIff(t: Text, n: nat)
    requires t != [] && t[0] == '\''
    ensures CharLen(t) == Ends(n) <==> n <= |t| && IsCharText(t[..n])
  {
    if CharLen(t) == Ends(n) {
      var l := ParseChar(t, n);
    }
    if n <= |t| && IsCharText(t[..n]) {
      var l :| IsCharLiteral(l) && CharText(l) == t[..n];
      assert t == t[..n] + t[n..];
      ReadChar(l, t[n..]);
    }
  }

  /** It fails exactly on an escape that the text breaks off. */
  lemma UnterminatedIff(t: Text)
    requires t != [] && t[0] == '\''
    ensures CharLen(t) == Unterminated <==> t == ['\'', '\\'] || (['\'', '\\', 'u', '{'] <= t && '}' !in t[4..])
  {
    if ['\'', '\\', 'u', '{'] <= t {
      assert t[1] == '\\' && t[2] == 'u' && t[3] == '{';
      NoneBefore(t[4..], '}', if Find(t[4..], "}").Some? then 0 else |t[4..]|);
      assert Find(t[4..], "}").None? ==> t[4..][..|t[4..]|] == t[4..];
      if Find(t[4..], "}").Some? {
        assert t[4..][Find(t[4..], "}").value..][..1] == "}";
        assert t[4..][Find(t[4..], "}").value] == '}';
      }
    }
  }

  // ---------- numbers ----------

  /** The power of ten, as in e-9. */
  datatype Scale = Scale(letter: char, sign: Text, digits: Text)

  datatype Number =
    | Based(letter: char, digits: Text, suffix: Text)
    | Floating(integer: Text, fraction: Option<Text>, scale: Option<Scale>, suffix: Text)

  function FractionText(f: Option<Text>): Text {
    match f case None => [] case Some(digits) => ['.'] + digits
  }

  function ScaleText(s: Option<Scale>): Text {
    match s case None => [] case Some(Scale(letter, sign, digits)) => [letter] + sign + digits
  }

  function NumberText(x: Number): Text {
    match x
    case Based(letter, digits, suffix) => ['0', letter] + (digits + suffix)
    case Floating(integer, fraction, scale, suffix) => integer + (FractionText(fraction) + (ScaleText(scale) + suffix))
  }

  predicate DigitOrBar(u: Unicode, c: char) {
    Digit(u, c) || c == '_'
  }

  predicate AllDigits(u: Unicode, t: Text) {
    forall k | 0 <= k < |t| :: DigitOrBar(u, t[k])
  }

  predicate IsSuffix(t: Text) {
    t == [] || (IdentStart(t[0]) && forall k | 0 <= k < |t| :: IdentContinue(t[k]))
  }

  predicate IsScale(u: Unicode, s: Scale) {
    s.letter in {'e', 'E'} && s.sign in {[], ['+'], ['-']} && s.digits != [] && AllDigits(u, s.digits)
  }

  predicate IsNumber(u: Unicode, x: Number) {
    IsSuffix(x.suffix)
    && match x
       case Based(letter, digits, _) =>
         letter in {'b', 'B', 'o', 'O', 'x', 'X'} && forall k | 0 <= k < |digits| :: RadixDigit(RadixOf(['0', letter]), digits[k])
       case Floating(integer, fraction, scale, _) =>
         && (forall k | 0 <= k < |integer| :: RadixDigit(Radix.Decimal, integer[k]))
         && (fraction.Some? ==> AllDigits(u, fraction.value))
         && (scale.Some? ==> IsScale(u, scale.value))
  }

  predicate Begins(t: Text, p: char -> bool) {
    t != [] && p(t[0])
  }

  /** A power of ten stands at the front. */
  predicate BeginsScale(u: Unicode, t: Text) {
    && t != [] && t[0] in {'e', 'E'}
    && var d := if |t| > 1 && t[1] in {'+', '-'} then 2 else 1;
       d < |t| && DigitOrBar(u, t[d])
  }

  /** Every part goes on as far as it can in front of `rest`: the next character does not belong to it, a
      point or a power of ten that could follow does, and a number without a radix letter has none. */
  predicate Maximal(u: Unicode, x: Number, rest: Text) {
    && !Begins(rest, if x.suffix == [] then IdentStart else IdentContinue)
    && match x
       case Based(letter, digits, suffix) => suffix + rest == [] || !RadixDigit(RadixOf(['0', letter]), (suffix + rest)[0])
       case Floating(integer, fraction, scale, suffix) =>
         var behindScale := suffix + rest;
         var behindFraction := ScaleText(scale) + behindScale;
         var behindInteger := FractionText(fraction) + behindFraction;
         && RadixOf(integer + behindInteger) == Radix.Decimal
         && (behindInteger == [] || !RadixDigit(Radix.Decimal, behindInteger[0]))
         && (fraction.Some? <==> behindInteger != [] && behindInteger[0] == '.' && PointBelongs(u, behindInteger))
         && (fraction.Some? ==> behindFraction == [] || !DigitOrBar(u, behindFraction[0]))
         && (scale.Some? <==> BeginsScale(u, behindFraction))
         && (scale.Some? ==> behindScale == [] || !DigitOrBar(u, behindScale[0]))
  }

  // ---------- the scan reads a number as it is meant ----------

  lemma IntegerIs(t: Text, n: nat)
    requires (if RadixOf(t) == Radix.Decimal then 0 else 2) <= n <= |t|
    requires forall k | (if RadixOf(t) == Radix.Decimal then 0 else 2) <= k < n :: RadixDigit(RadixOf(t), t[k])
    requires n < |t| ==> !RadixDigit(RadixOf(t), t[n])
    ensures IntegerLen(t) == n
  {
    var d := if RadixOf(t) == Radix.Decimal then 0 else 2;
    assert forall k | 0 <= k < n - d :: t[d..][k] == t[d + k];
    assert n < |t| ==> t[d..][n - d] == t[n];
  }

  lemma DigitsIs(u: Unicode, digits: Text, back: Text)
    requires AllDigits(u, digits) && (back == [] || !DigitOrBar(u, back[0]))
    ensures DigitsLen(u, digits + back) == |digits|
  {
    var t := digits + back;
    assert forall k | 0 <= k < |digits| :: t[k] == digits[k];
    assert |digits| < |t| ==> t[|digits|] == back[0];
  }

  lemma FractionIs(u: Unicode, f: Option<Text>, back: Text)
    requires f.Some? ==> AllDigits(u, f.value) && (back == [] || !DigitOrBar(u, back[0]))
    requires var t := FractionText(f) + back; f.Some? <==> t != [] && t[0] == '.' && PointBelongs(u, t)
    ensures FractionLen(u, FractionText(f) + back) == |FractionText(f)|
  {
    var t := FractionText(f) + back;
    if f.Some? {
      DigitsIs(u, f.value, back);
      assert t[1..] == f.value + back;
    }
  }

  lemma ScaleIs(u: Unicode, s: Option<Scale>, back: Text)
    requires s.Some? ==> IsScale(u, s.value) && (back == [] || !DigitOrBar(u, back[0]))
    requires s.Some? <==> BeginsScale(u, ScaleText(s) + back)
    ensures ExponentLen(u, ScaleText(s) + back) == |ScaleText(s)|
  {
    var t := ScaleText(s) + back;
    if s.Some? {
      var head := [s.value.letter] + s.value.sign;
      var d := |head|;
      DigitsIs(u, s.value.digits, back);
      assert t == head + (s.value.digits + back);
      assert t[d..] == s.value.digits + back;
      assert d == 2 ==> t[1] == s.value.sign[0];
      assert t[d] == s.value.digits[0];
    } else if t != [] && t[0] in {'e', 'E'} {
      var d := if |t| > 1 && t[1] in {'+', '-'} then 2 else 1;
      assert t[d..] == [] || t[d..][0] == t[d];
    }
  }

  lemma SuffixIs(suffix: Text, rest: Text)
    requires IsSuffix(suffix) && !Begins(rest, if suffix == [] then IdentStart else IdentContinue)
    ensures SuffixLen(suffix + rest) == |suffix|
  {
    var t := suffix + rest;
    if suffix != [] {
      assert t[1..] == suffix[1..] + rest;
      assert forall k | 0 <= k < |suffix| - 1 :: t[1..][k] == suffix[k + 1];
      assert |suffix| < |t| ==> t[1..][|suffix| - 1] == rest[0];
    }
  }

  lemma ReadBased(u: Unicode, letter: char, digits: Text, suffix: Text, rest: Text)
    requires IsNumber(u, Based(letter, digits, suffix)) && Maximal(u, Based(letter, digits, suffix), rest)
    ensures var t := ['0', letter] + (digits + suffix) + rest; NumericLen(u, t) == 2 + |digits| + |suffix|
  {
    var t := ['0', letter] + (digits + suffix) + rest;
    assert t == ['0', letter] + digits + (suffix + rest);
    assert RadixOf(t) == RadixOf(['0', letter]) != Radix.Decimal;
    assert forall k | 2 <= k < 2 + |digits| :: t[k] == digits[k - 2];
    IntegerIs(t, 2 + |digits|);
    assert t[2 + |digits|..] == suffix + rest;
    SuffixIs(suffix, rest);
  }

  lemma ReadRest(u: Unicode, fraction: Option<Text>, scale: Option<Scale>, suffix: Text, rest: Text)
    requires IsNumber(u, Floating([], fraction, scale, suffix)) && Maximal(u, Floating([], fraction, scale, suffix), rest)
    ensures DecimalRestLen(u, FractionText(fraction) + (ScaleText(scale) + (suffix + rest)))
      == |FractionText(fraction)| + |ScaleText(scale)| + |suffix|
  {
    var behindScale := suffix + rest;
    var behindFraction := ScaleText(scale) + behindScale;
    var t := FractionText(fraction) + behindFraction;
    FractionIs(u, fraction, behindFraction);
    assert t[|FractionText(fraction)|..] == behindFraction;
    ScaleIs(u, scale, behindScale);
    assert behindFraction[|ScaleText(scale)|..] == behindScale;
    SuffixIs(suffix, rest);
  }

  lemma ReadFloating(u: Unicode, integer: Text, fraction: Option<Text>, scale: Option<Scale>, suffix: Text, rest: Text)
    requires IsNumber(u, Floating(integer, fraction, scale, suffix)) && Maximal(u, Floating(integer, fraction, scale, suffix), rest)
    ensures var t := integer + (FractionText(fraction) + (ScaleText(scale) + (suffix + rest)));
      NumericLen(u, t) == |integer| + |FractionText(fraction)| + |ScaleText(scale)| + |suffix|
  {
    var behind := FractionText(fraction) + (ScaleText(scale) + (suffix + rest));
    var t := integer + behind;
    assert forall k | 0 <= k < |integer| :: t[k] == integer[k];
    IntegerIs(t, |integer|);
    assert t[|integer|..] == behind;
    assert [] + behind == behind;
    ReadRest(u, fraction, scale, suffix, rest);
  }

  lemma ReadNumber(u: Unicode, x: Number, rest: Text)
    requires IsNumber(u, x) && Maximal(u, x, rest)
    ensures NumericLen(u, NumberText(x) + rest) == |NumberText(x)|
  {
    match x
    case Based(letter, digits, suffix) => ReadBased(u, letter, digits, suffix, rest);
    case Floating(integer, fraction, scale, suffix) =>
      assert NumberText(x) + rest == integer + (FractionText(fraction) + (ScaleText(scale) + (suffix + rest)));
      ReadFloating(u, integer, fraction, scale, suffix, rest);
  }

  // ---------- what the scan reads is a number ----------

  /** Each part of a number as far as it goes in front of the next. */
  predicate FractionFits(u: Unicode, f: Option<Text>, t: Text, back: Text) {
    && t == FractionText(f) + back
    && (f.Some? ==> AllDigits(u, f.value) && (back == [] || !DigitOrBar(u, back[0])))
    && (f.Some? <==> t != [] && t[0] == '.' && PointBelongs(u, t))
  }

  predicate ScaleFits(u: Unicode, s: Option<Scale>, t: Text, back: Text) {
    && t == ScaleText(s) + back
    && (s.Some? ==> IsScale(u, s.value) && (back == [] || !DigitOrBar(u, back[0])))
    && (s.Some? <==> BeginsScale(u, t))
  }

  predicate SuffixFits(suffix: Text, t: Text, rest: Text) {
    t == suffix + rest && IsSuffix(suffix) && !Begins(rest, if suffix == [] then IdentStart else IdentContinue)
  }

  predicate IntegerFits(integer: Text, t: Text, back: Text) {
    && t == integer + back && RadixOf(t) == Radix.Decimal
    && (forall k | 0 <= k < |integer| :: RadixDigit(Radix.Decimal, integer[k]))
    && (back == [] || !RadixDigit(Radix.Decimal, back[0]))
  }

  lemma FirstAnd(t: Text)
    requires t != []
    ensures t == [t[0]] + t[1..]
  {
  }

  lemma Regroup(a: Text, b: Text, c: Text)
    ensures a + (b + c) == a + b + c
  {
  }

  lemma Parts(a: Text, b: Text)
    ensures (a + b)[..|a|] == a && (a + b)[|a|..] == b
  {
  }

  lemma SuffixRead(t: Text) returns (suffix: Text, rest: Text)
    ensures SuffixFits(suffix, t, rest) && |suffix| == SuffixLen(t)
  {
    var n := SuffixLen(t);
    suffix, rest := t[..n], t[n..];
    if n > 0 {
      assert forall k | 0 < k < n :: t[k] == t[1..][k - 1];
      assert n < |t| ==> t[n] == t[1..][n - 1];
    }
  }

  lemma DigitsRead(u: Unicode, t: Text)
    ensures AllDigits(u, t[..DigitsLen(u, t)])
    ensures t[DigitsLen(u, t)..] == [] || !DigitOrBar(u, t[DigitsLen(u, t)..][0])
  {
  }

  lemma FractionRead(u: Unicode, t: Text) returns (f: Option<Text>, back: Text)
    ensures FractionFits(u, f, t, back) && |FractionText(f)| == FractionLen(u, t)
  {
    var n := FractionLen(u, t);
    back := t[n..];
    if n == 0 {
      f := None;
    } else {
      var behind := t[1..];
      DigitsRead(u, behind);
      f := Some(behind[..n - 1]);
      Behind(t, 1, n - 1);
      Halves(behind, n - 1);
      FirstAnd(t);
      Regroup(['.'], f.value, back);
    }
  }

  /** Where the digits of a power of ten begin. */
  function ScaleDigitsAt(t: Text): nat {
    if |t| > 1 && t[1] in {'+', '-'} then 2 else 1
  }

  lemma ScaleBegins(u: Unicode, t: Text)
    ensures ExponentLen(u, t) > 0 <==> BeginsScale(u, t)
    ensures ExponentLen(u, t) > 0 ==> ExponentLen(u, t) == ScaleDigitsAt(t) + DigitsLen(u, t[ScaleDigitsAt(t)..])
  {
    if t != [] && t[0] in {'e', 'E'} {
      var d := ScaleDigitsAt(t);
      assert d < |t| ==> t[d..][0] == t[d];
    }
  }

  lemma ScaleHead(t: Text) returns (sign: Text)
    requires |t| > 1
    ensures sign in {[], ['+'], ['-']} && t[..ScaleDigitsAt(t)] == [t[0]] + sign
  {
    sign := if t[1] in {'+', '-'} then [t[1]] else [];
  }

  lemma ScaleRead(u: Unicode, t: Text) returns (s: Option<Scale>, back: Text)
    ensures ScaleFits(u, s, t, back) && |ScaleText(s)| == ExponentLen(u, t)
  {
    var n := ExponentLen(u, t);
    ScaleBegins(u, t);
    back := t[n..];
    if n == 0 {
      s := None;
    } else {
      var d := ScaleDigitsAt(t);
      var behind := t[d..];
      var digits := behind[..n - d];
      var sign := ScaleHead(t);
      s := Some(Scale(t[0], sign, digits));
      DigitsRead(u, behind);
      Behind(t, d, n - d);
      Halves(t, d);
      Halves(behind, n - d);
      Regroup([t[0]] + sign, digits, back);
    }
  }

  lemma BasedText(t: Text, i: nat, suffix: Text, rest: Text)
    requires 2 <= i <= |t| && t[0] == '0' && t[i..] == suffix + rest
    ensures t == ['0', t[1]] + (t[2..i] + suffix) + rest
  {
    assert t == t[..i] + t[i..];
  }

  lemma BasedRead(u: Unicode, t: Text) returns (x: Number, rest: Text)
    requires RadixOf(t) != Radix.Decimal
    ensures t == NumberText(x) + rest && |NumberText(x)| == NumericLen(u, t)
    ensures IsNumber(u, x) && Maximal(u, x, rest)
  {
    var i := IntegerLen(t);
    var back := t[i..];
    var suffix;
    suffix, rest := SuffixRead(back);
    x := Based(t[1], t[2..i], suffix);
    assert RadixOf(['0', t[1]]) == RadixOf(t);
    assert forall k | 0 <= k < i - 2 :: t[2..i][k] == t[2..][k];
    BasedText(t, i, suffix, rest);
    assert back != [] ==> back[0] == t[2..][i - 2];
  }

  lemma IntegerRead(t: Text) returns (integer: Text, back: Text)
    requires RadixOf(t) == Radix.Decimal
    ensures IntegerFits(integer, t, back) && |integer| == IntegerLen(t) && back == t[IntegerLen(t)..]
  {
    assert t[0..] == t;
    integer, back := t[..IntegerLen(t)], t[IntegerLen(t)..];
  }

  lemma LensAdd(u: Unicode, t: Text, behindInteger: Text, behindFraction: Text, behindScale: Text)
    requires RadixOf(t) == Radix.Decimal && behindInteger == t[IntegerLen(t)..]
    requires behindFraction == behindInteger[FractionLen(u, behindInteger)..]
    requires behindScale == behindFraction[ExponentLen(u, behindFraction)..]
    ensures NumericLen(u, t)
      == IntegerLen(t) + FractionLen(u, behindInteger) + ExponentLen(u, behindFraction) + SuffixLen(behindScale)
  {
  }

  lemma FloatingFits(u: Unicode, t: Text, x: Number, rest: Text, behindInteger: Text, behindFraction: Text, behindScale: Text)
    requires x.Floating? && IntegerFits(x.integer, t, behindInteger) && FractionFits(u, x.fraction, behindInteger, behindFraction)
    requires ScaleFits(u, x.scale, behindFraction, behindScale) && SuffixFits(x.suffix, behindScale, rest)
    ensures IsNumber(u, x) && Maximal(u, x, rest)
  {
  }

  lemma FloatingText(x: Number, rest: Text)
    requires x.Floating?
    ensures NumberText(x) + rest == x.integer + (FractionText(x.fraction) + (ScaleText(x.scale) + (x.suffix + rest)))
  {
  }

  lemma FloatingRead(u: Unicode, t: Text) returns (x: Number, rest: Text)
    requires RadixOf(t) == Radix.Decimal
    ensures t == NumberText(x) + rest && |NumberText(x)| == NumericLen(u, t)
    ensures IsNumber(u, x) && Maximal(u, x, rest)
  {
    var integer, behindInteger := IntegerRead(t);
    var fraction, behindFraction := FractionRead(u, behindInteger);
    var scale, behindScale := ScaleRead(u, behindFraction);
    var suffix;
    suffix, rest := SuffixRead(behindScale);
    x := Floating(integer, fraction, scale, suffix);
    FloatingFits(u, t, x, rest, behindInteger, behindFraction, behindScale);
    FloatingText(x, rest);
    FloatingLength(u, t, x, behindInteger, behindFraction, behindScale);
  }

  lemma FloatingLength(u: Unicode, t: Text, x: Number, behindInteger: Text, behindFraction: Text, behindScale: Text)
    requires RadixOf(t) == Radix.Decimal && x.Floating? && |x.integer| == IntegerLen(t) && behindInteger == t[IntegerLen(t)..]
    requires behindInteger == FractionText(x.fraction) + behindFraction && |FractionText(x.fraction)| == FractionLen(u, behindInteger)
    requires behindFraction == ScaleText(x.scale) + behindScale && |ScaleText(x.scale)| == ExponentLen(u, behindFraction)
    requires |x.suffix| == SuffixLen(behindScale)
    ensures |NumberText(x)| == NumericLen(u, t)
  {
    assert behindInteger[|FractionText(x.fraction)|..] == behindFraction;
    assert behindFraction[|ScaleText(x.scale)|..] == behindScale;
    LensAdd(u, t, behindInteger, behindFraction, behindScale);
  }

  ghost predicate ReadsNumber(u: Unicode, t: Text, n: nat)
    requires n <= |t|
  {
    exists x :: IsNumber(u, x) && NumberText(x) == t[..n] && Maximal(u, x, t[n..])
  }

  /** The scan ends exactly behind a number that goes on as far as it can. */
  lemma NumberIff(u: Unicode, t: Text, n: nat)
    ensures NumericLen(u, t) == n <==> n <= |t| && ReadsNumber(u, t, n)
  {
    if NumericLen(u, t) == n {
      var x, rest;
      if RadixOf(t) == Radix.Decimal {
        x, rest := FloatingRead(u, t);
      } else {
        x, rest := BasedRead(u, t);
      }
      Parts(NumberText(x), rest);
    }
    if n <= |t| && ReadsNumber(u, t, n) {
      var x :| IsNumber(u, x) && NumberText(x) == t[..n] && Maximal(u, x, t[n..]);
      Halves(t, n);
      ReadNumber(u, x, t[n..]);
    }
  }
}
