/**
 The lexer of the Rust source checks, as functions of the text that is still unread: each returns
 how many characters it consumes.  Non-ASCII characters are identifier characters; whether one
 counts as white space or as a digit is left open in `Unicode`.
 */
module RustLexer {
  import opened Common
  import opened NestedComments
  import opened TextScan

  datatype Unicode = Unicode(space: char -> bool, digit: char -> bool)

  // ---------- character classes ----------

  predicate Ascii(c: char) {
    c as int < 128
  }

  predicate Space(u: Unicode, c: char) {
    if Ascii(c) then 9 <= c as int <= 13 || 28 <= c as int <= 32 else u.space(c)
  }

  predicate AsciiDigit(c: char) {
    '0' <= c <= '9'
  }

  predicate Digit(u: Unicode, c: char) {
    if Ascii(c) then AsciiDigit(c) else u.digit(c)
  }

  predicate IdentStart(c: char) {
    c == '_' || 'a' <= c <= 'z' || 'A' <= c <= 'Z' || !Ascii(c)
  }

  predicate IdentContinue(c: char) {
    IdentStart(c) || AsciiDigit(c)
  }

  // ---------- scanning ----------

  /** Behind an opening double quote: up to and including the closing one. */
  function QuotedLen(t: Text): (r: Option<nat>)
    ensures r.Some? ==> 0 < r.value <= |t|
  {
    if t == [] then None
    else if t[0] == '"' then Some(1)
    else
      var d := if t[0] == '\\' then 2 else 1;
      if |t| < d then None
      else match QuotedLen(t[d..])
           case None => None
           case Some(n) => Some(d + n)
  }

  // ---------- literals ----------

  datatype Literal = Absent | Unterminated | Ends(length: nat)

  function RawPrefix(t: Text): (n: nat)
    ensures n <= |t|
  {
    if Starts(t, 'b', 'r') || Starts(t, 'c', 'r') then 2
    else if |t| >= 1 && t[0] == 'r' then 1
    else 0
  }

  function Hashes(n: nat): Text {
    seq(n, _ => '#')
  }

  predicate Hash(c: char) {
    c == '#'
  }

  /** Position of the opening quote of a raw string, were there one. */
  function RawOpen(t: Text): (n: nat)
    ensures RawPrefix(t) <= n <= |t|
  {
    RawPrefix(t) + Run(t[RawPrefix(t)..], Hash)
  }

  /** A double quote and as many hashes as stand before the opening quote. */
  function RawClosing(t: Text): (s: Text)
    ensures |s| == 1 + RawOpen(t) - RawPrefix(t)
  {
    ['"'] + Hashes(RawOpen(t) - RawPrefix(t))
  }

  function RawLen(t: Text): (r: Literal)
    ensures r.Ends? ==> 0 < r.length <= |t|
  {
    var open := RawOpen(t);
    if RawPrefix(t) == 0 || open == |t| || t[open] != '"' then Absent
    else match Find(t[open + 1..], RawClosing(t))
         case None => Unterminated
         case Some(j) => Ends(open + 1 + j + |RawClosing(t)|)
  }

  /** From a single quote on: a character literal, or Absent for a lifetime. */
  function CharLen(t: Text): (r: Literal)
    requires t != [] && t[0] == '\''
    ensures r.Ends? ==> 1 < r.length <= |t|
  {
    if |t| == 1 || t[1] in {'\'', '\r', '\n'} then Absent
    else if t[1] == '\\' then
      if |t| == 2 then Unterminated
      else if t[2] == 'u' && |t| > 3 && t[3] == '{' then
        match Find(t[4..], "}")
        case None => Unterminated
        case Some(j) => ClosedAt(t, 5 + j)
      else ClosedAt(t, if t[2] == 'x' then 5 else 3)
    else ClosedAt(t, 2)
  }

  function ClosedAt(t: Text, i: nat): Literal {
    if i < |t| && t[i] == '\'' then Ends(i + 1) else Absent
  }

  datatype Radix = Binary | Octal | Hexadecimal | Decimal

  function RadixOf(t: Text): Radix {
    if Starts(t, '0', 'b') || Starts(t, '0', 'B') then Binary
    else if Starts(t, '0', 'o') || Starts(t, '0', 'O') then Octal
    else if Starts(t, '0', 'x') || Starts(t, '0', 'X') then Hexadecimal
    else Decimal
  }

  predicate RadixDigit(r: Radix, c: char) {
    c == '_' || match r
                case Binary => '0' <= c <= '1'
                case Octal => '0' <= c <= '7'
                case Hexadecimal => AsciiDigit(c) || 'a' <= c <= 'f' || 'A' <= c <= 'F'
                case Decimal => AsciiDigit(c)
  }

  /** The digits after the radix prefix. */
  function IntegerLen(t: Text): (n: nat)
    ensures n <= |t|
  {
    var d := if RadixOf(t) == Decimal then 0 else 2;
    d + Run(t[d..], c => RadixDigit(RadixOf(t), c))
  }

  /** Whether the point that `t` starts with belongs to the number rather than to a range or a call. */
  predicate PointBelongs(u: Unicode, t: Text)
    requires t != [] && t[0] == '.'
  {
    || |t| == 1
    || (t[1] != '.' && (Digit(u, t[1]) || t[1] in {'_', 'e', 'E'} || !IdentStart(t[1])))
  }

  function DigitsLen(u: Unicode, t: Text): (n: nat)
    ensures n <= |t|
  {
    Run(t, c => Digit(u, c) || c == '_')
  }

  function FractionLen(u: Unicode, t: Text): (n: nat)
    ensures n <= |t|
  {
    if t != [] && t[0] == '.' && PointBelongs(u, t) then 1 + DigitsLen(u, t[1..]) else 0
  }

  function ExponentLen(u: Unicode, t: Text): (n: nat)
    ensures n <= |t|
  {
    if t == [] || t[0] !in {'e', 'E'} then 0
    else
      var d := if |t| > 1 && t[1] in {'+', '-'} then 2 else 1;
      var n := DigitsLen(u, t[d..]);
      if n > 0 then d + n else 0
  }

  function SuffixLen(t: Text): (n: nat)
    ensures n <= |t|
  {
    if t != [] && IdentStart(t[0]) then 1 + Run(t[1..], IdentContinue) else 0
  }

  /** Behind the fraction. */
  function ScaleLen(u: Unicode, t: Text): (n: nat)
    ensures n <= |t|
  {
    var e := ExponentLen(u, t);
    e + SuffixLen(t[e..])
  }

  /** Behind the integer digits of a decimal number. */
  function DecimalRestLen(u: Unicode, t: Text): (n: nat)
    ensures n <= |t|
  {
    var f := FractionLen(u, t);
    f + ScaleLen(u, t[f..])
  }

  function NumericLen(u: Unicode, t: Text): (n: nat)
    ensures n <= |t|
  {
    var i := IntegerLen(t);
    i + if RadixOf(t) == Decimal then DecimalRestLen(u, t[i..]) else SuffixLen(t[i..])
  }

  // ---------- punctuation ----------

  const MULTI_PUNCTUATION: seq<Text> := [
    "<<=", ">>=", "..=", "...", "::", "->", "=>", "==", "!=", "<=", ">=",
    "&&", "||", "<<", ">>", "+=", "-=", "*=", "/=", "%=", "&=", "|=", "^=", ".."]

  /** Length of the first item that `t` starts with, or 1. */
  function FirstItemLen(items: seq<Text>, t: Text): nat {
    if items == [] then 1
    else if items[0] <= t then |items[0]|
    else FirstItemLen(items[1..], t)
  }

  function PunctuationLen(t: Text): (n: nat)
    requires t != []
    ensures 0 < n <= |t|
  {
    ItemShapes();
    FirstItemFits(MULTI_PUNCTUATION, t);
    FirstItemLen(MULTI_PUNCTUATION, t)
  }

  predicate ItemShape(item: Text) {
    |item| >= 2 && item[0] != '\'' && forall i | 0 <= i < |item| :: item[i] != '\n'
  }

  lemma ItemShapes()
    ensures forall k | 0 <= k < |MULTI_PUNCTUATION| :: ItemShape(MULTI_PUNCTUATION[k])
  {
  }

  lemma {:induction false} FirstItemFits(items: seq<Text>, t: Text)
    requires t != [] && forall k | 0 <= k < |items| :: ItemShape(items[k])
    ensures 0 < FirstItemLen(items, t) <= |t|
    ensures t[0] == '\'' ==> FirstItemLen(items, t) == 1
  {
    if items != [] {
      FirstItemFits(items[1..], t);
    }
  }

  // ---------- one step ----------

  datatype Step = Skip(length: nat) | Emit(length: nat) | Fail

  predicate StringStart(t: Text) {
    t != [] && (t[0] == '"' || (t[0] in {'b', 'c'} && |t| > 1 && t[1] == '"'))
  }

  /** Where a character literal would have its quote. */
  function QuoteAt(t: Text): (q: nat)
    ensures q <= |t|
  {
    if Starts(t, 'b', '\'') then 1 else 0
  }

  function CharToken(t: Text): (r: Literal)
    ensures r.Ends? ==> 1 < r.length <= |t|
  {
    var q := QuoteAt(t);
    if q < |t| && t[q] == '\'' then
      match CharLen(t[q..])
      case Ends(n) => Ends(q + n)
      case other => other
    else Absent
  }

  predicate RawIdent(t: Text) {
    Starts(t, 'r', '#') && |t| > 2 && IdentStart(t[2])
  }

  function LineCommentLen(t: Text): (n: nat)
    requires Starts(t, '/', '/')
    ensures 1 < n <= |t|
  {
    match Find(t[2..], "\n")
    case None => |t|
    case Some(j) => j + 3
  }

  function SkipOrFail(r: Option<nat>, n: nat): Step {
    if r.None? then Fail else Skip(n + r.value)
  }

  function EmitOrFail(r: Option<nat>, n: nat): Step {
    if r.None? then Fail else Emit(n + r.value)
  }

  function StringStep(t: Text): Step
    requires StringStart(t)
  {
    var open := if t[0] == '"' then 1 else 2;
    EmitOrFail(QuotedLen(t[open..]), open)
  }

  function LexStep(u: Unicode, t: Text): (r: Step)
    requires t != []
    ensures r.Skip? || r.Emit? ==> 0 < r.length <= |t|
  {
    if Space(u, t[0]) then Skip(1)
    else if Starts(t, '/', '/') then Skip(LineCommentLen(t))
    else if Opens(t) then SkipOrFail(BlockLen(t[2..], 1), 2)
    else match RawLen(t)
      case Unterminated => Fail
      case Ends(n) => Emit(n)
      case Absent =>
        if StringStart(t) then StringStep(t)
        else match CharToken(t)
          case Unterminated => Fail
          case Ends(n) => Emit(n)
          case Absent => LexWord(u, t)
  }

  /** Identifiers, numbers and punctuation. */
  function LexWord(u: Unicode, t: Text): (r: Step)
    requires t != []
    ensures r.Emit? && 0 < r.length <= |t|
  {
    if RawIdent(t) then Emit(3 + Run(t[3..], IdentContinue))
    else if IdentStart(t[0]) then Emit(1 + Run(t[1..], IdentContinue))
    else if Digit(u, t[0]) then
      NumericNonEmpty(u, t);
      Emit(NumericLen(u, t))
    else Emit(PunctuationLen(t))
  }

  lemma NumericNonEmpty(u: Unicode, t: Text)
    requires t != [] && !IdentStart(t[0]) && Digit(u, t[0])
    ensures NumericLen(u, t) > 0
  {
    assert RadixDigit(Decimal, t[0]);
  }

  // ---------- the token list ----------

  /** The tokens of a text; None where the lexer raises. */
  function Tokens(u: Unicode, t: Text): Option<seq<Text>>
    decreases |t|
  {
    if t == [] then Some([])
    else match LexStep(u, t)
      case Fail => None
      case Skip(n) => Tokens(u, t[n..])
      case Emit(n) =>
        match Tokens(u, t[n..])
        case None => None
        case Some(rest) => Some([t[..n]] + rest)
  }
}
