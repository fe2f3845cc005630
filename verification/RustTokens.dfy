/**
 The tokens of the Rust lexer as a grammar, apart from how they are scanned: what each token is made of,
 and what may not stand behind it.  A text is a row of blanks, comments and tokens, each going on as far
 as it can, and the lexer returns exactly these tokens.
 */
module RustTokens {
  import opened Common
  import opened NestedComments
  import opened TextScan
  import opened RustLexer
  import opened RustGrammar

  // ---------- characters ----------

  predicate WordStart(c: char) {
    c == '_' || 'a' <= c <= 'z' || 'A' <= c <= 'Z' || c as int >= 128
  }

  predicate WordPart(c: char) {
    WordStart(c) || '0' <= c <= '9'
  }

  predicate White(u: Unicode, c: char) {
    if c as int < 128 then 9 <= c as int <= 13 || 28 <= c as int <= 32 else u.space(c)
  }

  lemma ClassesIff(u: Unicode, c: char)
    ensures IdentStart(c) <==> WordStart(c)
    ensures IdentContinue(c) <==> WordPart(c)
    ensures Space(u, c) <==> White(u, c)
    ensures Digit(u, c) <==> '0' <= c <= '9' || (c as int >= 128 && u.digit(c))
  {
  }

  /** The digits that the prefixes of a number admit, ... */
  lemma RadixIff(letter: char, c: char)
    ensures RadixOf(['0', letter]) == Radix.Decimal <==> letter !in {'b', 'B', 'o', 'O', 'x', 'X'}
    ensures RadixDigit(RadixOf(['0', letter]), c) <==>
      || c == '_' || '0' <= c <= '1'
      || (letter !in {'b', 'B'} && '2' <= c <= '7')
      || (letter !in {'b', 'B', 'o', 'O'} && '8' <= c <= '9')
      || (letter in {'x', 'X'} && ('a' <= c <= 'f' || 'A' <= c <= 'F'))
  {
  }

  /** ... and the point that belongs to it. */
  lemma PointIff(u: Unicode, rest: Text)
    ensures PointBelongs(u, ['.'] + rest) <==>
      || rest == []
      || '0' <= rest[0] <= '9' || rest[0] in {'_', 'e', 'E'}
      || (rest[0] != '.' && !WordStart(rest[0])) || (rest[0] as int >= 128 && u.digit(rest[0]))
  {
  }

  // ---------- tokens ----------

  datatype Token =
    | RawString(prefix: Text, hashes: Text, body: Text)
    | QuotedString(prefix: Text, body: Text)
    | Character(prefix: Text, literal: CharLiteral)
    | RawIdentifier(name: Text)
    | Identifier(name: Text)
    | Numeric(number: Number)
    | Punctuation(item: Text)
    | Symbol(c: char)

  function TokenText(x: Token): Text {
    match x
    case RawString(prefix, hashes, body) => prefix + (hashes + (['"'] + (body + (['"'] + hashes))))
    case QuotedString(prefix, body) => prefix + (['"'] + (body + ['"']))
    case Character(prefix, literal) => prefix + CharText(literal)
    case RawIdentifier(name) => ['r', '#'] + name
    case Identifier(name) => name
    case Numeric(number) => NumberText(number)
    case Punctuation(item) => item
    case Symbol(c) => [c]
  }

  predicate AreHashes(t: Text) {
    forall k | 0 <= k < |t| :: t[k] == '#'
  }

  /** The inside of a string: a backslash takes the character behind it, and no quote stands alone. */
  predicate Escapes(body: Text) {
    || body == []
    || (body[0] == '\\' && |body| > 1 && Escapes(body[2..]))
    || (body[0] != '\\' && body[0] != '"' && Escapes(body[1..]))
  }

  /** Behind the body the closing quote stands for the first time. */
  predicate FirstAtEnd(body: Text, closing: Text) {
    forall k | 0 <= k < |body| :: !(closing <= (body + closing)[k..])
  }

  predicate IsName(name: Text) {
    name != [] && WordStart(name[0]) && forall k | 0 < k < |name| :: WordPart(name[k])
  }

  predicate Listed(item: Text) {
    item in [
      "<<=", ">>=", "..=", "...", "::", "->", "=>", "==", "!=", "<=", ">=",
      "&&", "||", "<<", ">>", "+=", "-=", "*=", "/=", "%=", "&=", "|=", "^=", ".."]
  }

  /** What a token is made of. */
  predicate IsToken(u: Unicode, x: Token) {
    match x
    case RawString(prefix, hashes, body) =>
      && prefix in {"r", "br", "cr"} && AreHashes(hashes)
      && FirstAtEnd(body, ['"'] + hashes)
    case QuotedString(prefix, body) => prefix in {"", "b", "c"} && Escapes(body)
    case Character(prefix, literal) => prefix in {"", "b"} && IsCharLiteral(literal)
    case RawIdentifier(name) => IsName(name)
    case Identifier(name) => IsName(name) && !White(u, name[0])
    case Numeric(number) => IsNumber(u, number) && NumberText(number) != [] && '0' <= NumberText(number)[0] <= '9'
    case Punctuation(item) => Listed(item)
    case Symbol(c) => !White(u, c) && !WordStart(c) && !('0' <= c <= '9') && c != '"'
  }

  // ---------- what may stand behind a token ----------

  predicate WordEnds(rest: Text) {
    rest == [] || !WordPart(rest[0])
  }

  /** Hashes, and a double quote behind them. */
  ghost predicate OpensRaw(t: Text) {
    exists n: nat :: n < |t| && t[n] == '"' && AreHashes(t[..n])
  }

  /** A character literal, or the beginning of one that the text breaks off. */
  ghost predicate HoldsCharacter(t: Text) {
    || (exists n: nat :: n <= |t| && IsCharText(t[..n]))
    || t == ['\'', '\\']
    || (['\'', '\\', 'u', '{'] <= t && '}' !in t[4..])
  }

  /** No listed item that stands in front of `t` is longer than n characters. */
  ghost predicate NoLonger(t: Text, n: nat) {
    forall other | Listed(other) && other <= t :: |other| <= n
  }

  ghost predicate NoneListed(t: Text) {
    forall other | Listed(other) :: !(other <= t)
  }

  /** The token goes on as far as it can in front of `rest`, and with `rest` it is not the beginning of a comment, of a
      literal, of a raw identifier or of a longer punctuation. */
  ghost predicate Standing(u: Unicode, x: Token, rest: Text) {
    match x
    case RawString(_, _, _) => true
    case QuotedString(_, _) => true
    case Character(_, _) => true
    case RawIdentifier(_) => WordEnds(rest)
    case Identifier(name) =>
      && WordEnds(rest)
      && (name in {"r", "br", "cr"} ==> !OpensRaw(rest))
      && (name in {"b", "c"} ==> rest == [] || rest[0] != '"')
      && (name == "b" ==> !HoldsCharacter(rest))
      && (name == "r" ==> !(|rest| > 1 && rest[0] == '#' && WordStart(rest[1])))
    case Numeric(number) => Maximal(u, number, rest)
    case Punctuation(item) => NoLonger(item + rest, |item|)
    case Symbol(c) =>
      && NoneListed([c] + rest)
      && (c == '/' ==> rest == [] || rest[0] !in {'/', '*'})
      && (c == '\'' ==> !HoldsCharacter([c] + rest))
  }

  /** The token of the grammar that stands in front of a text. */
  ghost predicate Stands(u: Unicode, x: Token, t: Text, n: nat) {
    n <= |t| && TokenText(x) == t[..n] && IsToken(u, x) && Standing(u, x, t[n..])
  }

  // ---------- steps that emit ----------

  predicate Gap(u: Unicode, t: Text)
    requires t != []
  {
    Space(u, t[0]) || Starts(t, '/', '/') || Opens(t)
  }

  lemma RawEmits(u: Unicode, t: Text)
    requires t != [] && !Gap(u, t) && RawLen(t) != Absent
    ensures LexStep(u, t) == if RawLen(t).Ends? then Emit(RawLen(t).length) else Fail
  {
  }

  lemma StringEmits(u: Unicode, t: Text)
    requires t != [] && !Gap(u, t) && RawLen(t) == Absent && StringStart(t)
    ensures LexStep(u, t) == StringStep(t)
  {
  }

  lemma CharEmits(u: Unicode, t: Text)
    requires t != [] && !Gap(u, t) && RawLen(t) == Absent && !StringStart(t) && CharToken(t) != Absent
    ensures LexStep(u, t) == if CharToken(t).Ends? then Emit(CharToken(t).length) else Fail
  {
  }

  lemma WordEmits(u: Unicode, t: Text)
    requires t != [] && !Gap(u, t) && RawLen(t) == Absent && !StringStart(t) && CharToken(t) == Absent
    ensures LexStep(u, t) == LexWord(u, t)
  {
  }

  // ---------- raw strings ----------

  lemma HashesAre(t: Text)
    requires AreHashes(t)
    ensures t == Hashes(|t|)
  {
  }

  lemma FindIs(t: Text, word: Text, n: nat)
    requires n <= |t| && word <= t[n..] && forall k | 0 <= k < n :: !(word <= t[k..])
    ensures Find(t, word) == Some(n)
  {
    FindFirst(t, word, n);
    var j := Find(t, word).value;
    assert t[j..][..|word|] == word;
    assert word <= t[j..];
  }

  lemma RawOpens(prefix: Text, hashes: Text, back: Text)
    requires prefix in {"r", "br", "cr"} && AreHashes(hashes) && back != [] && back[0] == '"'
    ensures var t := prefix + (hashes + back);
      RawPrefix(t) == |prefix| && RawOpen(t) == |prefix| + |hashes| && t[RawOpen(t)] == '"' && t[RawOpen(t) + 1..] == back[1..]
  {
    var t := prefix + (hashes + back);
    assert t[..|prefix|] == prefix && t[|prefix|..] == hashes + back;
    assert t[0] == prefix[0] && (|prefix| > 1 ==> t[1] == prefix[1]);
    RunIs(hashes + back, Hash, |hashes|);
    Third(prefix, hashes, back);
  }

  lemma Third(a: Text, b: Text, back: Text)
    requires back != []
    ensures (a + (b + back))[|a| + |b|] == back[0]
    ensures (a + (b + back))[|a| + |b| + 1..] == back[1..]
  {
  }

  /** The closing quote is the first behind the body. */
  lemma FindClosing(body: Text, closing: Text, rest: Text)
    requires FirstAtEnd(body, closing)
    ensures Find(body + (closing + rest), closing) == Some(|body|)
  {
    var behind := body + (closing + rest);
    assert behind == (body + closing) + rest;
    forall k | 0 <= k < |body|
      ensures !(closing <= behind[k..])
    {
      if closing <= behind[k..] {
        PrefixStays(closing, body + closing, rest, k);
      }
    }
    assert behind[|body|..] == closing + rest;
    FindIs(behind, closing, |body|);
  }

  lemma PrefixStays(w: Text, t: Text, rest: Text, k: nat)
    requires k + |w| <= |t| && w <= (t + rest)[k..]
    ensures w <= t[k..]
  {
    assert forall i | 0 <= i < |w| :: w[i] == (t + rest)[k..][i] == t[k..][i];
  }

  lemma RawText(prefix: Text, hashes: Text, body: Text, rest: Text)
    ensures TokenText(RawString(prefix, hashes, body)) + rest
      == prefix + (hashes + (['"'] + (body + ((['"'] + hashes) + rest))))
    ensures |TokenText(RawString(prefix, hashes, body))| == |prefix| + |hashes| + 1 + |body| + 1 + |hashes|
  {
  }

  lemma ReadRaw(prefix: Text, hashes: Text, body: Text, rest: Text)
    requires prefix in {"r", "br", "cr"} && AreHashes(hashes)
    requires FirstAtEnd(body, ['"'] + hashes)
    ensures var x := RawString(prefix, hashes, body); RawLen(TokenText(x) + rest) == Ends(|TokenText(x)|)
  {
    var closing := ['"'] + hashes;
    var behind := body + (closing + rest);
    var t := prefix + (hashes + (['"'] + behind));
    RawText(prefix, hashes, body, rest);
    RawOpens(prefix, hashes, ['"'] + behind);
    HashesAre(hashes);
    assert (['"'] + behind)[1..] == behind;
    FindClosing(body, closing, rest);
    RawEnds(t, closing, |body|);
  }

  lemma RawEnds(t: Text, closing: Text, j: nat)
    requires RawPrefix(t) > 0 && RawOpen(t) < |t| && t[RawOpen(t)] == '"' && closing == RawClosing(t)
    ensures Find(t[RawOpen(t) + 1..], closing) == Some(j) ==> RawLen(t) == Ends(RawOpen(t) + 1 + j + |closing|)
  {
  }

  lemma PrefixIs(t: Text)
    requires RawPrefix(t) > 0
    ensures t[..RawPrefix(t)] in {"r", "br", "cr"}
  {
    var w := t[..RawPrefix(t)];
    assert w == "r" || w == "br" || w == "cr";
  }

  lemma ParseRaw(t: Text, n: nat) returns (x: Token)
    requires RawLen(t) == Ends(n)
    ensures x.RawString? && TokenText(x) == t[..n]
    ensures x.prefix in {"r", "br", "cr"} && AreHashes(x.hashes) && FirstAtEnd(x.body, ['"'] + x.hashes)
  {
    var p, open := RawPrefix(t), RawOpen(t);
    var closing, back := RawClosing(t), t[open + 1..];
    RawHashes(t);
    var j := Find(back, closing).value;
    PrefixIs(t);
    FoundFirst(back, closing, j);
    RawPieces(t, p, open, j, closing);
    x := RawString(t[..p], t[p..open], back[..j]);
  }

  lemma RawHashes(t: Text)
    ensures var p, open := RawPrefix(t), RawOpen(t); AreHashes(t[p..open]) && RawClosing(t) == ['"'] + t[p..open]
  {
    var p, open := RawPrefix(t), RawOpen(t);
    assert t[p..open] == t[p..][..open - p];
    HashesAre(t[p..open]);
  }

  lemma FoundFirst(back: Text, closing: Text, j: nat)
    requires Find(back, closing) == Some(j)
    ensures FirstAtEnd(back[..j], closing)
  {
    var body := back[..j];
    forall k | 0 <= k < j
      ensures !(closing <= (body + closing)[k..])
    {
      if closing <= (body + closing)[k..] {
        ClosingStays(back, closing, j, k);
        FindFirst(back, closing, k);
      }
    }
  }

  lemma ClosingStays(back: Text, closing: Text, j: nat, k: nat)
    requires k < j && j + |closing| <= |back| && back[j..][..|closing|] == closing && closing <= (back[..j] + closing)[k..]
    ensures closing <= back[k..]
  {
    assert forall i | j <= i < j + |closing| :: back[i] == back[j..][..|closing|][i - j];
    assert forall i | 0 <= i < |closing| :: closing[i] == (back[..j] + closing)[k..][i] == back[k..][i];
  }

  lemma RawPieces(t: Text, p: nat, open: nat, j: nat, closing: Text)
    requires p <= open < |t| && t[open] == '"' && open + 1 + j + |closing| <= |t| && closing == ['"'] + t[p..open]
    requires t[open + 1..][j..][..|closing|] == closing
    ensures t[..open + 1 + j + |closing|]
      == TokenText(RawString(t[..p], t[p..open], t[open + 1..][..j]))
  {
    var back := t[open + 1..];
    assert back[..j + |closing|] == back[..j] + closing;
    assert t[..open + 1] == t[..p] + t[p..open] + ['"'];
    assert t[..open + 1 + j + |closing|] == t[..open + 1] + back[..j + |closing|];
  }

  // ---------- strings ----------

  lemma {:induction false} ReadQuoted(body: Text, rest: Text)
    requires Escapes(body)
    ensures QuotedLen(body + (['"'] + rest)) == Some(|body| + 1)
    decreases |body|
  {
    var t := body + (['"'] + rest);
    if body != [] {
      var d := if body[0] == '\\' then 2 else 1;
      assert t[0] == body[0] && t[d..] == body[d..] + (['"'] + rest);
      ReadQuoted(body[d..], rest);
    }
  }

  lemma {:induction false} ParseQuoted(t: Text, n: nat)
    requires QuotedLen(t) == Some(n)
    ensures n > 0 && t[n - 1] == '"' && Escapes(t[..n - 1])
    decreases |t|
  {
    if t[0] != '"' {
      var d := if t[0] == '\\' then 2 else 1;
      ParseQuoted(t[d..], n - d);
      assert t[..n - 1][d..] == t[d..][..n - d - 1];
    }
  }

  // ---------- punctuation ----------

  /** The first item of the list that stands in front of a text. */
  lemma {:induction false} FirstItem(items: seq<Text>, t: Text) returns (k: nat)
    ensures k <= |items| && forall j | 0 <= j < k :: !(items[j] <= t)
    ensures FirstItemLen(items, t) == if k < |items| then |items[k]| else 1
    ensures k < |items| ==> items[k] <= t
    decreases |items|
  {
    if items == [] || items[0] <= t {
      k := 0;
    } else {
      var back := FirstItem(items[1..], t);
      k := back + 1;
      assert forall j | 0 < j < k :: items[j] == items[1..][j - 1];
    }
  }

  /** Longer items come first. */
  predicate Falling(items: seq<Text>) {
    && (forall i | 0 <= i < |items| :: |items[i]| > 1)
    && (forall i, j | 0 <= i < j < |items| :: |items[i]| >= |items[j]|)
  }

  /** From such a list the scan takes the longest item, or one character. */
  lemma LongestItem(items: seq<Text>, t: Text, n: nat)
    requires Falling(items)
    ensures FirstItemLen(items, t) == n <==>
      || (n <= |t| && t[..n] in items && forall other | other in items && other <= t :: |other| <= n)
      || (n == 1 && forall other | other in items :: !(other <= t))
  {
    var k := FirstItem(items, t);
    forall other | other in items && other <= t
      ensures k < |items| && |other| <= |items[k]|
    {
      var j :| 0 <= j < |items| && items[j] == other;
    }
    if k < |items| {
      assert t[..|items[k]|] == items[k] && items[k] in items;
    }
    if n <= |t| {
      assert t[..n] <= t;
    }
  }

  lemma ItemsFall()
    ensures Falling(MULTI_PUNCTUATION)
  {
    assert forall k | 0 <= k < |MULTI_PUNCTUATION| :: |MULTI_PUNCTUATION[k]| == if k < 4 then 3 else 2;
  }

  lemma ListedIsItem(item: Text) returns (k: nat)
    requires Listed(item)
    ensures k < |MULTI_PUNCTUATION| && MULTI_PUNCTUATION[k] == item
  {
    ListedIff(item);
    k :| 0 <= k < |MULTI_PUNCTUATION| && MULTI_PUNCTUATION[k] == item;
  }

  lemma ListedIff(item: Text)
    ensures Listed(item) <==> item in MULTI_PUNCTUATION
  {
  }

  /** The scan takes the longest listed item, or one character. */
  lemma PunctuationIff(t: Text, n: nat)
    requires t != []
    ensures PunctuationLen(t) == n <==> (n <= |t| && Listed(t[..n]) && NoLonger(t, n)) || (n == 1 && NoneListed(t))
  {
    ItemsFall();
    LongestItem(MULTI_PUNCTUATION, t, n);
    forall item: Text
      ensures Listed(item) <==> item in MULTI_PUNCTUATION
    {
      ListedIff(item);
    }
  }

  lemma ItemHeads()
    ensures forall k | 0 <= k < |MULTI_PUNCTUATION| :: ItemHead(MULTI_PUNCTUATION[k])
  {
  }

  /** An item begins no word, number, string, character or comment. */
  predicate ItemHead(item: Text) {
    && |item| > 1 && 32 < item[0] as int < 128 && !WordPart(item[0]) && item[0] !in {'"', '\''}
    && (item[0] == '/' ==> item[1] == '=')
  }

  // ---------- a token of the grammar is emitted ----------

  lemma NoGap(u: Unicode, t: Text)
    requires t != [] && !White(u, t[0]) && (t[0] == '/' && |t| > 1 ==> t[1] !in {'/', '*'})
    ensures !Gap(u, t)
  {
    ClassesIff(u, t[0]);
  }

  lemma NoLiteral(t: Text)
    requires t != [] && t[0] !in {'r', 'b', 'c', '"'}
    ensures RawLen(t) == Absent && !StringStart(t)
  {
  }

  lemma NoCharacter(t: Text)
    requires t != [] && t[0] == '\''
    ensures CharLen(t) == Absent <==> !HoldsCharacter(t)
  {
    UnterminatedIff(t);
    forall n: nat
      ensures CharLen(t) == Ends(n) <==> n <= |t| && IsCharText(t[..n])
    {
      CharacterIff(t, n);
    }
  }

  lemma EmitsRaw(u: Unicode, x: Token, rest: Text)
    requires x.RawString? && IsToken(u, x)
    ensures LexStep(u, TokenText(x) + rest) == Emit(|TokenText(x)|)
  {
    var t := TokenText(x) + rest;
    ReadRaw(x.prefix, x.hashes, x.body, rest);
    assert t[0] == TokenText(x)[0] == x.prefix[0];
    NoGap(u, t);
    RawEmits(u, t);
  }

  lemma StringText(prefix: Text, body: Text, rest: Text)
    ensures var t, back := TokenText(QuotedString(prefix, body)) + rest, body + (['"'] + rest);
      && t == prefix + (['"'] + back) && |t| == |prefix| + 1 + |back| && t[|prefix|] == '"' && t[|prefix| + 1..] == back
      && (prefix != [] ==> t[0] == prefix[0])
  {
  }

  lemma EmitsString(u: Unicode, prefix: Text, body: Text, rest: Text)
    requires prefix in {"", "b", "c"} && Escapes(body)
    ensures var text := TokenText(QuotedString(prefix, body)); LexStep(u, text + rest) == Emit(|text|)
  {
    var t := TokenText(QuotedString(prefix, body)) + rest;
    ReadQuoted(body, rest);
    StringText(prefix, body, rest);
    StringStands(u, t, |prefix|);
    StringEmits(u, t);
  }

  lemma StringStands(u: Unicode, t: Text, q: nat)
    requires q < |t| && q <= 1 && t[q] == '"' && (q == 1 ==> t[0] in {'b', 'c'})
    ensures !Gap(u, t) && RawLen(t) == Absent && StringStart(t)
  {
    NoGap(u, t);
  }

  lemma CharacterText(prefix: Text, literal: CharLiteral, rest: Text)
    requires |prefix| <= 1
    ensures var t, back := TokenText(Character(prefix, literal)) + rest, CharText(literal) + rest;
      && t == prefix + back && t[|prefix|..] == back && back[0] == '\'' && t[|prefix|] == '\''
      && (prefix != [] ==> t[0] == prefix[0])
  {
  }

  lemma EmitsCharacter(u: Unicode, prefix: Text, literal: CharLiteral, rest: Text)
    requires prefix in {"", "b"} && IsCharLiteral(literal)
    ensures var text := TokenText(Character(prefix, literal)); LexStep(u, text + rest) == Emit(|text|)
  {
    var t := TokenText(Character(prefix, literal)) + rest;
    ReadChar(literal, rest);
    CharacterText(prefix, literal, rest);
    CharacterStands(u, t, |prefix|);
    CharEmits(u, t);
  }

  lemma CharacterStands(u: Unicode, t: Text, q: nat)
    requires q < |t| && q <= 1 && t[q] == '\'' && (q == 1 ==> t[0] == 'b')
    ensures !Gap(u, t) && RawLen(t) == Absent && !StringStart(t) && QuoteAt(t) == q
  {
    NoGap(u, t);
  }

  lemma ReadName(name: Text, rest: Text)
    requires IsName(name) && WordEnds(rest)
    ensures Run((name + rest)[1..], IdentContinue) == |name| - 1
  {
    var back := (name + rest)[1..];
    assert forall k | 0 <= k < |name| - 1 :: back[k] == name[k + 1];
    assert rest != [] ==> back[|name| - 1] == rest[0];
    RunIs(back, IdentContinue, |name| - 1);
  }

  lemma EmitsRawName(u: Unicode, x: Token, rest: Text)
    requires x.RawIdentifier? && IsToken(u, x) && Standing(u, x, rest)
    ensures LexStep(u, TokenText(x) + rest) == Emit(|TokenText(x)|)
  {
    var name := x.name;
    var t := TokenText(x) + rest;
    assert t == ['r', '#'] + (name + rest);
    assert t[2..] == name + rest && t[3..] == (name + rest)[1..] && t[1..] == ['#'] + (name + rest);
    RunIs(t[1..], Hash, 1);
    ReadName(name, rest);
    NoGap(u, t);
    WordEmits(u, t);
  }

  lemma RawBegins(t: Text)
    requires RawPrefix(t) > 0 && RawOpen(t) < |t| && t[RawOpen(t)] == '"'
    ensures var p := RawPrefix(t); t[p] in {'#', '"'} && OpensRaw(t[p..])
  {
    var p, open := RawPrefix(t), RawOpen(t);
    assert open > p ==> t[p] == t[p..][0];
    assert t[p..][open - p] == '"' && AreHashes(t[p..][..open - p]);
  }

  /** A name ends where its characters do. */
  lemma NameIs(name: Text, rest: Text, p: nat)
    requires IsName(name) && WordEnds(rest) && p < |name| + |rest|
    requires var t := name + rest; !WordPart(t[p]) && forall k | 0 <= k < p :: WordPart(t[k])
    ensures name == (name + rest)[..p] && rest == (name + rest)[p..]
  {
    var t := name + rest;
    At(name, rest, p);
    if |name| < |t| {
      At(name, rest, |name|);
    }
    assert |name| == p;
  }

  lemma At(a: Text, b: Text, k: nat)
    requires k < |a| + |b|
    ensures (a + b)[k] == if k < |a| then a[k] else b[k - |a|]
  {
  }

  /** A name that is no prefix of a raw string. */
  lemma NameIsNoRaw(name: Text, rest: Text)
    requires IsName(name) && WordEnds(rest) && (name in {"r", "br", "cr"} ==> !OpensRaw(rest))
    ensures RawLen(name + rest) == Absent
  {
    var t := name + rest;
    if RawPrefix(t) > 0 && RawOpen(t) < |t| && t[RawOpen(t)] == '"' {
      PrefixIs(t);
      RawBegins(t);
      NameIs(name, rest, RawPrefix(t));
    }
  }

  lemma EmitsName(u: Unicode, x: Token, rest: Text)
    requires x.Identifier? && IsToken(u, x) && Standing(u, x, rest)
    ensures LexStep(u, TokenText(x) + rest) == Emit(|TokenText(x)|)
  {
    var name := x.name;
    var t := name + rest;
    NoGap(u, t);
    NameIsNoRaw(name, rest);
    assert |t| > 1 ==> t[1] == if |name| > 1 then name[1] else rest[0];
    assert |name| == 1 ==> name == [t[0]];
    assert !StringStart(t);
    if Starts(t, 'b', '\'') {
      assert name == ['b'] && t[1..] == rest;
      NoCharacter(rest);
    }
    assert CharToken(t) == Absent;
    WordEmits(u, t);
    if Starts(t, 'r', '#') {
      assert name == ['r'] && |t| > 2 ==> t[2] == rest[1];
    }
    assert !RawIdent(t);
    ReadName(name, rest);
  }

  lemma EmitsNumber(u: Unicode, number: Number, rest: Text)
    requires IsNumber(u, number) && Maximal(u, number, rest) && NumberText(number) != [] && '0' <= NumberText(number)[0] <= '9'
    ensures LexStep(u, NumberText(number) + rest) == Emit(|NumberText(number)|)
  {
    ReadNumber(u, number, rest);
    NumberStands(u, NumberText(number) + rest);
  }

  lemma NumberStands(u: Unicode, t: Text)
    requires t != [] && '0' <= t[0] <= '9'
    ensures LexStep(u, t) == Emit(NumericLen(u, t))
  {
    NoGap(u, t);
    NoLiteral(t);
    WordEmits(u, t);
  }

  lemma EmitsItem(u: Unicode, x: Token, rest: Text)
    requires x.Punctuation? && IsToken(u, x) && Standing(u, x, rest)
    ensures LexStep(u, TokenText(x) + rest) == Emit(|TokenText(x)|)
  {
    var t := x.item + rest;
    var k := ListedIsItem(x.item);
    ItemHeads();
    assert ItemHead(x.item);
    assert t[0] == x.item[0] && t[1] == x.item[1] && t[..|x.item|] == x.item;
    NoGap(u, t);
    NoLiteral(t);
    WordEmits(u, t);
    PunctuationIff(t, |x.item|);
  }

  lemma EmitsSymbol(u: Unicode, x: Token, rest: Text)
    requires x.Symbol? && IsToken(u, x) && Standing(u, x, rest)
    ensures LexStep(u, TokenText(x) + rest) == Emit(1)
  {
    var t := [x.c] + rest;
    NoGap(u, t);
    NoLiteral(t);
    if x.c == '\'' {
      NoCharacter(t);
    }
    WordEmits(u, t);
    PunctuationIff(t, 1);
  }

  lemma Emits(u: Unicode, x: Token, rest: Text)
    requires IsToken(u, x) && Standing(u, x, rest)
    ensures LexStep(u, TokenText(x) + rest) == Emit(|TokenText(x)|)
  {
    match x
    case RawString(_, _, _) => EmitsRaw(u, x, rest);
    case QuotedString(prefix, body) => EmitsString(u, prefix, body, rest);
    case Character(prefix, literal) => EmitsCharacter(u, prefix, literal, rest);
    case RawIdentifier(_) => EmitsRawName(u, x, rest);
    case Identifier(_) => EmitsName(u, x, rest);
    case Numeric(number) => EmitsNumber(u, number, rest);
    case Punctuation(_) => EmitsItem(u, x, rest);
    case Symbol(_) => EmitsSymbol(u, x, rest);
  }

  // ---------- what is emitted is a token of the grammar ----------

  lemma ParseString(t: Text, n: nat) returns (x: Token)
    requires StringStart(t) && StringStep(t) == Emit(n)
    ensures x.QuotedString? && x.prefix in {"", "b", "c"} && Escapes(x.body) && n <= |t| && TokenText(x) == t[..n]
  {
    var open := if t[0] == '"' then 1 else 2;
    ParseQuoted(t[open..], n - open);
    x := QuotedString(t[..open - 1], t[open..][..n - open - 1]);
    assert open == 2 ==> t[..1] == [t[0]];
    StringPieces(t, open, n);
  }

  lemma StringPieces(t: Text, open: nat, n: nat)
    requires 0 < open < n <= |t| && t[open - 1] == '"' && t[open..][n - open - 1] == '"'
    ensures t[..n] == t[..open - 1] + (['"'] + (t[open..][..n - open - 1] + ['"']))
  {
    assert t[n - 1] == '"';
  }

  lemma ParseCharacter(t: Text, n: nat) returns (x: Token)
    requires CharToken(t) == Ends(n)
    ensures x.Character? && x.prefix in {"", "b"} && IsCharLiteral(x.literal) && TokenText(x) == t[..n]
  {
    var q := QuoteAt(t);
    var l := ParseChar(t[q..], n - q);
    x := Character(t[..q], l);
    assert q == 1 ==> t[..q] == "b";
    assert t[..n] == t[..q] + t[q..][..n - q];
  }

  lemma ParseName(t: Text, d: nat) returns (n: nat)
    requires d < |t| && IdentStart(t[d])
    ensures n == 1 + Run(t[d + 1..], IdentContinue) && d + n <= |t|
    ensures IsName(t[d..d + n]) && WordEnds(t[d + n..])
  {
    var back := t[d + 1..];
    n := 1 + Run(back, IdentContinue);
    var name := t[d..d + n];
    forall k | 0 < k < n
      ensures WordPart(name[k])
    {
      assert t[d + k] == back[k - 1];
    }
    assert d + n < |t| ==> t[d + n] == back[n - 1];
  }

  lemma ParseIdentifier(u: Unicode, t: Text) returns (n: nat)
    requires t != [] && IdentStart(t[0]) && !Gap(u, t) && RawLen(t) == Absent && !StringStart(t) && CharToken(t) == Absent && !RawIdent(t)
    ensures n <= |t| && LexWord(u, t) == Emit(n) && Stands(u, Identifier(t[..n]), t, n)
  {
    n := ParseName(t, 0);
    var name, rest := t[..n], t[n..];
    assert t[0..n] == name;
    Halves(t, n);
    if name in {"r", "br", "cr"} {
      RawIsNotThere(name, rest);
    }
    if name in {"b", "c"} {
      NoStringBehind(name, rest);
    }
    if name == "b" {
      assert t[1..] == rest;
      NoneHeld(t);
    }
    if name == "r" {
      NoNameBehind(rest);
    }
  }

  lemma NoStringBehind(name: Text, rest: Text)
    requires name in {"b", "c"} && !StringStart(name + rest)
    ensures rest == [] || rest[0] != '"'
  {
    assert rest != [] ==> (name + rest)[1] == rest[0];
    assert (name + rest)[0] == name[0];
  }

  lemma NoNameBehind(rest: Text)
    requires !RawIdent("r" + rest)
    ensures !(|rest| > 1 && rest[0] == '#' && WordStart(rest[1]))
  {
    var t := "r" + rest;
    assert t[0] == 'r' && (|rest| > 1 ==> t[1] == rest[0] && t[2] == rest[1]);
  }

  lemma NoneHeld(t: Text)
    requires t != [] && t[0] == 'b' && CharToken(t) == Absent
    ensures !HoldsCharacter(t[1..])
  {
    if |t| == 1 || t[1] != '\'' {
      NoQuoteNoCharacter(t[1..]);
    } else {
      NoCharacter(t[1..]);
    }
  }

  lemma NoQuoteNoCharacter(t: Text)
    requires t == [] || t[0] != '\''
    ensures !HoldsCharacter(t)
  {
    forall n: nat | n <= |t|
      ensures !IsCharText(t[..n])
    {
      if l :| CharText(l) == t[..n] {
        CharBegins(l);
      }
    }
  }

  lemma CharBegins(l: CharLiteral)
    ensures CharText(l)[..1] == ['\'']
  {
  }

  lemma RawIsNotThere(name: Text, rest: Text)
    requires name in {"r", "br", "cr"} && RawLen(name + rest) == Absent
    ensures !OpensRaw(rest)
  {
    if n: nat :| n < |rest| && rest[n] == '"' && AreHashes(rest[..n]) {
      Halves(rest, n);
      RawIsThere(name, rest[..n], rest[n..]);
    }
  }

  lemma RawIsThere(prefix: Text, hashes: Text, back: Text)
    requires prefix in {"r", "br", "cr"} && AreHashes(hashes) && back != [] && back[0] == '"'
    ensures RawLen(prefix + (hashes + back)) != Absent
  {
    RawOpens(prefix, hashes, back);
  }

  lemma ParseWord(u: Unicode, t: Text, n: nat) returns (x: Token)
    requires t != [] && !Gap(u, t) && RawLen(t) == Absent && !StringStart(t) && CharToken(t) == Absent
    requires LexWord(u, t) == Emit(n)
    ensures Stands(u, x, t, n)
  {
    ClassesIff(u, t[0]);
    if RawIdent(t) {
      var m := ParseName(t, 2);
      x := RawIdentifier(t[2..2 + m]);
      assert t[2..][1..] == t[3..];
      assert t[..n] == ['r', '#'] + t[2..n];
    } else if IdentStart(t[0]) {
      var m := ParseIdentifier(u, t);
      x := Identifier(t[..n]);
    } else if Digit(u, t[0]) {
      x := ParseNumber(u, t, n);
    } else {
      x := ParsePunctuation(u, t, n);
    }
  }

  lemma ParseNumber(u: Unicode, t: Text, n: nat) returns (x: Token)
    requires t != [] && '0' <= t[0] <= '9' && n == NumericLen(u, t)
    ensures Stands(u, x, t, n)
  {
    NumberIff(u, t, n);
    var number :| IsNumber(u, number) && NumberText(number) == t[..n] && Maximal(u, number, t[n..]);
    NumericNonEmpty(u, t);
    x := Numeric(number);
  }

  lemma ParsePunctuation(u: Unicode, t: Text, n: nat) returns (x: Token)
    requires t != [] && !White(u, t[0]) && !WordStart(t[0]) && !('0' <= t[0] <= '9') && t[0] != '"'
    requires !Gap(u, t) && CharToken(t) == Absent && n == PunctuationLen(t)
    ensures Stands(u, x, t, n)
  {
    PunctuationIff(t, n);
    Halves(t, n);
    if Listed(t[..n]) && NoLonger(t, n) {
      x := Punctuation(t[..n]);
    } else {
      x := Symbol(t[0]);
      assert [t[0]] + t[1..] == t;
      if t[0] == '\'' {
        assert t[0..] == t;
        NoCharacter(t);
      }
    }
  }

  lemma ParseToken(u: Unicode, t: Text, n: nat) returns (x: Token)
    requires t != [] && LexStep(u, t) == Emit(n)
    ensures Stands(u, x, t, n)
  {
    if RawLen(t) != Absent {
      RawEmits(u, t);
      x := ParseRaw(t, n);
    } else if StringStart(t) {
      StringEmits(u, t);
      x := ParseString(t, n);
    } else if CharToken(t) != Absent {
      CharEmits(u, t);
      x := ParseCharacter(t, n);
    } else {
      WordEmits(u, t);
      x := ParseWord(u, t, n);
    }
  }

  /** One step of the lexer emits exactly the token of the grammar that stands there. */
  lemma StepIff(u: Unicode, t: Text, n: nat)
    requires t != []
    ensures LexStep(u, t) == Emit(n) <==>
      n <= |t| && exists x :: TokenText(x) == t[..n] && IsToken(u, x) && Standing(u, x, t[n..])
  {
    if LexStep(u, t) == Emit(n) {
      var x := ParseToken(u, t, n);
    }
    if n <= |t| {
      if x :| TokenText(x) == t[..n] && IsToken(u, x) && Standing(u, x, t[n..]) {
        Emits(u, x, t[n..]);
        Halves(t, n);
      }
    }
  }

  // ---------- whole texts ----------

  datatype Element =
    | Blank(c: char)
    | LineComment(body: Text, ended: bool)
    | BlockComment(inside: Inside)
    | Word(token: Token)

  function Written(e: Element): Text {
    match e
    case Blank(c) => [c]
    case LineComment(body, ended) => ['/', '/'] + (body + if ended then ['\n'] else [])
    case BlockComment(inside) => ['/', '*'] + Render(inside)
    case Word(x) => TokenText(x)
  }

  ghost predicate Fits(u: Unicode, e: Element, rest: Text) {
    match e
    case Blank(c) => White(u, c)
    case LineComment(body, ended) => '\n' !in body && (ended || rest == [])
    case BlockComment(inside) => WellFormed(inside)
    case Word(x) => IsToken(u, x) && Standing(u, x, rest)
  }

  function WrittenAll(es: seq<Element>): Text {
    if es == [] then [] else Written(es[0]) + WrittenAll(es[1..])
  }

  /** Every element goes on as far as it can in front of the next. */
  ghost predicate FitAll(u: Unicode, es: seq<Element>) {
    es == [] || (Fits(u, es[0], WrittenAll(es[1..])) && FitAll(u, es[1..]))
  }

  function Words(es: seq<Element>): seq<Text> {
    if es == [] then [] else (if es[0].Word? then [TokenText(es[0].token)] else []) + Words(es[1..])
  }

  lemma LineStep(u: Unicode, body: Text, ended: bool, rest: Text)
    requires '\n' !in body && (ended || rest == [])
    ensures var w := Written(LineComment(body, ended)); LexStep(u, w + rest) == Skip(|w|)
  {
    var w := Written(LineComment(body, ended));
    var t := w + rest;
    if ended {
      assert t == ['/', '/'] + (body + (['\n'] + rest));
      FindOne(body, '\n', rest);
    } else {
      assert t == ['/', '/'] + body;
      FindOne(body, '\n', []);
    }
    LineSkips(u, t, t[2..]);
  }

  lemma LineSkips(u: Unicode, t: Text, back: Text)
    requires Starts(t, '/', '/') && back == t[2..]
    ensures LexStep(u, t) == Skip(match Find(back, "\n") case None => |t| case Some(j) => j + 3)
  {
  }

  lemma BlockSkips(u: Unicode, back: Text)
    ensures LexStep(u, ['/', '*'] + back) == SkipOrFail(BlockLen(back, 1), 2)
  {
    assert (['/', '*'] + back)[2..] == back;
  }

  /** One step reads one element. */
  lemma StepReads(u: Unicode, e: Element, rest: Text)
    requires Fits(u, e, rest)
    ensures var n := |Written(e)|; LexStep(u, Written(e) + rest) == if e.Word? then Emit(n) else Skip(n)
  {
    match e
    case Blank(c) => ClassesIff(u, c);
    case LineComment(body, ended) => LineStep(u, body, ended, rest);
    case Word(x) => Emits(u, x, rest);
    case BlockComment(inside) =>
      assert Written(e) + rest == ['/', '*'] + (Render(inside) + rest);
      BlockSkips(u, Render(inside) + rest);
      CommentStops(inside, rest);
  }

  lemma {:induction false} ReadFirst(u: Unicode, e: Element, rest: Text)
    requires Fits(u, e, rest)
    ensures Written(e) != []
    ensures Tokens(u, Written(e) + rest) == match Tokens(u, rest)
                                            case None => None
                                            case Some(back) => Some((if e.Word? then [Written(e)] else []) + back)
  {
    var t := Written(e) + rest;
    StepReads(u, e, rest);
    assert t != [] by {
      assert e.Word? && t == [] ==> |Written(e)| == 0;
      WrittenIsSomething(u, e);
    }
    Parts(Written(e), rest);
    if Tokens(u, rest).Some? {
      assert [] + Tokens(u, rest).value == Tokens(u, rest).value;
    }
  }

  lemma WrittenIsSomething(u: Unicode, e: Element)
    requires e.Word? ==> IsToken(u, e.token)
    ensures Written(e) != []
  {
    if e.Word? && e.token.Punctuation? {
      var k := ListedIsItem(e.token.item);
      ItemShapes();
    }
  }

  lemma {:induction false} ReadAll(u: Unicode, es: seq<Element>)
    requires FitAll(u, es)
    ensures Tokens(u, WrittenAll(es)) == Some(Words(es))
    decreases |es|
  {
    if es != [] {
      ReadFirst(u, es[0], WrittenAll(es[1..]));
      ReadAll(u, es[1..]);
    }
  }

  lemma ParseComment(u: Unicode, t: Text) returns (e: Element, rest: Text)
    requires Starts(t, '/', '/')
    ensures t == Written(e) + rest && Fits(u, e, rest) && e.LineComment?
  {
    var back := t[2..];
    match Find(back, "\n")
    case None =>
      e, rest := LineComment(back, false), [];
      NoneBefore(back, '\n', |back|);
      Unended(t);
    case Some(j) =>
      e, rest := LineComment(back[..j], true), back[j + 1..];
      NoneBefore(back, '\n', j);
      Ended(t, j);
  }

  lemma Unended(t: Text)
    requires Starts(t, '/', '/')
    ensures t[2..][..|t[2..]|] == t[2..] && t == ['/', '/'] + (t[2..] + []) + []
  {
  }

  lemma Ended(t: Text, j: nat)
    requires Starts(t, '/', '/') && j < |t| - 2 && t[2..][j..][..1] == ['\n']
    ensures t == ['/', '/'] + (t[2..][..j] + ['\n']) + t[2..][j + 1..]
  {
    assert t[2 + j] == t[2..][j..][..1][0];
  }

  lemma ParseElement(u: Unicode, t: Text) returns (e: Element, rest: Text)
    requires t != [] && LexStep(u, t) != Fail
    ensures t == Written(e) + rest && Fits(u, e, rest)
  {
    ClassesIff(u, t[0]);
    if Space(u, t[0]) {
      e, rest := Blank(t[0]), t[1..];
      FirstAnd(t);
    } else if Starts(t, '/', '/') {
      e, rest := ParseComment(u, t);
    } else if Opens(t) {
      assert t == ['/', '*'] + t[2..];
      BlockSkips(u, t[2..]);
      var n := BlockLen(t[2..], 1).value;
      BlockIsTree(t[2..], n);
      var inside :| WellFormed(inside) && Render(inside) == t[2..][..n];
      e, rest := BlockComment(inside), t[2..][n..];
      assert t[2..] == Render(inside) + rest;
    } else {
      TokenStep(u, t);
      var n := LexStep(u, t).length;
      var x := ParseToken(u, t, n);
      e, rest := Word(x), t[n..];
      Halves(t, n);
    }
  }

  lemma TokenStep(u: Unicode, t: Text)
    requires t != [] && !Gap(u, t)
    ensures !LexStep(u, t).Skip?
  {
  }

  lemma {:induction false} ParseAll(u: Unicode, t: Text) returns (es: seq<Element>)
    requires Tokens(u, t).Some?
    ensures FitAll(u, es) && WrittenAll(es) == t
    decreases |t|
  {
    if t == [] {
      es := [];
    } else {
      var e, rest := ParseElement(u, t);
      ReadFirst(u, e, rest);
      var back := ParseAll(u, rest);
      es := [e] + back;
      assert es[1..] == back;
    }
  }

  ghost predicate Reads(u: Unicode, t: Text, tokens: seq<Text>) {
    exists es :: FitAll(u, es) && WrittenAll(es) == t && Words(es) == tokens
  }

  /** The lexer returns tokens exactly for the texts that are a row of blanks, comments and tokens, each going on as
      far as it can, and then these tokens. */
  lemma TokensIff(u: Unicode, t: Text, tokens: seq<Text>)
    ensures Tokens(u, t) == Some(tokens) <==> Reads(u, t, tokens)
  {
    if Tokens(u, t) == Some(tokens) {
      var es := ParseAll(u, t);
      ReadAll(u, es);
    }
    if Reads(u, t, tokens) {
      var es :| FitAll(u, es) && WrittenAll(es) == t && Words(es) == tokens;
      ReadAll(u, es);
    }
  }

  lemma {:induction false} EveryWord(u: Unicode, es: seq<Element>, k: nat) returns (front: Text, x: Token, rest: Text)
    requires FitAll(u, es) && k < |Words(es)|
    ensures WrittenAll(es) == front + (TokenText(x) + rest) && Words(es)[k] == TokenText(x)
    ensures IsToken(u, x) && Standing(u, x, rest)
    decreases |es|
  {
    var e, behind := es[0], WrittenAll(es[1..]);
    if e.Word? && k == 0 {
      front, x, rest := [], e.token, behind;
      NothingBefore(Written(e) + behind);
    } else {
      var before;
      before, x, rest := EveryWord(u, es[1..], if e.Word? then k - 1 else k);
      front := Written(e) + before;
      Regroup(Written(e), before, TokenText(x) + rest);
    }
  }

  lemma NothingBefore(t: Text)
    ensures [] + t == t
  {
  }

  /** Each token that is returned stands in the text, and is the token of the grammar in front of what follows it. */
  lemma {:induction false} EveryToken(u: Unicode, t: Text, k: nat) returns (front: Text, x: Token, rest: Text)
    requires Tokens(u, t).Some? && k < |Tokens(u, t).value|
    ensures t == front + (TokenText(x) + rest) && Tokens(u, t).value[k] == TokenText(x)
    ensures IsToken(u, x) && Standing(u, x, rest)
  {
    var es := ParseAll(u, t);
    ReadAll(u, es);
    front, x, rest := EveryWord(u, es, k);
  }
}
