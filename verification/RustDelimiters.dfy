/**
 Bracket matching over a token list, and the two searches built on it: the bodies of named
 functions, and the top-level keys of JSON-like objects.  The reference is a grammar of well-nested
 words; the code is a stack machine.
 */
module RustDelimiters {
  import opened Common

  type Token = string

  predicate IsOpen(t: Token) {
    t == "(" || t == "[" || t == "{"
  }

  function CloseOf(t: Token): Token
    requires IsOpen(t)
  {
    if t == "(" then ")" else if t == "[" then "]" else "}"
  }

  predicate IsClose(t: Token) {
    t == ")" || t == "]" || t == "}"
  }

  predicate Plain(t: Token) {
    !IsOpen(t) && !IsClose(t)
  }

  // ---------- the grammar ----------

  /** Words of plain tokens and of brackets that pair up, each with its own kind. */
  ghost predicate WellNested(w: seq<Token>)
    decreases |w|
  {
    || w == []
    || (Plain(w[0]) && WellNested(w[1..]))
    || (IsOpen(w[0]) && exists k :: Pairs(w, k) && WellNested(w[1..k]) && WellNested(w[k + 1..]))
  }

  predicate Pairs(w: seq<Token>, k: int)
    requires w != [] && IsOpen(w[0])
  {
    0 < k < |w| && w[k] == CloseOf(w[0])
  }

  // ---------- the stack machine ----------

  /** From the front of `w`, with `stack` the closers still awaited (last one first): how far until
      the stack is empty. */
  function Scan(stack: seq<Token>, w: seq<Token>): (r: Option<nat>)
    requires stack != []
    ensures r.Some? ==> r.value < |w|
    decreases |w|
  {
    if w == [] then None
    else if IsOpen(w[0]) then Shift(Scan(stack + [CloseOf(w[0])], w[1..]), 1)
    else if !IsClose(w[0]) then Shift(Scan(stack, w[1..]), 1)
    else if stack[|stack| - 1] != w[0] then None
    else if |stack| == 1 then Some(0)
    else Shift(Scan(stack[..|stack| - 1], w[1..]), 1)
  }

  lemma ScanOpen(stack: seq<Token>, open: Token, tail: seq<Token>)
    requires stack != [] && IsOpen(open)
    ensures Scan(stack, [open] + tail) == Shift(Scan(stack + [CloseOf(open)], tail), 1)
  {
    assert ([open] + tail)[1..] == tail;
  }

  lemma ScanClose(stack: seq<Token>, close: Token, tail: seq<Token>)
    requires stack != [] && IsClose(close)
    ensures Scan(stack + [close], [close] + tail) == Shift(Scan(stack, tail), 1)
  {
    assert ([close] + tail)[1..] == tail;
    assert (stack + [close])[..|stack|] == stack;
  }

  lemma ScanPlain(stack: seq<Token>, t: Token, tail: seq<Token>)
    requires stack != [] && Plain(t)
    ensures Scan(stack, [t] + tail) == Shift(Scan(stack, tail), 1)
  {
    assert ([t] + tail)[1..] == tail;
  }

  lemma SplitPlain(w: seq<Token>, rest: seq<Token>)
    requires w != []
    ensures w + rest == [w[0]] + (w[1..] + rest)
  {
  }

  lemma SplitGroup(w: seq<Token>, k: nat, rest: seq<Token>)
    requires 0 < k < |w|
    ensures w + rest == [w[0]] + (w[1..k] + ([w[k]] + (w[k + 1..] + rest)))
  {
  }

  lemma ScanGroup(stack: seq<Token>, w: seq<Token>, k: nat, rest: seq<Token>, inner: seq<Token>, tail: seq<Token>)
    requires stack != [] && w != [] && IsOpen(w[0]) && Pairs(w, k) && inner == w[1..k] && tail == w[k + 1..]
    requires Scan(stack, tail + rest) == Shift(Scan(stack, rest), |w| - k - 1)
    requires var behind := [w[k]] + (tail + rest);
      Scan(stack + [w[k]], inner + behind) == Shift(Scan(stack + [w[k]], behind), k - 1)
    ensures Scan(stack, w + rest) == Shift(Scan(stack, rest), |w|)
  {
    var behind := tail + rest;
    ScanClose(stack, w[k], behind);
    ScanOpen(stack, w[0], inner + ([w[k]] + behind));
    SplitGroup(w, k, rest);
  }

  lemma NothingBefore(rest: seq<Token>)
    ensures [] + rest == rest
  {
  }

  lemma FirstGroup(w: seq<Token>) returns (k: nat, inner: seq<Token>, tail: seq<Token>)
    requires w != [] && WellNested(w) && !Plain(w[0])
    ensures Pairs(w, k) && inner == w[1..k] && tail == w[k + 1..] && WellNested(inner) && WellNested(tail)
    ensures |inner| < |w| && |tail| < |w|
  {
    k :| Pairs(w, k) && WellNested(w[1..k]) && WellNested(w[k + 1..]);
    inner, tail := w[1..k], w[k + 1..];
  }

  /** A well-nested word leaves the stack as it was. */
  lemma {:induction false} ScanOver(stack: seq<Token>, w: seq<Token>, rest: seq<Token>)
    requires stack != [] && WellNested(w)
    ensures Scan(stack, w + rest) == Shift(Scan(stack, rest), |w|)
    decreases |w|
  {
    if w == [] {
      NothingBefore(rest);
    } else if Plain(w[0]) {
      ScanOver(stack, w[1..], rest);
      SplitPlain(w, rest);
      ScanPlain(stack, w[0], w[1..] + rest);
    } else {
      var k, inner, tail := FirstGroup(w);
      ScanOver(stack, tail, rest);
      ScanOver(stack + [w[k]], inner, [w[k]] + (tail + rest));
      ScanGroup(stack, w, k, rest, inner, tail);
    }
  }

  predicate Tops(stack: seq<Token>, w: seq<Token>, k: int)
    requires stack != []
  {
    0 <= k < |w| && w[k] == stack[|stack| - 1]
  }

  /** `w` closes every bracket on the stack in turn, with well-nested words before each closer. */
  ghost predicate Unwinds(stack: seq<Token>, w: seq<Token>)
    requires stack != []
    decreases |w|
  {
    exists k ::
      && Tops(stack, w, k)
      && WellNested(w[..k])
      && (if |stack| == 1 then k == |w| - 1 else Unwinds(stack[..|stack| - 1], w[k + 1..]))
  }

  ghost predicate UnwindsAt(stack: seq<Token>, w: seq<Token>, k: int)
    requires stack != []
  {
    && Tops(stack, w, k)
    && WellNested(w[..k])
    && (if |stack| == 1 then k == |w| - 1 else Unwinds(stack[..|stack| - 1], w[k + 1..]))
  }

  lemma UnwindWitness(stack: seq<Token>, w: seq<Token>) returns (k: int)
    requires stack != [] && Unwinds(stack, w)
    ensures UnwindsAt(stack, w, k)
  {
    k :|
      && Tops(stack, w, k)
      && WellNested(w[..k])
      && (if |stack| == 1 then k == |w| - 1 else Unwinds(stack[..|stack| - 1], w[k + 1..]));
  }

  lemma NestedPlain(t: Token, w: seq<Token>)
    requires Plain(t) && WellNested(w)
    ensures WellNested([t] + w)
  {
    assert ([t] + w)[1..] == w;
  }

  lemma NestedGroup(open: Token, inner: seq<Token>, w: seq<Token>)
    requires IsOpen(open) && WellNested(inner) && WellNested(w)
    ensures WellNested([open] + inner + [CloseOf(open)] + w)
  {
    var all := [open] + inner + [CloseOf(open)] + w;
    var k := |inner| + 1;
    assert all[1..k] == inner && all[k + 1..] == w && Pairs(all, k);
  }

  lemma {:induction false} ScanSound(stack: seq<Token>, w: seq<Token>)
    requires stack != [] && Scan(stack, w).Some?
    ensures Unwinds(stack, w[..Scan(stack, w).value + 1])
    decreases |w|
  {
    var j := Scan(stack, w).value;
    var used := w[..j + 1];
    if IsOpen(w[0]) {
      var deeper := stack + [CloseOf(w[0])];
      ScanSound(deeper, w[1..]);
      var tail := w[1..][..j];
      assert tail == used[1..];
      var k := UnwindWitness(deeper, tail);
      assert deeper[..|deeper| - 1] == stack;
      UnwindGroup(stack, w[0], tail, k);
      assert used == [w[0]] + tail;
    } else if !IsClose(w[0]) {
      ScanSound(stack, w[1..]);
      var tail := w[1..][..j];
      var k := UnwindWitness(stack, tail);
      UnwindPlain(stack, w[0], tail, k);
      assert used == [w[0]] + tail;
    } else {
      if |stack| > 1 {
        ScanSound(stack[..|stack| - 1], w[1..]);
        assert used[1..] == w[1..][..j];
      }
      assert UnwindsAt(stack, used, 0);
    }
  }

  lemma UnwindPlain(stack: seq<Token>, t: Token, tail: seq<Token>, k: int)
    requires stack != [] && Plain(t) && UnwindsAt(stack, tail, k)
    ensures UnwindsAt(stack, [t] + tail, k + 1)
  {
    NestedPlain(t, tail[..k]);
    assert ([t] + tail)[..k + 1] == [t] + tail[..k];
    assert ([t] + tail)[k + 2..] == tail[k + 1..];
  }

  lemma UnwindGroup(stack: seq<Token>, open: Token, tail: seq<Token>, k: int)
    requires stack != [] && IsOpen(open) && UnwindsAt(stack + [CloseOf(open)], tail, k)
    ensures Unwinds(stack, [open] + tail)
  {
    assert (stack + [CloseOf(open)])[..|stack|] == stack;
    var behind := tail[k + 1..];
    var m := UnwindWitness(stack, behind);
    var w := [open] + tail;
    NestedGroup(open, tail[..k], behind[..m]);
    GroupText(open, tail, k, m);
    assert UnwindsAt(stack, w, k + 2 + m);
  }

  lemma GroupText(open: Token, tail: seq<Token>, k: nat, m: nat)
    requires k < |tail| && IsOpen(open) && tail[k] == CloseOf(open) && m <= |tail| - k - 1
    ensures var w, behind := [open] + tail, tail[k + 1..];
      && w[..k + 2 + m] == [open] + tail[..k] + [CloseOf(open)] + behind[..m]
      && (m < |behind| ==> w[k + 2 + m + 1..] == behind[m + 1..])
  {
  }

  // ---------- matching ----------

  datatype Match = NotADelimiter | Unmatched | At(index: nat)

  function MatchOf(tokens: seq<Token>, opening: nat): (m: Match)
    requires opening < |tokens|
    ensures m.At? ==> opening < m.index < |tokens|
  {
    if !IsOpen(tokens[opening]) then NotADelimiter
    else match Scan([CloseOf(tokens[opening])], tokens[opening + 1..])
         case None => Unmatched
         case Some(j) => At(opening + 1 + j)
  }

  method MatchingDelimiter(tokens: seq<Token>, opening: nat) returns (m: Match)
    requires opening < |tokens|
    ensures m == MatchOf(tokens, opening)
  {
    if !IsOpen(tokens[opening]) {
      return NotADelimiter;
    }
    var stack := [CloseOf(tokens[opening])];
    ghost var expected := Shift(Scan(stack, tokens[opening + 1..]), opening + 1);
    var index := opening + 1;
    while index < |tokens|
      invariant opening < index <= |tokens| && stack != []
      invariant expected == Shift(Scan(stack, tokens[index..]), index)
    {
      var token := tokens[index];
      assert tokens[index..][1..] == tokens[index + 1..];
      if IsOpen(token) {
        stack := stack + [CloseOf(token)];
      } else if IsClose(token) {
        var top := stack[|stack| - 1];
        if token != top {
          return Unmatched;
        }
        if |stack| == 1 {
          return At(index);
        }
        stack := stack[..|stack| - 1];
      }
      index := index + 1;
    }
    return Unmatched;
  }

  /** Position j closes the bracket at `opening`. */
  ghost predicate Encloses(tokens: seq<Token>, opening: nat, j: int) {
    && opening < j < |tokens|
    && IsOpen(tokens[opening])
    && tokens[j] == CloseOf(tokens[opening])
    && WellNested(tokens[opening + 1..j])
  }

  /** The match is the position that closes a well-nested word, whenever there is one. */
  lemma MatchIsEnclosing(tokens: seq<Token>, opening: nat, j: int)
    requires opening < |tokens|
    ensures Encloses(tokens, opening, j) <==> j >= 0 && MatchOf(tokens, opening) == At(j)
  {
    if IsOpen(tokens[opening]) {
      var rest := tokens[opening + 1..];
      var close := CloseOf(tokens[opening]);
      if Encloses(tokens, opening, j) {
        ScanOver([close], tokens[opening + 1..j], tokens[j..]);
        assert rest == tokens[opening + 1..j] + tokens[j..];
      }
      if Scan([close], rest).Some? {
        var n := Scan([close], rest).value;
        ScanSound([close], rest);
        var k := UnwindWitness([close], rest[..n + 1]);
        assert rest[..n + 1][..k] == tokens[opening + 1..opening + 1 + n];
      }
    }
  }

  lemma UnmatchedMeansNone(tokens: seq<Token>, opening: nat)
    requires opening < |tokens|
    ensures MatchOf(tokens, opening) == Unmatched
      <==> IsOpen(tokens[opening]) && forall j :: !Encloses(tokens, opening, j)
  {
    forall j
      ensures Encloses(tokens, opening, j) <==> j >= 0 && MatchOf(tokens, opening) == At(j)
    {
      MatchIsEnclosing(tokens, opening, j);
    }
    if MatchOf(tokens, opening).At? {
      assert Encloses(tokens, opening, MatchOf(tokens, opening).index);
    }
  }

  // ---------- function extraction ----------

  datatype RustFunction = RustFunction(name: Token, tokens: seq<Token>, body: seq<Token>)

  /** From behind the parameter list: the brace that opens the body, if the signature has one. */
  function BodyStart(tokens: seq<Token>, cursor: nat): (r: Option<nat>)
    ensures r.Some? ==> cursor <= r.value < |tokens| && tokens[r.value] == "{"
    decreases |tokens| - cursor
  {
    if cursor >= |tokens| || tokens[cursor] == ";" then None
    else if tokens[cursor] == "{" then Some(cursor)
    else if tokens[cursor] == "(" || tokens[cursor] == "[" then
      match MatchOf(tokens, cursor)
      case At(end) => BodyStart(tokens, end + 1)
      case _ => None
    else BodyStart(tokens, cursor + 1)
  }

  /** The braces of the body behind a parameter list. */
  function BodySpan(tokens: seq<Token>, cursor: nat): (r: Option<(nat, nat)>)
    ensures r.Some? ==> cursor <= r.value.0 < r.value.1 < |tokens|
  {
    match BodyStart(tokens, cursor)
    case None => None
    case Some(open) =>
      match MatchOf(tokens, open)
      case At(close) => Some((open, close))
      case _ => None
  }

  function FunctionAt(tokens: seq<Token>, name: Token, start: nat): Option<RustFunction>
    requires start + 2 < |tokens|
  {
    if tokens[start] != "fn" || tokens[start + 1] != name || tokens[start + 2] != "(" then None
    else
      var parameters := MatchOf(tokens, start + 2);
      if !parameters.At? then None
      else
        var span := BodySpan(tokens, parameters.index + 1);
        if span.None? then None
        else Some(RustFunction(name, tokens[start..span.value.1 + 1], tokens[span.value.0 + 1..span.value.1]))
  }

  /** The functions found at positions below `bound`, in order. */
  function FunctionsBelow(tokens: seq<Token>, name: Token, bound: nat): seq<RustFunction>
    requires bound == 0 || bound + 1 < |tokens|
  {
    if bound == 0 then []
    else FunctionsBelow(tokens, name, bound - 1) +
         match FunctionAt(tokens, name, bound - 1) case None => [] case Some(f) => [f]
  }

  method FindBodyStart(tokens: seq<Token>, from: nat) returns (open: Option<nat>)
    ensures open == BodyStart(tokens, from)
  {
    var cursor := from;
    while cursor < |tokens|
      invariant BodyStart(tokens, from) == BodyStart(tokens, cursor)
      decreases |tokens| - cursor
    {
      if tokens[cursor] == ";" {
        return None;
      }
      if tokens[cursor] == "{" {
        return Some(cursor);
      }
      if tokens[cursor] == "(" || tokens[cursor] == "[" {
        var nestedEnd := MatchingDelimiter(tokens, cursor);
        if !nestedEnd.At? {
          return None;
        }
        cursor := nestedEnd.index;
      }
      cursor := cursor + 1;
    }
    return None;
  }

  method FindBodySpan(tokens: seq<Token>, cursor: nat) returns (span: Option<(nat, nat)>)
    ensures span == BodySpan(tokens, cursor)
  {
    var open := FindBodyStart(tokens, cursor);
    if open.None? {
      return None;
    }
    var close := MatchingDelimiter(tokens, open.value);
    return if close.At? then Some((open.value, close.index)) else None;
  }

  lemma FunctionOf(tokens: seq<Token>, name: Token, start: nat, parameters: Match, span: Option<(nat, nat)>)
    requires start + 2 < |tokens| && tokens[start] == "fn" && tokens[start + 1] == name && tokens[start + 2] == "("
    requires parameters == MatchOf(tokens, start + 2) && parameters.At? && span == BodySpan(tokens, parameters.index + 1)
    ensures FunctionAt(tokens, name, start)
      == if span.None? then None
         else Some(RustFunction(name, tokens[start..span.value.1 + 1], tokens[span.value.0 + 1..span.value.1]))
  {
  }

  method FunctionFrom(tokens: seq<Token>, name: Token, start: nat) returns (found: Option<RustFunction>)
    requires start + 2 < |tokens|
    ensures found == FunctionAt(tokens, name, start)
  {
    if tokens[start] != "fn" || tokens[start + 1] != name || tokens[start + 2] != "(" {
      return None;
    }
    var parameters := MatchingDelimiter(tokens, start + 2);
    if !parameters.At? {
      return None;
    }
    var span := FindBodySpan(tokens, parameters.index + 1);
    FunctionOf(tokens, name, start, parameters, span);
    if span.None? {
      return None;
    }
    return Some(RustFunction(name, tokens[start..span.value.1 + 1], tokens[span.value.0 + 1..span.value.1]));
  }

  method CollectFunctions(tokens: seq<Token>, name: Token) returns (functions: seq<RustFunction>)
    ensures functions == FunctionsBelow(tokens, name, if |tokens| < 3 then 0 else |tokens| - 2)
  {
    functions := [];
    var start := 0;
    while start + 2 < |tokens|
      invariant start <= |tokens| && (start == 0 || start + 1 < |tokens|)
      invariant functions == FunctionsBelow(tokens, name, start)
    {
      var found := FunctionFrom(tokens, name, start);
      FunctionsNext(tokens, name, start + 1);
      if found.Some? {
        functions := functions + [found.value];
      }
      start := start + 1;
    }
  }

  /** The functions are exactly the definitions of that name, in source order. */
  ghost predicate IsExtraction(tokens: seq<Token>, name: Token, functions: seq<RustFunction>) {
    exists at :: AllDefinitions(tokens, name, |tokens|, functions, at)
  }

  method ExtractFunctions(tokens: seq<Token>, name: Token) returns (functions: seq<RustFunction>)
    ensures IsExtraction(tokens, name, functions)
  {
    functions := CollectFunctions(tokens, name);
    ghost var at := AllExtracted(tokens, name);
  }

  /** Between parameter list and body: no semicolon and no opening brace, but groups in parentheses and
      square brackets. */
  ghost predicate Signature(tokens: seq<Token>, from: nat, to: nat)
    decreases to - from
  {
    || from == to
    || (from < to <= |tokens| && tokens[from] !in {";", "{", "(", "["} && Signature(tokens, from + 1, to))
    || (from < to <= |tokens| && tokens[from] in {"(", "["} && GroupThen(tokens, from, to))
  }

  ghost predicate GroupThen(tokens: seq<Token>, from: nat, to: nat)
    decreases to - from, 0
  {
    exists end: nat :: from < end < to && Encloses(tokens, from, end) && Signature(tokens, end + 1, to)
  }

  /** A definition: `fn name (` with a well-nested parameter list, a signature, and a well-nested body in
      braces. */
  ghost predicate DefinitionAt(tokens: seq<Token>, f: RustFunction, start: nat, parameterEnd: nat, open: nat, close: nat) {
    && start + 2 < parameterEnd < open < close < |tokens|
    && f.tokens == tokens[start..close + 1] && f.body == tokens[open + 1..close]
    && tokens[start] == "fn" && tokens[start + 1] == f.name && tokens[start + 2] == "("
    && Encloses(tokens, start + 2, parameterEnd)
    && Signature(tokens, parameterEnd + 1, open)
    && tokens[open] == "{" && Encloses(tokens, open, close)
  }

  ghost predicate Defines(tokens: seq<Token>, name: Token, start: nat, f: RustFunction) {
    f.name == name && exists parameterEnd: nat, open: nat, close: nat :: DefinitionAt(tokens, f, start, parameterEnd, open, close)
  }

  lemma GroupSteps(tokens: seq<Token>, cursor: nat, end: nat)
    requires cursor < |tokens| && tokens[cursor] in {"(", "["} && Encloses(tokens, cursor, end)
    ensures BodyStart(tokens, cursor) == BodyStart(tokens, end + 1)
  {
    MatchIsEnclosing(tokens, cursor, end);
  }

  /** A signature leads to the brace behind it, ... */
  lemma {:induction false} SignatureLeads(tokens: seq<Token>, cursor: nat, open: nat)
    requires Signature(tokens, cursor, open) && open < |tokens| && tokens[open] == "{"
    ensures BodyStart(tokens, cursor) == Some(open)
    decreases open - cursor
  {
    if cursor < open {
      if tokens[cursor] in {"(", "["} {
        var end: nat :| cursor < end < open && Encloses(tokens, cursor, end) && Signature(tokens, end + 1, open);
        GroupSteps(tokens, cursor, end);
        SignatureLeads(tokens, end + 1, open);
      } else {
        SignatureLeads(tokens, cursor + 1, open);
      }
    }
  }

  /** ... and what leads to a brace is a signature. */
  lemma {:induction false} LeadsIsSignature(tokens: seq<Token>, cursor: nat)
    requires BodyStart(tokens, cursor).Some?
    ensures Signature(tokens, cursor, BodyStart(tokens, cursor).value)
    decreases |tokens| - cursor
  {
    var open := BodyStart(tokens, cursor).value;
    if tokens[cursor] != "{" {
      if tokens[cursor] == "(" || tokens[cursor] == "[" {
        var end := MatchOf(tokens, cursor).index;
        MatchIsEnclosing(tokens, cursor, end);
        LeadsIsSignature(tokens, end + 1);
        assert GroupThen(tokens, cursor, open);
      } else {
        LeadsIsSignature(tokens, cursor + 1);
      }
    }
  }

  lemma BodyNests(tokens: seq<Token>, cursor: nat, open: nat, close: nat)
    requires BodySpan(tokens, cursor) == Some((open, close))
    ensures cursor <= open < close < |tokens| && tokens[open] == "{" && Encloses(tokens, open, close)
    ensures Signature(tokens, cursor, open)
  {
    MatchIsEnclosing(tokens, open, close);
    LeadsIsSignature(tokens, cursor);
  }

  lemma SpansAreDefinition(tokens: seq<Token>, f: RustFunction, start: nat, parameterEnd: nat, open: nat, close: nat)
    requires start + 2 < |tokens| && MatchOf(tokens, start + 2) == At(parameterEnd)
    requires BodySpan(tokens, parameterEnd + 1) == Some((open, close))
    requires f == RustFunction(tokens[start + 1], tokens[start..close + 1], tokens[open + 1..close])
    requires tokens[start] == "fn" && tokens[start + 2] == "("
    ensures DefinitionAt(tokens, f, start, parameterEnd, open, close) && WellNested(f.body)
  {
    MatchIsEnclosing(tokens, start + 2, parameterEnd);
    BodyNests(tokens, parameterEnd + 1, open, close);
  }

  lemma FoundIsDefinition(tokens: seq<Token>, name: Token, start: nat, f: RustFunction)
    requires start + 2 < |tokens| && FunctionAt(tokens, name, start) == Some(f)
    ensures Defines(tokens, name, start, f) && WellNested(f.body)
  {
    var parameterEnd := MatchOf(tokens, start + 2).index;
    var (open, close) := BodySpan(tokens, parameterEnd + 1).value;
    SpansAreDefinition(tokens, f, start, parameterEnd, open, close);
  }

  lemma SpanIsFound(tokens: seq<Token>, cursor: nat, open: nat, close: nat)
    requires Signature(tokens, cursor, open) && open < |tokens| && tokens[open] == "{" && Encloses(tokens, open, close)
    ensures BodySpan(tokens, cursor) == Some((open, close))
  {
    MatchIsEnclosing(tokens, open, close);
    SignatureLeads(tokens, cursor, open);
  }

  lemma SpansAreFound(tokens: seq<Token>, f: RustFunction, start: nat, parameterEnd: nat, open: nat, close: nat)
    requires DefinitionAt(tokens, f, start, parameterEnd, open, close)
    ensures MatchOf(tokens, start + 2) == At(parameterEnd) && BodySpan(tokens, parameterEnd + 1) == Some((open, close))
  {
    MatchIsEnclosing(tokens, start + 2, parameterEnd);
    SpanIsFound(tokens, parameterEnd + 1, open, close);
  }

  lemma FunctionOfSpans(tokens: seq<Token>, f: RustFunction, start: nat, parameterEnd: nat, open: nat, close: nat)
    requires start + 2 < |tokens| && open < close < |tokens| && start < close
    requires tokens[start] == "fn" && tokens[start + 1] == f.name && tokens[start + 2] == "("
    requires MatchOf(tokens, start + 2) == At(parameterEnd) && BodySpan(tokens, parameterEnd + 1) == Some((open, close))
    ensures FunctionAt(tokens, f.name, start) == Some(RustFunction(f.name, tokens[start..close + 1], tokens[open + 1..close]))
  {
  }

  lemma DefinitionIsFound(tokens: seq<Token>, name: Token, start: nat, f: RustFunction)
    requires Defines(tokens, name, start, f)
    ensures start + 2 < |tokens| && FunctionAt(tokens, name, start) == Some(f)
  {
    var parameterEnd: nat, open: nat, close: nat :| DefinitionAt(tokens, f, start, parameterEnd, open, close);
    SpansAreFound(tokens, f, start, parameterEnd, open, close);
    FunctionOfSpans(tokens, f, start, parameterEnd, open, close);
  }

  /** The definitions before `bound`, in source order, each with its position. */
  ghost predicate AllDefinitions(tokens: seq<Token>, name: Token, bound: nat, found: seq<RustFunction>, at: seq<nat>) {
    && |found| == |at|
    && (forall n | 0 <= n < |at| :: at[n] < bound && Defines(tokens, name, at[n], found[n]))
    && (forall m, n | 0 <= m < n < |at| :: at[m] < at[n])
    && (forall start: nat, f | start < bound && Defines(tokens, name, start, f) :: start in at)
  }

  lemma NextDefinition(tokens: seq<Token>, name: Token, start: nat, found: seq<RustFunction>, at: seq<nat>, f: RustFunction)
    requires AllDefinitions(tokens, name, start, found, at) && Defines(tokens, name, start, f)
    ensures AllDefinitions(tokens, name, start + 1, found + [f], at + [start])
  {
  }

  lemma NoDefinition(tokens: seq<Token>, name: Token, start: nat, found: seq<RustFunction>, at: seq<nat>)
    requires AllDefinitions(tokens, name, start, found, at)
    requires start + 2 < |tokens| && FunctionAt(tokens, name, start) == None
    ensures AllDefinitions(tokens, name, start + 1, found, at)
  {
    forall other: nat, f | other < start + 1 && Defines(tokens, name, other, f)
      ensures other in at
    {
      DefinitionIsFound(tokens, name, other, f);
    }
  }

  lemma FunctionsNext(tokens: seq<Token>, name: Token, bound: nat)
    requires 0 < bound && bound + 1 < |tokens|
    ensures FunctionsBelow(tokens, name, bound) == match FunctionAt(tokens, name, bound - 1)
      case None => FunctionsBelow(tokens, name, bound - 1)
      case Some(f) => FunctionsBelow(tokens, name, bound - 1) + [f]
  {
    assert FunctionsBelow(tokens, name, bound - 1) + [] == FunctionsBelow(tokens, name, bound - 1);
  }

  /** What the scan collects is exactly the definitions of that name, in order. */
  lemma {:induction false} ExtractionIsExact(tokens: seq<Token>, name: Token, bound: nat) returns (at: seq<nat>)
    requires bound == 0 || bound + 1 < |tokens|
    ensures AllDefinitions(tokens, name, bound, FunctionsBelow(tokens, name, bound), at)
  {
    at := [];
    if bound > 0 {
      at := ExtractionIsExact(tokens, name, bound - 1);
      FunctionsNext(tokens, name, bound);
      var found := FunctionAt(tokens, name, bound - 1);
      if found.Some? {
        FoundIsDefinition(tokens, name, bound - 1, found.value);
        NextDefinition(tokens, name, bound - 1, FunctionsBelow(tokens, name, bound - 1), at, found.value);
        at := at + [bound - 1];
      } else {
        NoDefinition(tokens, name, bound - 1, FunctionsBelow(tokens, name, bound - 1), at);
      }
    }
  }

  lemma AllExtracted(tokens: seq<Token>, name: Token) returns (at: seq<nat>)
    ensures AllDefinitions(tokens, name, |tokens|, FunctionsBelow(tokens, name, if |tokens| < 3 then 0 else |tokens| - 2), at)
  {
    var bound := if |tokens| < 3 then 0 else |tokens| - 2;
    at := ExtractionIsExact(tokens, name, bound);
    forall start: nat, f | start < |tokens| && Defines(tokens, name, start, f)
      ensures start in at
    {
      DefinitionIsFound(tokens, name, start, f);
    }
  }

  /** Every body that is extracted is well nested. */
  lemma ExtractedBodiesNest(tokens: seq<Token>, name: Token, bound: nat)
    requires bound == 0 || bound + 1 < |tokens|
    ensures forall f | f in FunctionsBelow(tokens, name, bound) :: WellNested(f.body)
  {
    var at := ExtractionIsExact(tokens, name, bound);
    var found := FunctionsBelow(tokens, name, bound);
    forall n | 0 <= n < |found|
      ensures WellNested(found[n].body)
    {
      assert Defines(tokens, name, at[n], found[n]);
      DefinitionIsFound(tokens, name, at[n], found[n]);
      FoundIsDefinition(tokens, name, at[n], found[n]);
    }
  }

  // ---------- JSON-like objects ----------

  function Depth(w: seq<Token>): int {
    if w == [] then 0
    else (if IsOpen(w[0]) then 1 else if IsClose(w[0]) then -1 else 0) + Depth(w[1..])
  }

  lemma {:induction false} DepthConcat(a: seq<Token>, b: seq<Token>)
    ensures Depth(a + b) == Depth(a) + Depth(b)
  {
    if a == [] {
      assert a + b == b;
    } else {
      DepthConcat(a[1..], b);
      assert (a + b)[1..] == a[1..] + b;
    }
  }

  /** A well-nested word closes what it opens and never more. */
  lemma {:induction false} NestedDepth(w: seq<Token>, k: nat)
    requires WellNested(w) && k <= |w|
    ensures Depth(w) == 0 && Depth(w[..k]) >= 0
    decreases |w|
  {
    if w != [] && Plain(w[0]) {
      NestedDepth(w[1..], if k == 0 then 0 else k - 1);
      if k > 0 { assert w[..k][1..] == w[1..][..k - 1]; }
    } else if w != [] {
      var m :| Pairs(w, m) && WellNested(w[1..m]) && WellNested(w[m + 1..]);
      NestedDepth(w[1..m], if k == 0 || k > m then 0 else k - 1);
      NestedDepth(w[m + 1..], if k > m then k - m - 1 else 0);
      GroupDepth(w, m, |w|);
      if 0 < k <= m {
        assert w[..k][1..] == w[1..m][..k - 1];
      } else if k > m {
        GroupDepth(w, m, k);
        assert w[m + 1..k] == w[m + 1..][..k - m - 1];
      }
    }
  }

  lemma GroupDepth(w: seq<Token>, m: nat, k: nat)
    requires 0 < m < k <= |w| && IsOpen(w[0]) && w[m] == CloseOf(w[0])
    ensures Depth(w[..k]) == Depth(w[1..m]) + Depth(w[m + 1..k])
    ensures k == |w| ==> Depth(w) == Depth(w[1..m]) + Depth(w[m + 1..])
  {
    var inner, behind := w[1..m], w[m + 1..k];
    GroupPrefix(w, m, k);
    DepthConcat([w[0]], inner + ([w[m]] + behind));
    DepthConcat(inner, [w[m]] + behind);
    DepthConcat([w[m]], behind);
    assert Depth([w[0]]) == 1 && Depth([w[m]]) == -1;
  }

  lemma GroupPrefix(w: seq<Token>, m: nat, k: nat)
    requires 0 < m < k <= |w|
    ensures w[..k] == [w[0]] + (w[1..m] + ([w[m]] + w[m + 1..k]))
    ensures k == |w| ==> w[..k] == w && w[m + 1..k] == w[m + 1..]
  {
  }

  lemma {:induction false} NestedConcat(a: seq<Token>, b: seq<Token>)
    requires WellNested(a) && WellNested(b)
    ensures WellNested(a + b)
    decreases |a|
  {
    if a == [] {
      assert a + b == b;
    } else if Plain(a[0]) {
      NestedConcat(a[1..], b);
      assert (a + b)[1..] == a[1..] + b;
    } else {
      var k :| Pairs(a, k) && WellNested(a[1..k]) && WellNested(a[k + 1..]);
      NestedConcat(a[k + 1..], b);
      ConcatSlices(a, b, k);
      assert Pairs(a + b, k);
    }
  }

  lemma ConcatSlices(a: seq<Token>, b: seq<Token>, k: nat)
    requires 0 < k < |a|
    ensures (a + b)[1..k] == a[1..k] && (a + b)[k + 1..] == a[k + 1..] + b
    ensures (a + b)[0] == a[0] && (a + b)[k] == a[k]
  {
  }

  lemma SliceSplit(s: seq<Token>, a: nat, b: nat, c: nat)
    requires a <= b <= c <= |s|
    ensures s[a..c] == s[a..b] + s[b..c]
  {
  }

  lemma SliceFirst(s: seq<Token>, a: nat, c: nat)
    requires a < c <= |s|
    ensures s[a..c] == [s[a]] + s[a + 1..c]
  {
  }

  lemma SlicePrefix(s: seq<Token>, a: nat, c: nat, k: nat)
    requires a + k <= c <= |s|
    ensures s[a..c][..k] == s[a..a + k]
  {
  }

  lemma DepthOfSlice(tokens: seq<Token>, from: nat, i: nat, p: nat)
    requires from <= i < p <= |tokens| && IsOpen(tokens[i])
    ensures Depth(tokens[from..p]) == Depth(tokens[from..i]) + 1 + Depth(tokens[i + 1..p])
  {
    SliceSplit(tokens, from, i, p);
    SliceFirst(tokens, i, p);
    DepthConcat(tokens[from..i], tokens[i..p]);
    DepthConcat([tokens[i]], tokens[i + 1..p]);
  }

  /** No position strictly inside the group from i to m is at the top level of what starts at `from`. */
  lemma InsideGroup(tokens: seq<Token>, from: nat, i: nat, m: nat, p: nat)
    requires from <= i < p <= m < |tokens|
    requires WellNested(tokens[from..i]) && IsOpen(tokens[i]) && WellNested(tokens[i + 1..m])
    ensures !WellNested(tokens[from..p])
  {
    NestedDepth(tokens[from..i], 0);
    NestedDepth(tokens[i + 1..m], p - i - 1);
    SlicePrefix(tokens, i + 1, m, p - i - 1);
    DepthOfSlice(tokens, from, i, p);
    if WellNested(tokens[from..p]) {
      NestedDepth(tokens[from..p], 0);
    }
  }

  predicate NameStart(c: char) {
    c == '_' || 'a' <= c <= 'z' || 'A' <= c <= 'Z'
  }

  predicate SimpleName(s: string) {
    s != [] && NameStart(s[0]) && forall i | 0 <= i < |s| :: NameStart(s[i]) || '0' <= s[i] <= '9'
  }

  /** The key a quoted simple identifier spells. */
  function KeyName(t: Token): Option<string> {
    if |t| >= 2 && t[0] == '"' && t[|t| - 1] == '"' && SimpleName(t[1..|t| - 1]) then Some(t[1..|t| - 1]) else None
  }

  /** Between `from` and `to`, position i holds the key `name` at the top level. */
  ghost predicate KeyAt(tokens: seq<Token>, from: nat, to: nat, i: int, name: string)
    requires from <= to <= |tokens|
  {
    && from <= i && i + 1 < to
    && WellNested(tokens[from..i])
    && KeyName(tokens[i]) == Some(name)
    && tokens[i + 1] == ":"
  }

  /** `name` is a key before position `bound`. */
  ghost predicate KeyBelow(tokens: seq<Token>, from: nat, to: nat, bound: int, name: string)
    requires from <= to <= |tokens|
  {
    exists i :: i < bound && KeyAt(tokens, from, to, i, name)
  }

  ghost predicate KeysBelow(tokens: seq<Token>, from: nat, to: nat, bound: int, keys: set<string>)
    requires from <= to <= |tokens|
  {
    forall name :: name in keys <==> KeyBelow(tokens, from, to, bound, name)
  }

  lemma KeyBelowGrows(tokens: seq<Token>, from: nat, to: nat, a: int, b: int, name: string)
    requires from <= to <= |tokens| && a <= b && KeyBelow(tokens, from, to, a, name)
    ensures KeyBelow(tokens, from, to, b, name)
  {
    var i :| i < a && KeyAt(tokens, from, to, i, name);
    assert i < b;
  }

  /** The loop steps from one top-level position to the next: over a plain token ... */
  lemma StepPlain(tokens: seq<Token>, from: nat, to: nat, i: nat)
    requires from <= i < to <= |tokens|
    requires WellNested(tokens[from..i]) && WellNested(tokens[i..to]) && !IsOpen(tokens[i])
    ensures WellNested(tokens[from..i + 1]) && WellNested(tokens[i + 1..to])
  {
    assert tokens[i..to][1..] == tokens[i + 1..to];
    NestedPlain(tokens[i], []);
    assert [tokens[i]] + [] == [tokens[i]];
    NestedConcat(tokens[from..i], [tokens[i]]);
    SliceSplit(tokens, from, i, i + 1);
    SliceFirst(tokens, i, i + 1);
  }

  function WithKey(tokens: seq<Token>, to: nat, i: nat, keys: set<string>): set<string>
    requires i < to <= |tokens|
  {
    var key := KeyName(tokens[i]);
    if key.Some? && i + 1 < to && tokens[i + 1] == ":" then keys + {key.value} else keys
  }

  lemma PlainKeys(tokens: seq<Token>, from: nat, to: nat, i: nat, keys: set<string>)
    requires from <= i < to <= |tokens| && WellNested(tokens[from..i])
    requires KeysBelow(tokens, from, to, i, keys)
    ensures KeysBelow(tokens, from, to, i + 1, WithKey(tokens, to, i, keys))
  {
    var next := WithKey(tokens, to, i, keys);
    forall name
      ensures name in next <==> KeyBelow(tokens, from, to, i + 1, name)
    {
      if name in keys {
        KeyBelowGrows(tokens, from, to, i, i + 1, name);
      } else if name in next {
        assert KeyAt(tokens, from, to, i, name);
      }
      if KeyBelow(tokens, from, to, i + 1, name) {
        var j :| j < i + 1 && KeyAt(tokens, from, to, j, name);
        if j < i {
          assert KeyBelow(tokens, from, to, i, name);
        }
      }
    }
  }

  lemma GroupSlice(tokens: seq<Token>, i: nat, m: nat)
    requires i < m < |tokens|
    ensures tokens[i..m + 1] == [tokens[i]] + tokens[i + 1..m] + [tokens[m]] + []
  {
  }

  /** ... or over a whole group, ... */
  lemma StepGroup(tokens: seq<Token>, from: nat, i: nat, m: nat)
    requires from <= i < m < |tokens|
    requires WellNested(tokens[from..i]) && IsOpen(tokens[i])
    requires tokens[m] == CloseOf(tokens[i]) && WellNested(tokens[i + 1..m])
    ensures WellNested(tokens[from..m + 1])
  {
    NestedGroup(tokens[i], tokens[i + 1..m], []);
    GroupSlice(tokens, i, m);
    NestedConcat(tokens[from..i], tokens[i..m + 1]);
    SliceSplit(tokens, from, i, m + 1);
  }

  /** ... whose inside holds no top-level position. */
  lemma GroupKeys(tokens: seq<Token>, from: nat, to: nat, i: nat, m: nat, keys: set<string>)
    requires from <= i < m < to <= |tokens|
    requires WellNested(tokens[from..i]) && IsOpen(tokens[i]) && WellNested(tokens[i + 1..m])
    requires KeysBelow(tokens, from, to, i, keys)
    ensures KeysBelow(tokens, from, to, m + 1, keys)
  {
    forall name
      ensures KeyBelow(tokens, from, to, i, name) <==> KeyBelow(tokens, from, to, m + 1, name)
    {
      if KeyBelow(tokens, from, to, i, name) {
        KeyBelowGrows(tokens, from, to, i, m + 1, name);
      }
      if KeyBelow(tokens, from, to, m + 1, name) {
        var j :| j < m + 1 && KeyAt(tokens, from, to, j, name);
        if i < j {
          InsideGroup(tokens, from, i, m, j);
        }
        assert j < i;
      }
    }
  }

  /** Inside a matched object every group is matched before the object ends. */
  lemma GroupEnds(tokens: seq<Token>, closing: nat, index: nat) returns (end: nat)
    requires index < closing < |tokens|
    requires IsOpen(tokens[index]) && WellNested(tokens[index..closing])
    ensures MatchOf(tokens, index) == At(end) && index < end < closing
    ensures tokens[end] == CloseOf(tokens[index])
    ensures WellNested(tokens[index + 1..end]) && WellNested(tokens[end + 1..closing])
  {
    var w := tokens[index..closing];
    var k :| Pairs(w, k) && WellNested(w[1..k]) && WellNested(w[k + 1..]);
    end := index + k;
    GroupSlices(tokens, index, end, closing);
    MatchIsEnclosing(tokens, index, end);
  }

  lemma GroupSlices(tokens: seq<Token>, index: nat, end: nat, closing: nat)
    requires index < end < closing < |tokens|
    ensures tokens[index..closing][1..end - index] == tokens[index + 1..end]
    ensures tokens[index..closing][end - index + 1..] == tokens[end + 1..closing]
  {
    var w := tokens[index..closing];
    var inner := w[1..end - index];
    assert |inner| == end - index - 1;
    assert forall k | 0 <= k < |inner| :: inner[k] == w[k + 1] == tokens[index + 1 + k];
  }

  /** The object between `from` and `to` has been read up to `index`. */
  ghost predicate ReadTo(tokens: seq<Token>, from: nat, to: nat, index: nat, keys: set<string>) {
    && from <= index <= to <= |tokens|
    && WellNested(tokens[from..index]) && WellNested(tokens[index..to])
    && KeysBelow(tokens, from, to, index, keys)
  }

  lemma ReadGroup(tokens: seq<Token>, from: nat, to: nat, index: nat, keys: set<string>) returns (end: nat)
    requires ReadTo(tokens, from, to, index, keys) && index < to < |tokens| && IsOpen(tokens[index])
    ensures MatchOf(tokens, index) == At(end) && index < end < to
    ensures ReadTo(tokens, from, to, end + 1, keys)
  {
    end := GroupEnds(tokens, to, index);
    StepGroup(tokens, from, index, end);
    GroupKeys(tokens, from, to, index, end, keys);
  }

  lemma ReadPlain(tokens: seq<Token>, from: nat, to: nat, index: nat, keys: set<string>)
    requires ReadTo(tokens, from, to, index, keys) && index < to && !IsOpen(tokens[index])
    ensures ReadTo(tokens, from, to, index + 1, WithKey(tokens, to, index, keys))
  {
    StepPlain(tokens, from, to, index);
    PlainKeys(tokens, from, to, index, keys);
  }

  method TopLevelKeys(tokens: seq<Token>, opening: nat, closing: nat) returns (keys: set<string>)
    requires Encloses(tokens, opening, closing)
    ensures KeysBelow(tokens, opening + 1, closing, closing, keys)
  {
    keys := {};
    var index := opening + 1;
    assert tokens[opening + 1..index] == [];
    while index < closing
      invariant ReadTo(tokens, opening + 1, closing, index, keys)
    {
      if IsOpen(tokens[index]) {
        ghost var end := ReadGroup(tokens, opening + 1, closing, index, keys);
        var nestedClose := MatchingDelimiter(tokens, index);
        if !nestedClose.At? || nestedClose.index > closing {
          break;  // never taken: nestedClose == At(end)
        }
        index := nestedClose.index + 1;
      } else {
        ReadPlain(tokens, opening + 1, closing, index, keys);
        keys := WithKey(tokens, closing, index, keys);
        index := index + 1;
      }
    }
  }

  ghost predicate HasKeys(tokens: seq<Token>, opening: nat, keys: set<string>) {
    && opening < |tokens| && tokens[opening] == "{" && MatchOf(tokens, opening).At?
    && KeysBelow(tokens, opening + 1, MatchOf(tokens, opening).index, MatchOf(tokens, opening).index, keys)
  }

  /** The key sets, in source order, of exactly the matched objects before `bound` that hold every
      required key. */
  ghost predicate KeySets(tokens: seq<Token>, required: set<string>, bound: nat, found: seq<set<string>>, at: seq<nat>) {
    && |found| == |at|
    && (forall n | 0 <= n < |at| :: at[n] < bound && required <= found[n] && HasKeys(tokens, at[n], found[n]))
    && (forall m, n | 0 <= m < n < |at| :: at[m] < at[n])
    && (forall o: nat, keys: set<string> | o < bound && HasKeys(tokens, o, keys) && required <= keys :: o in at)
  }

  lemma KeysUnique(tokens: seq<Token>, o: nat, a: set<string>, b: set<string>)
    requires HasKeys(tokens, o, a) && HasKeys(tokens, o, b)
    ensures a == b
  {
  }

  lemma NextKeySets(tokens: seq<Token>, required: set<string>, o: nat, found: seq<set<string>>, at: seq<nat>, keys: set<string>)
    requires KeySets(tokens, required, o, found, at) && HasKeys(tokens, o, keys)
    ensures required <= keys ==> KeySets(tokens, required, o + 1, found + [keys], at + [o])
    ensures !(required <= keys) ==> KeySets(tokens, required, o + 1, found, at)
  {
    forall other | HasKeys(tokens, o, other)
      ensures other == keys
    {
      KeysUnique(tokens, o, other, keys);
    }
  }

  /** The key sets are those of exactly the matched objects with the required keys, in source order. */
  ghost predicate AreKeySets(tokens: seq<Token>, required: set<string>, candidates: seq<set<string>>) {
    exists at :: KeySets(tokens, required, |tokens|, candidates, at)
  }

  method JsonObjectKeySets(tokens: seq<Token>, required: set<string>) returns (candidates: seq<set<string>>)
    ensures AreKeySets(tokens, required, candidates)
  {
    candidates := [];
    ghost var at: seq<nat> := [];
    var opening := 0;
    while opening < |tokens|
      invariant opening <= |tokens|
      invariant KeySets(tokens, required, opening, candidates, at)
    {
      if tokens[opening] == "{" {
        var closing := MatchingDelimiter(tokens, opening);
        if closing.At? {
          MatchIsEnclosing(tokens, opening, closing.index);
          var keys := TopLevelKeys(tokens, opening, closing.index);
          NextKeySets(tokens, required, opening, candidates, at, keys);
          if required <= keys {
            candidates := candidates + [keys];
            at := at + [opening];
          }
        }
      }
      opening := opening + 1;
    }
  }
}
