/**
 The lexer of the migration checks: a state machine over the SQL source that keeps the code and
 erases literals and comments, leaving a blank and the line ends.
 */
module SqlLexer {
  import opened Common
  import opened TextScan
  import opened NestedComments

  datatype State = Normal | Quoted(quote: char) | Block(depth: nat) | Dollar(delimiter: Text)

  predicate IsQuote(c: char) {
    c == '\'' || c == '"'
  }

  predicate TagStart(c: char) {
    c == '_' || 'a' <= c <= 'z' || 'A' <= c <= 'Z'
  }

  predicate TagContinue(c: char) {
    TagStart(c) || '0' <= c <= '9'
  }

  /** Length of the dollar-quote delimiter in front of `t`: two dollars around an optional tag. */
  function DelimiterLen(t: Text): (r: Option<nat>)
    ensures r.Some? ==> 2 <= r.value <= |t|
  {
    if |t| < 2 || t[0] != '$' then None
    else if t[1] == '$' then Some(2)
    else if !TagStart(t[1]) then None
    else
      var n := 1 + Run(t[1..], TagContinue);
      if n < |t| && t[n] == '$' then Some(n + 1) else None
  }

  /** The line ends of a text, and nothing else. */
  function LineEnds(t: Text): Text {
    if t == [] then [] else if t[0] == '\n' then ['\n'] + LineEnds(t[1..]) else LineEnds(t[1..])
  }

  function Prepend(front: Text, rest: Option<Text>): Option<Text> {
    match rest case None => None case Some(back) => Some(front + back)
  }

  /** What one step reads, what it makes visible, and the state it leaves; None where it fails. */
  datatype Move = Move(length: nat, visible: Text, next: State)

  function LineEndOf(c: char): Text {
    if c == '\n' then ['\n'] else []
  }

  function StepNormal(t: Text): (m: Move)
    requires t != []
    ensures 0 < m.length <= |t|
  {
    if Starts(t, '-', '-') then
      (match Find(t[2..], "\n")
       case None => Move(|t|, " ", Normal)
       case Some(j) => Move(j + 3, "\n", Normal))
    else if Opens(t) then Move(2, " ", Block(1))
    else if IsQuote(t[0]) then Move(1, " ", Quoted(t[0]))
    else match DelimiterLen(t)
      case Some(n) => Move(n, " ", Dollar(t[..n]))
      case None => Move(1, [t[0]], Normal)
  }

  function Step(state: State, t: Text): (m: Option<Move>)
    requires t != []
    ensures m.Some? ==> m.value.length <= |t| && (m.value.length == 0 ==> state.Dollar? && m.value.next.Normal?)
  {
    match state
    case Normal => Some(StepNormal(t))
    case Quoted(q) =>
      if t[0] == q then
        if |t| > 1 && t[1] == q then Some(Move(2, [], state)) else Some(Move(1, [], Normal))
      else Some(Move(1, LineEndOf(t[0]), state))
    case Block(depth) =>
      if Opens(t) then Some(Move(2, [], Block(depth + 1)))
      else if Closes(t) then Some(Move(2, [], if depth <= 1 then Normal else Block(depth - 1)))
      else Some(Move(1, LineEndOf(t[0]), state))
    case Dollar(delimiter) =>
      match Find(t, delimiter)
      case None => None
      case Some(k) => Some(Move(k + |delimiter|, LineEnds(t[..k]), Normal))
  }

  /** The visible text from a state on; None where the lexer fails. */
  function Lex(state: State, t: Text): Option<Text>
    decreases |t|, if state.Dollar? then 1 else 0
  {
    if t == [] then if state.Normal? then Some([]) else None
    else match Step(state, t)
      case None => None
      case Some(m) => Prepend(m.visible, Lex(m.next, t[m.length..]))
  }

  // ---------- the loop ----------

  lemma LexStep(state: State, t: Text, m: Move, back: Text)
    requires t != [] && Step(state, t) == Some(m) && back == t[m.length..]
    ensures Lex(state, t) == Prepend(m.visible, Lex(m.next, back))
  {
  }

  lemma LexAt(s: Text, i: nat, state: State, m: Move, visible: Text, next: nat)
    requires i < |s| && Step(state, s[i..]) == Some(m) && next == i + m.length
    ensures next <= |s|
    ensures Prepend(visible, Lex(state, s[i..])) == Prepend(visible + m.visible, Lex(m.next, s[next..]))
  {
    Behind(s, i, m.length);
    LexStep(state, s[i..], m, s[next..]);
    if Lex(m.next, s[next..]).Some? {
      var back := Lex(m.next, s[next..]).value;
      assert visible + (m.visible + back) == visible + m.visible + back;
    }
  }

  method LexVisibleSql(source: Text) returns (result: Option<Text>)
    ensures result == Lex(Normal, source)
  {
    var visible: Text := [];
    var position := 0;
    var state := Normal;
    assert source[0..] == source;
    PrependNothing(Lex(Normal, source));
    while position < |source|
      invariant position <= |source|
      invariant Lex(Normal, source) == Prepend(visible, Lex(state, source[position..]))
      decreases |source| - position, if state.Dollar? then 1 else 0
    {
      var t := source[position..];
      var move := StepAt(state, source, position);
      if move.None? {
        return None;
      }
      LexAt(source, position, state, move.value, visible, position + move.value.length);
      visible := visible + move.value.visible;
      state := move.value.next;
      position := position + move.value.length;
    }
    assert source[position..] == [];
    if !state.Normal? {
      return None;
    }
    assert visible + [] == visible;
    return Some(visible);
  }

  lemma PrependNothing(r: Option<Text>)
    ensures Prepend([], r) == r
  {
    if r.Some? {
      assert [] + r.value == r.value;
    }
  }

  /** One round of the loop, state by state. */
  method StepAt(state: State, source: Text, position: nat) returns (move: Option<Move>)
    requires position < |source|
    ensures move == Step(state, source[position..])
  {
    var character := source[position];
    var last := position + 1 == |source|;
    match state {
      case Quoted(q) =>
        if character == q {
          return Some(if !last && source[position + 1] == q then Move(2, [], state) else Move(1, [], Normal));
        }
        return Some(Move(1, if character == '\n' then ['\n'] else [], state));
      case Block(depth) =>
        if !last && character == '/' && source[position + 1] == '*' {
          return Some(Move(2, [], Block(depth + 1)));
        }
        if !last && character == '*' && source[position + 1] == '/' {
          return Some(Move(2, [], if depth <= 1 then Normal else Block(depth - 1)));
        }
        return Some(Move(1, if character == '\n' then ['\n'] else [], state));
      case Dollar(delimiter) =>
        var closing := Find(source[position..], delimiter);
        if closing.None? {
          return None;
        }
        var ends := CountLineEnds(source[position..][..closing.value]);
        return Some(Move(closing.value + |delimiter|, ends, Normal));
      case Normal =>
        return Some(StepNormal(source[position..]));
    }
  }

  method CountLineEnds(t: Text) returns (ends: Text)
    ensures ends == LineEnds(t)
  {
    ends := [];
    var i := |t|;
    while i > 0
      invariant 0 <= i <= |t|
      invariant ends == LineEnds(t[i..])
    {
      i := i - 1;
      assert t[i..][1..] == t[i + 1..];
      if t[i] == '\n' {
        ends := ['\n'] + ends;
      }
    }
    assert t[0..] == t;
  }
}
