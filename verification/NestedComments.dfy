/**
 Block comments that nest, as both hand-written lexers read them: a counter of the depth.  The
 reference is a grammar of comment trees.
 */
module NestedComments {
  import opened Common
  import opened TextScan

  predicate Opens(t: Text) {
    Starts(t, '/', '*')
  }

  predicate Closes(t: Text) {
    Starts(t, '*', '/')
  }

  /** Inside a comment that is `depth` deep: up to and including its end. */
  function BlockLen(t: Text, depth: nat): (r: Option<nat>)
    ensures r.Some? ==> r.value <= |t|
    decreases |t|
  {
    if depth == 0 then Some(0)
    else if t == [] then None
    else
      var d := if Opens(t) || Closes(t) then 2 else 1;
      var inner := if Opens(t) then depth + 1 else if Closes(t) then depth - 1 else depth;
      match BlockLen(t[d..], inner)
      case None => None
      case Some(n) => Some(d + n)
  }

  // ---------- the grammar ----------

  /** The inside of a comment: characters and comments. */
  datatype Inside = End | Char(c: char, rest: Inside) | Nested(inner: Inside, rest: Inside)

  // The text behind the opening delimiter, up to and including the closing one.
  function Render(i: Inside): Text {
    match i
    case End => ['*', '/']
    case Char(c, rest) => [c] + Render(rest)
    case Nested(inner, rest) => ['/', '*'] + Render(inner) + Render(rest)
  }

  /** No character is the first of a delimiter. */
  predicate WellFormed(i: Inside) {
    match i
    case End => true
    case Char(c, rest) => !Opens(Render(i)) && !Closes(Render(i)) && WellFormed(rest)
    case Nested(inner, rest) => WellFormed(inner) && WellFormed(rest)
  }

  lemma RenderEnds(i: Inside)
    ensures |Render(i)| >= 2
  {
  }

  lemma BlockChar(c: char, tail: Text, depth: nat)
    requires depth > 0 && !Opens([c] + tail) && !Closes([c] + tail)
    ensures BlockLen([c] + tail, depth)
      == match BlockLen(tail, depth) case None => None case Some(n) => Some(n + 1)
  {
    assert ([c] + tail)[1..] == tail;
  }

  lemma BlockOpen(tail: Text, depth: nat)
    requires depth > 0
    ensures BlockLen(['/', '*'] + tail, depth)
      == match BlockLen(tail, depth + 1) case None => None case Some(n) => Some(n + 2)
  {
    assert (['/', '*'] + tail)[2..] == tail;
  }

  lemma BlockClose(tail: Text, depth: nat)
    requires depth > 0
    ensures BlockLen(['*', '/'] + tail, depth)
      == match BlockLen(tail, depth - 1) case None => None case Some(n) => Some(n + 2)
  {
    assert (['*', '/'] + tail)[2..] == tail;
  }

  /** Only the first two characters say whether a delimiter stands in front. */
  lemma DelimiterLocal(t: Text, tail: Text)
    requires |t| >= 2
    ensures Opens(t + tail) == Opens(t) && Closes(t + tail) == Closes(t)
  {
  }

  lemma CharCloses(c: char, rest: Inside, tail: Text, depth: nat)
    requires WellFormed(Char(c, rest)) && depth > 0
    requires BlockLen(Render(rest) + tail, depth) == Shift(BlockLen(tail, depth - 1), |Render(rest)|)
    ensures BlockLen(Render(Char(c, rest)) + tail, depth)
      == Shift(BlockLen(tail, depth - 1), |Render(Char(c, rest))|)
  {
    RenderEnds(rest);
    DelimiterLocal(Render(Char(c, rest)), tail);
    assert Render(Char(c, rest)) + tail == [c] + (Render(rest) + tail);
    BlockChar(c, Render(rest) + tail, depth);
  }

  lemma NestedText(inner: Inside, rest: Inside, tail: Text)
    ensures Render(Nested(inner, rest)) + tail == ['/', '*'] + (Render(inner) + (Render(rest) + tail))
    ensures |Render(Nested(inner, rest))| == |Render(inner)| + |Render(rest)| + 2
  {
    Concat(['/', '*'], Render(inner), Render(rest), tail);
  }

  lemma Concat(a: Text, b: Text, c: Text, d: Text)
    ensures a + b + c + d == a + (b + (c + d))
  {
  }

  lemma NestedCloses(inner: Inside, rest: Inside, tail: Text, depth: nat)
    requires depth > 0
    requires BlockLen(Render(inner) + (Render(rest) + tail), depth + 1)
      == Shift(BlockLen(Render(rest) + tail, depth), |Render(inner)|)
    requires BlockLen(Render(rest) + tail, depth) == Shift(BlockLen(tail, depth - 1), |Render(rest)|)
    ensures BlockLen(Render(Nested(inner, rest)) + tail, depth)
      == Shift(BlockLen(tail, depth - 1), |Render(Nested(inner, rest))|)
  {
    NestedText(inner, rest, tail);
    BlockOpen(Render(inner) + (Render(rest) + tail), depth);
  }

  /** A rendered tree brings the depth down by one. */
  lemma {:induction false} RenderCloses(i: Inside, tail: Text, depth: nat)
    requires WellFormed(i) && depth > 0
    ensures BlockLen(Render(i) + tail, depth) == Shift(BlockLen(tail, depth - 1), |Render(i)|)
  {
    match i
    case End =>
      BlockClose(tail, depth);
    case Char(c, rest) =>
      RenderCloses(rest, tail, depth);
      CharCloses(c, rest, tail, depth);
    case Nested(inner, rest) =>
      RenderCloses(inner, Render(rest) + tail, depth + 1);
      RenderCloses(rest, tail, depth);
      NestedCloses(inner, rest, tail, depth);
  }

  /** `i` is in front of `behind`, and brings the depth down from `depth`. */
  ghost predicate Parsed(t: Text, depth: nat, i: Inside, behind: Text)
    requires depth > 0
  {
    && WellFormed(i) && t == Render(i) + behind
    && BlockLen(t, depth) == Shift(BlockLen(behind, depth - 1), |Render(i)|)
  }

  lemma ParsedEnd(behind: Text, depth: nat)
    requires depth > 0
    ensures Parsed(['*', '/'] + behind, depth, End, behind)
  {
    BlockClose(behind, depth);
  }

  lemma ParsedChar(c: char, tail: Text, depth: nat, rest: Inside, behind: Text)
    requires depth > 0 && !Opens([c] + tail) && !Closes([c] + tail) && Parsed(tail, depth, rest, behind)
    ensures Parsed([c] + tail, depth, Char(c, rest), behind)
  {
    RenderEnds(rest);
    BlockChar(c, tail, depth);
    assert [c] + tail == Render(Char(c, rest)) + behind;
    DelimiterLocal(Render(Char(c, rest)), behind);
  }

  lemma ParsedNested(tail: Text, depth: nat, inner: Inside, middle: Text, rest: Inside, behind: Text)
    requires depth > 0 && Parsed(tail, depth + 1, inner, middle) && Parsed(middle, depth, rest, behind)
    ensures Parsed(['/', '*'] + tail, depth, Nested(inner, rest), behind)
  {
    BlockOpen(tail, depth);
    NestedText(inner, rest, behind);
  }

  /** Whatever comes down from `depth` reads a comment tree first. */
  lemma {:induction false} Parse(t: Text, depth: nat) returns (i: Inside, behind: Text)
    requires depth > 0 && BlockLen(t, depth).Some?
    ensures Parsed(t, depth, i, behind)
    decreases |t|
  {
    if Closes(t) {
      i, behind := End, t[2..];
      assert t == ['*', '/'] + behind;
      ParsedEnd(behind, depth);
    } else if Opens(t) {
      var tail := t[2..];
      assert t == ['/', '*'] + tail;
      var inner, middle := Parse(tail, depth + 1);
      var rest;
      rest, behind := Parse(middle, depth);
      i := Nested(inner, rest);
      ParsedNested(tail, depth, inner, middle, rest, behind);
    } else {
      var tail := t[1..];
      assert t == [t[0]] + tail;
      var rest;
      rest, behind := Parse(tail, depth);
      i := Char(t[0], rest);
      ParsedChar(t[0], tail, depth, rest, behind);
    }
  }

  /** A text of the grammar. */
  ghost predicate IsComment(w: Text) {
    exists i :: WellFormed(i) && Render(i) == w
  }

  lemma CommentStops(i: Inside, tail: Text)
    requires WellFormed(i)
    ensures BlockLen(Render(i) + tail, 1) == Some(|Render(i)|)
  {
    RenderCloses(i, tail, 1);
  }

  /** The counter stops exactly behind a comment of the grammar. */
  lemma {:induction false} BlockIsTree(t: Text, n: nat)
    ensures BlockLen(t, 1) == Some(n) <==> n <= |t| && IsComment(t[..n])
  {
    if BlockLen(t, 1) == Some(n) {
      var i, behind := Parse(t, 1);
      assert Render(i) == t[..n];
    }
    if n <= |t| && IsComment(t[..n]) {
      var i :| WellFormed(i) && Render(i) == t[..n];
      CommentStops(i, t[n..]);
      assert t == t[..n] + t[n..];
    }
  }
}
