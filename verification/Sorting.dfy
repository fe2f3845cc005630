/** Python's `sorted` on a set of strings: the one strictly increasing sequence of its elements. */
module Sorting {

  /** Lexicographic order by code point. */
  predicate Less(a: string, b: string) {
    b != "" && (a == "" || a[0] < b[0] || (a[0] == b[0] && Less(a[1..], b[1..])))
  }

  lemma {:induction false} LessIsTotal(a: string, b: string)
    ensures a == b || Less(a, b) || Less(b, a)
    decreases |a|
  {
    if a != "" && b != "" && a[0] == b[0] {
      LessIsTotal(a[1..], b[1..]);
      assert a == [a[0]] + a[1..] && b == [b[0]] + b[1..];
    }
  }

  lemma {:induction false} LessIsTransitive(a: string, b: string, c: string)
    requires Less(a, b) && Less(b, c)
    ensures Less(a, c)
    decreases |a|
  {
    if a != "" && a[0] == b[0] && b[0] == c[0] {
      LessIsTransitive(a[1..], b[1..], c[1..]);
    }
  }

  lemma {:induction false} LessIsIrreflexive(a: string)
    ensures !Less(a, a)
  {
    if a != "" {
      LessIsIrreflexive(a[1..]);
    }
  }

  predicate Increasing(r: seq<string>) {
    forall i, j | 0 <= i < j < |r| :: Less(r[i], r[j])
  }

  function Elements(r: seq<string>): set<string> {
    set i | 0 <= i < |r| :: r[i]
  }

  predicate IsSorted(r: seq<string>, s: set<string>) {
    Increasing(r) && Elements(r) == s
  }

  /** There is only one such sequence. */
  lemma {:induction false} SortedIsUnique(a: seq<string>, b: seq<string>)
    requires Increasing(a) && Increasing(b) && Elements(a) == Elements(b)
    ensures a == b
    decreases |a|
  {
    if a == [] || b == [] {
      EmptyElements(a);
      EmptyElements(b);
    } else {
      FirstIsLeast(a, b);
      TailElements(a);
      TailElements(b);
      SortedIsUnique(a[1..], b[1..]);
    }
  }

  lemma EmptyElements(r: seq<string>)
    ensures Elements(r) == {} <==> r == []
  {
    if r != [] {
      assert r[0] in Elements(r);
    }
  }

  lemma FirstIsLeast(a: seq<string>, b: seq<string>)
    requires a != [] && b != [] && Increasing(a) && Increasing(b) && Elements(a) == Elements(b)
    ensures a[0] == b[0]
  {
    assert a[0] in Elements(b) && b[0] in Elements(a);
    var i :| 0 <= i < |b| && b[i] == a[0];
    var j :| 0 <= j < |a| && a[j] == b[0];
    if i > 0 && j > 0 {
      LessIsTransitive(a[0], a[j], b[i]);
      LessIsIrreflexive(a[0]);
    }
  }

  lemma TailElements(r: seq<string>)
    requires r != [] && Increasing(r)
    ensures Elements(r[1..]) == Elements(r) - {r[0]}
  {
    LessIsIrreflexive(r[0]);
    forall x | x in Elements(r) && x != r[0]
      ensures x in Elements(r[1..])
    {
      var i :| 0 <= i < |r| && r[i] == x;
      assert r[1..][i - 1] == x;
    }
  }

  lemma {:induction false} SizeOfElements(r: seq<string>)
    requires Increasing(r)
    ensures |Elements(r)| == |r|
  {
    if r != [] {
      TailElements(r);
      SizeOfElements(r[1..]);
    }
  }

  // ---------- sorting ----------

  /** Where x belongs among the elements of an increasing sequence. */
  method Position(r: seq<string>, x: string) returns (n: nat)
    requires Increasing(r) && x !in Elements(r)
    ensures n <= |r|
    ensures forall i | 0 <= i < n :: Less(r[i], x)
    ensures forall i | n <= i < |r| :: Less(x, r[i])
  {
    n := 0;
    while n < |r| && Less(r[n], x)
      invariant n <= |r| && forall i | 0 <= i < n :: Less(r[i], x)
    {
      n := n + 1;
    }
    if n < |r| {
      LessIsTotal(r[n], x);
      assert Less(x, r[n]);
      forall i | n < i < |r|
        ensures Less(x, r[i])
      {
        LessIsTransitive(x, r[n], r[i]);
      }
    }
  }

  lemma Inserted(r: seq<string>, x: string, n: nat)
    requires Increasing(r) && n <= |r|
    requires forall i | 0 <= i < n :: Less(r[i], x)
    requires forall i | n <= i < |r| :: Less(x, r[i])
    ensures IsSorted(r[..n] + [x] + r[n..], Elements(r) + {x})
  {
    var t := r[..n] + [x] + r[n..];
    forall y | y in Elements(r)
      ensures y in Elements(t)
    {
      var i :| 0 <= i < |r| && r[i] == y;
      assert t[if i < n then i else i + 1] == y;
    }
    assert t[n] == x;
  }

  method Sorted(s: set<string>) returns (r: seq<string>)
    ensures IsSorted(r, s)
  {
    r := [];
    var left := s;
    while left != {}
      invariant left <= s && IsSorted(r, s - left)
      decreases |left|
    {
      var x :| x in left;
      var n := Position(r, x);
      Inserted(r, x, n);
      r := r[..n] + [x] + r[n..];
      left := left - {x};
      assert s - left == s - (left + {x}) + {x};
    }
  }

  lemma {:induction false} SortedExists(s: set<string>) returns (r: seq<string>)
    ensures IsSorted(r, s)
    decreases |s|
  {
    r := [];
    if s != {} {
      var x := Greatest(s);
      r := SortedExists(s - {x});
      forall i | 0 <= i < |r|
        ensures Less(r[i], x)
      {
        assert r[i] in Elements(r);
      }
      Inserted(r, x, |r|);
      assert r[..|r|] + [x] + r[|r|..] == r + [x];
      r := r + [x];
    }
  }

  lemma {:induction false} Greatest(s: set<string>) returns (x: string)
    requires s != {}
    ensures x in s && forall y | y in s && y != x :: Less(y, x)
    decreases |s|
  {
    x :| x in s;
    if s != {x} {
      var z := Greatest(s - {x});
      LessIsTotal(x, z);
      if Less(x, z) {
        x := z;
      } else {
        forall y | y in s && y != x
          ensures Less(y, x)
        {
          if y != z { LessIsTransitive(y, z, x); }
        }
      }
    }
  }

  ghost function SortedOf(s: set<string>): (r: seq<string>)
    ensures IsSorted(r, s)
  {
    assert exists r :: IsSorted(r, s) by {
      var r := SortedExists(s);
    }
    var r :| IsSorted(r, s);
    r
  }

  lemma IsSortedOf(r: seq<string>, s: set<string>)
    requires IsSorted(r, s)
    ensures r == SortedOf(s)
  {
    SortedIsUnique(r, SortedOf(s));
  }
}
