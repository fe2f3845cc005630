/**
 Kahn's algorithm with a queue, ties broken by name, as a declarative step: order the first ready
 batch and queue the dependents that now have all their dependencies.  The step is sound, and what
 it leaves out are exactly the batches from which a cycle can be reached.
 */
module KahnOrder {
  import opened Common
  import opened Sorting

  /** Every batch with the set of batches it depends on. */
  type Graph = map<string, set<string>>

  predicate Closed(g: Graph) {
    forall b | b in g :: g[b] <= g.Keys
  }

  // ---------- the declarative step ----------

  predicate Distinct(s: seq<string>) {
    forall i, j | 0 <= i < j < |s| :: s[i] != s[j]
  }

  /** The dependents of b that have all their dependencies once b is ordered. */
  ghost function Freed(g: Graph, order: seq<string>, b: string): set<string> {
    set d | d in g && b in g[d] && g[d] <= Elements(order + [b])
  }

  /** What is ordered has its dependencies before it; what is ready has them all ordered, and nothing
      else outside the order has. */
  ghost predicate Sound(g: Graph, order: seq<string>, ready: seq<string>) {
    && Distinct(order + ready)
    && (forall i | 0 <= i < |order| :: order[i] in g && g[order[i]] <= Elements(order[..i]))
    && (forall d | d in g :: d in order + ready <==> g[d] <= Elements(order))
    && (forall i | 0 <= i < |ready| :: ready[i] in g)
  }

  ghost function NextReady(g: Graph, order: seq<string>, ready: seq<string>): seq<string>
    requires ready != []
  {
    ready[1..] + SortedOf(Freed(g, order, ready[0]))
  }

  lemma ElementsOfConcat(a: seq<string>, b: seq<string>)
    ensures Elements(a + b) == Elements(a) + Elements(b)
  {
    forall x | x in Elements(a) + Elements(b)
      ensures x in Elements(a + b)
    {
      if x in Elements(a) {
        var i :| 0 <= i < |a| && a[i] == x;
        assert (a + b)[i] == x;
      } else {
        var i :| 0 <= i < |b| && b[i] == x;
        assert (a + b)[|a| + i] == x;
      }
    }
  }

  lemma InElements(s: seq<string>, x: string)
    ensures x in s <==> x in Elements(s)
  {
  }

  lemma FreedIsNew(g: Graph, order: seq<string>, ready: seq<string>, d: string)
    requires Sound(g, order, ready) && ready != [] && ready[0] !in Elements(order)
    requires d in Freed(g, order, ready[0])
    ensures d !in order + ready
  {
    assert ready[0] in g[d];
    assert !(g[d] <= Elements(order));
  }

  lemma HeadIsNew(g: Graph, order: seq<string>, ready: seq<string>)
    requires Sound(g, order, ready) && ready != []
    ensures ready[0] !in Elements(order)
  {
    forall i | 0 <= i < |order|
      ensures order[i] != ready[0]
    {
      assert (order + ready)[i] == order[i] && (order + ready)[|order|] == ready[0];
    }
  }

  lemma DistinctAppend(s: seq<string>, t: seq<string>)
    requires Distinct(s) && Increasing(t) && Elements(s) !! Elements(t)
    ensures Distinct(s + t)
  {
    forall i, j | 0 <= i < j < |s + t|
      ensures (s + t)[i] != (s + t)[j]
    {
      if i >= |s| {
        LessIsIrreflexive(t[i - |s|]);
        assert Less(t[i - |s|], t[j - |s|]);
      } else if j >= |s| {
        assert s[i] in Elements(s) && t[j - |s|] in Elements(t);
      }
    }
  }

  lemma StepIsSound(g: Graph, order: seq<string>, ready: seq<string>)
    requires Sound(g, order, ready) && ready != []
    ensures Sound(g, order + [ready[0]], NextReady(g, order, ready))
  {
    var b := ready[0];
    var freed := Freed(g, order, b);
    var t := SortedOf(freed);
    var s := order + ready;
    HeadIsNew(g, order, ready);
    forall d | d in freed
      ensures d !in Elements(s)
    {
      FreedIsNew(g, order, ready, d);
    }
    DistinctAppend(s, t);
    var order' := order + [b];
    assert order' + NextReady(g, order, ready) == s + t;
    ElementsOfConcat(order, [b]);
    assert Elements([b]) == {b} by { assert [b][0] == b; }
    forall i | 0 <= i < |order'|
      ensures order'[i] in g && g[order'[i]] <= Elements(order'[..i])
    {
      if i == |order| {
        assert b in s by { assert s[|order|] == b; }
        assert order'[..i] == order;
      } else {
        assert order'[..i] == order[..i];
      }
    }
    StepCovers(g, order, ready, t);
    forall i | 0 <= i < |NextReady(g, order, ready)|
      ensures NextReady(g, order, ready)[i] in g
    {
      if i >= |ready| - 1 {
        assert t[i - (|ready| - 1)] in Elements(t);
      }
    }
  }

  lemma StepCovers(g: Graph, order: seq<string>, ready: seq<string>, t: seq<string>)
    requires Sound(g, order, ready) && ready != [] && t == SortedOf(Freed(g, order, ready[0]))
    ensures forall d | d in g ::
      d in (order + [ready[0]]) + (ready[1..] + t) <==> g[d] <= Elements(order + [ready[0]])
  {
    var b := ready[0];
    ElementsOfConcat(order, [b]);
    assert Elements([b]) == {b} by { assert [b][0] == b; }
    forall d | d in g
      ensures d in (order + [b]) + (ready[1..] + t) <==> g[d] <= Elements(order + [b])
    {
      assert (order + [b]) + (ready[1..] + t) == (order + ready) + t;
      assert d in (order + ready) + t <==> d in order + ready || d in t;
      InElements(t, d);
      assert d in t <==> d in Freed(g, order, b);
    }
  }

  lemma {:induction false} SizeOfDistinct(s: seq<string>)
    requires Distinct(s)
    ensures |Elements(s)| == |s|
  {
    if s != [] {
      var front := s[..|s| - 1];
      SizeOfDistinct(front);
      assert s == front + [s[|s| - 1]];
      ElementsOfConcat(front, [s[|s| - 1]]);
      assert Elements([s[|s| - 1]]) == {s[|s| - 1]} by { assert [s[|s| - 1]][0] == s[|s| - 1]; }
    }
  }

  lemma OrderedFits(g: Graph, order: seq<string>, ready: seq<string>)
    requires Sound(g, order, ready)
    ensures |order + ready| <= |g|
  {
    SizeOfDistinct(order + ready);
    forall x | x in Elements(order + ready)
      ensures x in g.Keys
    {
      var i :| 0 <= i < |order + ready| && (order + ready)[i] == x;
      if i >= |order| { assert x == ready[i - |order|]; } else { assert x == order[i]; }
    }
    SubsetSize(Elements(order + ready), g.Keys);
  }

  /** Steps until nothing is ready. */
  ghost function Kahn(g: Graph, order: seq<string>, ready: seq<string>): seq<string>
    requires Sound(g, order, ready)
    decreases |g| - |order|
  {
    if ready == [] then order
    else
      StepIsSound(g, order, ready);
      OrderedFits(g, order, ready);
      Kahn(g, order + [ready[0]], NextReady(g, order, ready))
  }

  ghost function Roots(g: Graph): set<string> {
    set b | b in g && g[b] == {}
  }

  lemma RootsAreSound(g: Graph)
    ensures Sound(g, [], SortedOf(Roots(g)))
  {
    var t := SortedOf(Roots(g));
    DistinctAppend([], t);
    assert [] + t == t;
    assert Elements([]) == {};
    forall d | d in g
      ensures d in t <==> g[d] <= {}
    {
      InElements(t, d);
    }
    forall i | 0 <= i < |t|
      ensures t[i] in g
    {
      assert t[i] in Elements(t);
    }
  }

  ghost function BuildOrder(g: Graph): seq<string> {
    RootsAreSound(g);
    Kahn(g, [], SortedOf(Roots(g)))
  }

  // ---------- what the steps arrive at ----------

  lemma {:induction false} KahnEndsSound(g: Graph, order: seq<string>, ready: seq<string>)
    requires Sound(g, order, ready)
    ensures Sound(g, Kahn(g, order, ready), [])
    decreases |g| - |order|
  {
    if ready != [] {
      StepIsSound(g, order, ready);
      OrderedFits(g, order, ready);
      KahnEndsSound(g, order + [ready[0]], NextReady(g, order, ready));
    }
  }

  /** The batches the order leaves out. */
  ghost function Stuck(g: Graph): set<string> {
    g.Keys - Elements(BuildOrder(g))
  }

  lemma OrderIsSound(g: Graph)
    ensures var order := BuildOrder(g);
      && Distinct(order) && Elements(order) <= g.Keys
      && (forall i | 0 <= i < |order| :: order[i] in g && g[order[i]] <= Elements(order[..i]))
      && (forall d | d in g :: d in Elements(order) <==> g[d] <= Elements(order))
  {
    RootsAreSound(g);
    KahnEndsSound(g, [], SortedOf(Roots(g)));
    var order := BuildOrder(g);
    assert order + [] == order;
    forall d | d in g
      ensures d in Elements(order) <==> g[d] <= Elements(order)
    {
      InElements(order, d);
    }
  }

  /** Whatever is left out depends on something else that is left out. */
  lemma StuckDependsOnStuck(g: Graph, b: string)
    requires Closed(g) && b in Stuck(g)
    ensures exists d :: d in g[b] && d in Stuck(g)
  {
    OrderIsSound(g);
    assert !(g[b] <= Elements(BuildOrder(g)));
    var d :| d in g[b] && d !in Elements(BuildOrder(g));
    assert d in Stuck(g);
  }

  // ---------- paths and cycles ----------

  /** Each batch depends on the one after it. */
  predicate IsPath(g: Graph, p: seq<string>) {
    && (forall i | 0 <= i < |p| :: p[i] in g)
    && (forall i | 0 <= i < |p| - 1 :: p[i + 1] in g[p[i]])
  }

  predicate IsCycle(g: Graph, p: seq<string>) {
    |p| > 1 && IsPath(g, p) && p[0] == p[|p| - 1]
  }

  ghost predicate Acyclic(g: Graph) {
    forall p :: !IsCycle(g, p)
  }

  /** A path leads from b through its dependencies into a cycle. */
  ghost predicate ReachesCycle(g: Graph, b: string) {
    exists p :: IsPath(g, p) && p != [] && p[0] == b && !Distinct(p)
  }

  /** A path that meets a batch twice contains a cycle. */
  lemma RepetitionIsCycle(g: Graph, p: seq<string>)
    requires IsPath(g, p) && !Distinct(p)
    ensures !Acyclic(g)
  {
    var i, j :| 0 <= i < j < |p| && p[i] == p[j];
    var c := p[i..j + 1];
    forall k | 0 <= k < |c| - 1
      ensures c[k + 1] in g[c[k]]
    {
      assert c[k + 1] == p[i + k + 1] && c[k] == p[i + k];
    }
    assert IsCycle(g, c);
  }

  /** From a batch that is left out one can walk on forever among the batches left out. */
  lemma {:induction false} StuckWalk(g: Graph, b: string, n: nat) returns (p: seq<string>)
    requires Closed(g) && b in Stuck(g) && n > 0
    ensures |p| == n && IsPath(g, p) && p[0] == b && p[n - 1] in Stuck(g)
  {
    if n == 1 {
      p := [b];
    } else {
      p := StuckWalk(g, b, n - 1);
      StuckDependsOnStuck(g, p[n - 2]);
      var d :| d in g[p[n - 2]] && d in Stuck(g);
      p := p + [d];
    }
  }

  lemma LongPathRepeats(g: Graph, p: seq<string>)
    requires IsPath(g, p) && |p| > |g|
    ensures !Distinct(p)
  {
    if Distinct(p) {
      SizeOfDistinct(p);
      SubsetSize(Elements(p), g.Keys);
      assert false;
    }
  }

  lemma Index(order: seq<string>, x: string) returns (i: nat)
    requires x in Elements(order)
    ensures i < |order| && order[i] == x
  {
    i :| 0 <= i < |order| && order[i] == x;
  }

  /** Along a path from an ordered batch the positions in the order fall, so nothing repeats. */
  lemma {:induction false} OrderedPathFalls(g: Graph, p: seq<string>, k: nat) returns (at: nat)
    requires Closed(g) && IsPath(g, p) && k < |p| && p[0] in Elements(BuildOrder(g))
    ensures at < |BuildOrder(g)| && BuildOrder(g)[at] == p[k]
    ensures forall j | 0 <= j < k :: p[j] !in Elements(BuildOrder(g)[..at + 1])
    decreases k
  {
    var order := BuildOrder(g);
    OrderIsSound(g);
    if k == 0 {
      at := Index(order, p[0]);
    } else {
      var before := OrderedPathFalls(g, p, k - 1);
      assert p[k - 1 + 1] in g[p[k - 1]];
      assert g[order[before]] <= Elements(order[..before]);
      at := Index(order[..before], p[k]);
      FallsFurther(order, p, k, before, at);
    }
  }

  lemma FallsFurther(order: seq<string>, p: seq<string>, k: nat, before: nat, at: nat)
    requires Distinct(order) && 0 < k < |p| && at < before < |order| && order[before] == p[k - 1]
    requires forall j | 0 <= j < k - 1 :: p[j] !in Elements(order[..before + 1])
    ensures forall j | 0 <= j < k :: p[j] !in Elements(order[..at + 1])
  {
    forall j, i | 0 <= j < k && 0 <= i <= at
      ensures p[j] != order[i]
    {
      if j < k - 1 {
        assert order[..before + 1][i] in Elements(order[..before + 1]);
      }
    }
  }

  lemma OrderedNeverRepeats(g: Graph, p: seq<string>)
    requires Closed(g) && IsPath(g, p) && p != [] && p[0] in Elements(BuildOrder(g))
    ensures Distinct(p)
  {
    forall i, j | 0 <= i < j < |p|
      ensures p[i] != p[j]
    {
      var at := OrderedPathFalls(g, p, j);
      assert BuildOrder(g)[..at + 1][at] in Elements(BuildOrder(g)[..at + 1]);
    }
  }

  /** A batch is left out exactly when a cycle can be reached from it. */
  lemma StuckIffReachesCycle(g: Graph, b: string)
    requires Closed(g) && b in g
    ensures b in Stuck(g) <==> ReachesCycle(g, b)
  {
    if b in Stuck(g) {
      var p := StuckWalk(g, b, |g| + 1);
      LongPathRepeats(g, p);
    } else {
      forall p | IsPath(g, p) && p != [] && p[0] == b
        ensures Distinct(p)
      {
        OrderedNeverRepeats(g, p);
      }
    }
  }

  lemma NothingLeft(a: set<string>, b: set<string>)
    ensures a - b == {} <==> a <= b
  {
    assert forall x | x in a :: x in b || x in a - b;
  }

  lemma NoCycleWhenComplete(g: Graph, p: seq<string>)
    requires Closed(g) && Stuck(g) == {} && IsPath(g, p) && p != []
    ensures Distinct(p)
  {
    assert p[0] in g.Keys && p[0] !in Stuck(g);
    OrderedNeverRepeats(g, p);
  }

  /** The order is complete exactly when there is no cycle. */
  lemma CompleteIffAcyclic(g: Graph)
    requires Closed(g)
    ensures |BuildOrder(g)| == |g| <==> Acyclic(g)
    ensures |BuildOrder(g)| == |g| <==> Stuck(g) == {}
  {
    var order := BuildOrder(g);
    OrderIsSound(g);
    SizeOfDistinct(order);
    SubsetSize(Elements(order), g.Keys);
    if Stuck(g) != {} {
      var b :| b in Stuck(g);
      var p := StuckWalk(g, b, |g| + 1);
      LongPathRepeats(g, p);
      RepetitionIsCycle(g, p);
      assert Elements(order) != g.Keys;
    } else {
      NothingLeft(g.Keys, Elements(order));
      assert Elements(order) == g.Keys;
      forall p
        ensures !IsCycle(g, p)
      {
        if IsCycle(g, p) {
          NoCycleWhenComplete(g, p);
          assert false;
        }
      }
    }
  }
}
