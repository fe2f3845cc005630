/**
 Which of its many topological orders the build order is: ranked by the place of the last dependency, and
 by name among batches with the same last dependency.  There is only one such order.
 */
module DagOrder {
  import opened Common
  import opened Sorting
  import opened KahnOrder
  import opened DependencyDag

  /** Names are compared character by character. */
  lemma {:induction false} LessIff(a: string, b: string)
    ensures Less(a, b) <==>
      exists n: nat :: n <= |a| && n < |b| && a[..n] == b[..n] && (n == |a| || a[n] < b[n])
    decreases |a|
  {
    forall n: nat | 0 < n <= |a| && n <= |b| && a[..n] == b[..n]
      ensures a[0] == b[0]
    {
      assert a[..n][0] == a[0] && b[..n][0] == b[0];
    }
    if a != "" && b != "" && a[0] == b[0] {
      LessIff(a[1..], b[1..]);
      if Less(a, b) {
        var n: nat :| n <= |a[1..]| && n < |b[1..]| && a[1..][..n] == b[1..][..n] && (n == |a[1..]| || a[1..][n] < b[1..][n]);
        assert a[..n + 1] == [a[0]] + a[1..][..n] && b[..n + 1] == [b[0]] + b[1..][..n];
      }
      if n: nat :| n <= |a| && n < |b| && a[..n] == b[..n] && (n == |a| || a[n] < b[n]) {
        assert n > 0 && a[1..][..n - 1] == a[..n][1..] && b[1..][..n - 1] == b[..n][1..];
      }
    } else {
      assert a[..0] == b[..0];
    }
  }

  // ---------- the place of the last dependency ----------

  /** All dependencies of b are among the first n ordered batches, the last of which is one, unless there is none. */
  predicate LastAt(g: Graph, order: seq<string>, b: string, n: nat) {
    && b in g && n <= |order| && g[b] <= Elements(order[..n]) && (n > 0 ==> order[n - 1] in g[b])
  }

  lemma {:induction false} LastExists(g: Graph, order: seq<string>, b: string, m: nat) returns (n: nat)
    requires b in g && m <= |order| && g[b] <= Elements(order[..m])
    ensures n <= m && LastAt(g, order, b, n)
    decreases m
  {
    if m == 0 || order[m - 1] in g[b] {
      n := m;
    } else {
      forall d | d in g[b]
        ensures d in Elements(order[..m - 1])
      {
        var i := Index(order[..m], d);
        assert order[..m - 1][i] == d;
      }
      n := LastExists(g, order, b, m - 1);
    }
  }

  lemma LastBound(g: Graph, order: seq<string>, b: string, m: nat, n: nat)
    requires Distinct(order) && b in g && m <= |order| && 0 < n <= |order|
    requires g[b] <= Elements(order[..m]) && order[n - 1] in g[b]
    ensures n <= m
  {
    var i := Index(order[..m], order[n - 1]);
    assert order[i] == order[n - 1];
  }

  lemma LastIsUnique(g: Graph, order: seq<string>, b: string, m: nat, n: nat)
    requires Distinct(order) && LastAt(g, order, b, m) && LastAt(g, order, b, n)
    ensures m == n
  {
    if n > 0 {
      LastBound(g, order, b, m, n);
    }
    if m > 0 {
      LastBound(g, order, b, n, m);
    }
  }

  /** First by the last dependency, then by name. */
  predicate Before(x: string, m: nat, y: string, n: nat) {
    m < n || (m == n && Less(x, y))
  }

  ghost predicate Ranked(g: Graph, order: seq<string>, s: seq<string>) {
    forall i, j, m: nat, n: nat | 0 <= i < j < |s| && LastAt(g, order, s[i], m) && LastAt(g, order, s[j], n) ::
      Before(s[i], m, s[j], n)
  }

  // ---------- every step keeps the ranks ----------

  lemma LastOfOld(g: Graph, order: seq<string>, b: string, x: string, n: nat)
    requires x in g && g[x] <= Elements(order) && Distinct(order + [b]) && LastAt(g, order + [b], x, n)
    ensures n <= |order| && LastAt(g, order, x, n)
  {
    assert (order + [b])[..|order|] == order;
    if n > 0 {
      LastBound(g, order + [b], x, |order|, n);
    }
    assert (order + [b])[..n] == order[..n];
  }

  lemma LastOfFreed(g: Graph, order: seq<string>, b: string, x: string, n: nat)
    requires x in g && b in g[x] && Distinct(order + [b]) && LastAt(g, order + [b], x, n)
    ensures n == |order| + 1
  {
    LastBound(g, order + [b], x, n, |order| + 1);
  }

  lemma SoundDeps(g: Graph, order: seq<string>, ready: seq<string>, i: nat)
    requires Sound(g, order, ready) && i < |order + ready|
    ensures var x := (order + ready)[i]; x in g && g[x] <= Elements(order)
  {
    var x := (order + ready)[i];
    assert x in order + ready;
    if i < |order| {
      assert x == order[i];
    } else {
      assert x == ready[i - |order|];
    }
  }

  lemma PrefixIsDistinct(a: seq<string>, b: seq<string>)
    requires Distinct(a + b)
    ensures Distinct(a)
  {
    assert forall i | 0 <= i < |a| :: (a + b)[i] == a[i];
  }

  lemma {:induction false} StepIsRanked(g: Graph, order: seq<string>, ready: seq<string>)
    requires Sound(g, order, ready) && ready != [] && Ranked(g, order, order + ready)
    ensures var order' := order + [ready[0]]; Ranked(g, order', order' + NextReady(g, order, ready))
  {
    var b := ready[0];
    var order', s, t := order + [b], order + ready, SortedOf(Freed(g, order, b));
    var s' := order' + NextReady(g, order, ready);
    assert s' == s + t;
    assert s == order' + ready[1..];
    PrefixIsDistinct(order', ready[1..]);
    forall i, j, m: nat, n: nat | 0 <= i < j < |s'| && LastAt(g, order', s'[i], m) && LastAt(g, order', s'[j], n)
      ensures Before(s'[i], m, s'[j], n)
    {
      if i < |s| {
        SoundDeps(g, order, ready, i);
        LastOfOld(g, order, b, s[i], m);
      } else {
        FreedAt(g, order, b, t, i - |s|);
        LastOfFreed(g, order, b, t[i - |s|], m);
      }
      if j < |s| {
        SoundDeps(g, order, ready, j);
        LastOfOld(g, order, b, s[j], n);
      } else {
        FreedAt(g, order, b, t, j - |s|);
        LastOfFreed(g, order, b, t[j - |s|], n);
      }
    }
  }

  lemma FreedAt(g: Graph, order: seq<string>, b: string, t: seq<string>, k: nat)
    requires IsSorted(t, Freed(g, order, b)) && k < |t|
    ensures t[k] in g && b in g[t[k]]
  {
    assert t[k] in Elements(t);
  }

  lemma {:induction false} KahnIsRanked(g: Graph, order: seq<string>, ready: seq<string>)
    requires Sound(g, order, ready) && Ranked(g, order, order + ready)
    ensures var result := Kahn(g, order, ready); Ranked(g, result, result)
    decreases |g| - |order|
  {
    if ready == [] {
      assert order + ready == order;
    } else {
      StepIsSound(g, order, ready);
      OrderedFits(g, order, ready);
      StepIsRanked(g, order, ready);
      KahnIsRanked(g, order + [ready[0]], NextReady(g, order, ready));
    }
  }

  lemma OrderIsRanked(g: Graph)
    ensures Ranked(g, BuildOrder(g), BuildOrder(g))
  {
    var t := SortedOf(Roots(g));
    RootsAreSound(g);
    assert [] + t == t;
    KahnIsRanked(g, [], t);
  }

  // ---------- there is only one ----------

  /** Every batch once, behind its dependencies, by rank. */
  ghost predicate IsBuildOrder(g: Graph, order: seq<string>) {
    && Distinct(order) && Elements(order) == g.Keys
    && (forall i | 0 <= i < |order| :: order[i] in g && g[order[i]] <= Elements(order[..i]))
    && Ranked(g, order, order)
  }

  lemma SameLast(g: Graph, a: seq<string>, b: seq<string>, k: nat, x: string, n: nat)
    requires k <= |a| && k <= |b| && a[..k] == b[..k] && n <= k && LastAt(g, a, x, n)
    ensures LastAt(g, b, x, n)
  {
    assert a[..n] == a[..k][..n] == b[..k][..n] == b[..n];
    assert n > 0 ==> a[n - 1] == a[..k][n - 1] == b[..k][n - 1];
  }

  /** Where the two first differ, each batch would have to rank before the other. */
  lemma OrdersAgreeAt(g: Graph, a: seq<string>, b: seq<string>, k: nat)
    requires IsBuildOrder(g, a) && IsBuildOrder(g, b) && k < |a| && k < |b| && a[..k] == b[..k]
    ensures a[k] == b[k]
  {
    var x, y := a[k], b[k];
    if x != y {
      var m := LastExists(g, a, x, k);
      var n := LastExists(g, b, y, k);
      SameLast(g, a, b, k, x, m);
      SameLast(g, b, a, k, y, n);
      var i := LaterIn(a, b, k);
      var j := LaterIn(b, a, k);
      assert Before(x, m, y, n) && Before(y, n, x, m);
      LessIsTransitive(x, y, x);
      LessIsIrreflexive(x);
    }
  }

  /** What the other order has at k stands behind k in this one. */
  lemma LaterIn(a: seq<string>, b: seq<string>, k: nat) returns (i: nat)
    requires Distinct(b) && Elements(a) == Elements(b) && k < |a| && k < |b| && a[..k] == b[..k] && a[k] != b[k]
    ensures k < i < |a| && a[i] == b[k]
  {
    assert b[k] in Elements(b);
    assert forall h | 0 <= h < k :: a[h] == a[..k][h] && b[h] == b[..k][h];
    i := Index(a, b[k]);
  }

  lemma {:induction false} OrdersAgreeTo(g: Graph, a: seq<string>, b: seq<string>, k: nat)
    requires IsBuildOrder(g, a) && IsBuildOrder(g, b) && k <= |a| && k <= |b|
    ensures a[..k] == b[..k]
    decreases k
  {
    if k > 0 {
      OrdersAgreeTo(g, a, b, k - 1);
      OrdersAgreeAt(g, a, b, k - 1);
      assert a[..k] == a[..k - 1] + [a[k - 1]] && b[..k] == b[..k - 1] + [b[k - 1]];
    }
  }

  /** The build order of an acyclic graph is the one order that is ranked in this way. */
  lemma OrderIff(g: Graph, order: seq<string>)
    requires Closed(g) && Acyclic(g)
    ensures order == BuildOrder(g) <==> IsBuildOrder(g, order)
  {
    var built := BuildOrder(g);
    OrderIsSound(g);
    CompleteIffAcyclic(g);
    NothingLeft(g.Keys, Elements(built));
    assert Elements(built) == g.Keys;
    OrderIsRanked(g);
    if IsBuildOrder(g, order) {
      SizeOfDistinct(order);
      SizeOfDistinct(built);
      OrdersAgreeTo(g, order, built, |order|);
      assert order == order[..|order|] && built == built[..|order|];
    }
  }

  // ---------- the validated file ----------

  lemma EdgesIff(batches: map<string, Record>, b: string)
    requires b in batches && HasKinds(batches, EDGE_KINDS)
    ensures EdgesValid(batches, b) <==>
      forall kind | kind in {"contracts", "implementation", "runtime", "optional"} ::
        && kind in batches[b]
        && (forall i, j | 0 <= i < j < |batches[b][kind]| :: batches[b][kind][i] != batches[b][kind][j])
        && forall r | r in batches[b][kind] :: r in batches && r != b
  {
    forall kind | kind in {"contracts", "implementation", "runtime", "optional"}
      ensures kind in EDGE_KINDS
    {
      assert EDGE_KINDS[0] == "contracts" && EDGE_KINDS[1] == "implementation";
      assert EDGE_KINDS[2] == "runtime" && EDGE_KINDS[3] == "optional";
    }
    forall kind | kind in EDGE_KINDS
      ensures kind in {"contracts", "implementation", "runtime", "optional"}
    {
    }
    assert EdgesValid(batches, b) <==>
      forall kind | kind in {"contracts", "implementation", "runtime", "optional"} :: ListValid(batches, b, kind);
    forall kind | kind in {"contracts", "implementation", "runtime", "optional"}
      ensures ListValid(batches, b, kind) <==>
        && kind in batches[b]
        && (forall i, j | 0 <= i < j < |batches[b][kind]| :: batches[b][kind][i] != batches[b][kind][j])
        && forall r | r in batches[b][kind] :: r in batches && r != b
    {
    }
  }

  lemma DepsAre(record: Record, r: string)
    requires "contracts" in record && "implementation" in record
    ensures (forall k | k in BUILD_KINDS :: k in record)
    ensures r in Deps(record, BUILD_KINDS) <==> r in record["contracts"] || r in record["implementation"]
  {
    assert BUILD_KINDS[0] == "contracts" && BUILD_KINDS[1] == "implementation";
  }

  /** The order of a valid file has every batch once, behind every batch that it names under contracts or under
      implementation, and no order is made of the other two lists. */
  lemma ValidatedOrder(batches: map<string, Record>, order: seq<string>)
    requires HasKinds(batches, EDGE_KINDS) && forall b | b in batches :: EdgesValid(batches, b)
    requires HasKinds(batches, BUILD_KINDS) && Outcome(GraphOf(batches, BUILD_KINDS)) == Ok(order)
    ensures forall b :: b in order <==> b in batches
    ensures forall i, j | 0 <= i < j < |order| :: order[i] != order[j]
    ensures forall i, kind, r | 0 <= i < |order| && order[i] in batches && kind in {"contracts", "implementation"}
      && kind in batches[order[i]] && r in batches[order[i]][kind] :: exists j :: 0 <= j < i && order[j] == r
  {
    var g := GraphOf(batches, BUILD_KINDS);
    ValidIsClosed(batches);
    OutcomeMeetsItsPurpose(g);
    forall b
      ensures b in order <==> b in batches
    {
      InElements(order, b);
      assert b in g.Keys <==> b in batches.Keys;
    }
    forall i, kind, r | 0 <= i < |order| && order[i] in batches && kind in {"contracts", "implementation"}
      && kind in batches[order[i]] && r in batches[order[i]][kind]
      ensures exists j :: 0 <= j < i && order[j] == r
    {
      assert BUILD_KINDS[0] in BUILD_KINDS && BUILD_KINDS[1] in BUILD_KINDS;
      DepsAre(batches[order[i]], r);
      assert r in g[order[i]];
    }
  }
}
