/**
 The build order of the batches: a loop over mutable dependency sets that refines the declarative
 steps of Kahn's algorithm.
 */
module DependencyDag {
  import opened Common
  import opened Sorting
  import opened KahnOrder

  /** The edge lists of a batch, by kind. */
  type Record = map<string, seq<string>>

  datatype Error =
    | EdgeInvalid(batch: string, kind: string)
    | BuildCycle(members: seq<string>)

  const EDGE_KINDS: seq<string> := ["contracts", "implementation", "runtime", "optional"]
  const BUILD_KINDS: seq<string> := ["contracts", "implementation"]

  function Deps(record: Record, kinds: seq<string>): set<string>
    requires forall k | k in kinds :: k in record
  {
    set k, r | k in kinds && r in record[k] :: r
  }

  // ---------- the algorithm ----------

  /** A dictionary's keys in the order it is iterated in. */
  predicate IterationOrder(keys: seq<string>, domain: set<string>) {
    Distinct(keys) && Elements(keys) == domain
  }

  predicate HasKinds(batches: map<string, Record>, kinds: seq<string>) {
    forall b, k | b in batches && k in kinds :: k in batches[b]
  }

  function GraphOf(batches: map<string, Record>, kinds: seq<string>): (g: Graph)
    requires HasKinds(batches, kinds)
    ensures g.Keys == batches.Keys
  {
    map b | b in batches :: Deps(batches[b], kinds)
  }

  method CollectDependencies(record: Record, kinds: seq<string>) returns (current: set<string>)
    requires forall k | k in kinds :: k in record
    ensures current == Deps(record, kinds)
  {
    current := {};
    for i := 0 to |kinds|
      invariant current == Deps(record, kinds[..i])
    {
      current := current + set r | r in record[kinds[i]];
      assert kinds[..i + 1] == kinds[..i] + [kinds[i]];
    }
    assert kinds[..|kinds|] == kinds;
  }

  /** The table of dependents with a batch added to some entries. */
  function WithDependent(dependents: Graph, some: set<string>, batch: string): Graph {
    map d | d in dependents :: if d in some then dependents[d] + {batch} else dependents[d]
  }

  lemma OneMore(dependents: Graph, some: set<string>, d: string, batch: string)
    requires d in dependents && d !in some
    ensures var table := WithDependent(dependents, some, batch);
      table[d := table[d] + {batch}] == WithDependent(dependents, some + {d}, batch)
  {
  }

  method AddDependent(dependents: Graph, current: set<string>, batch: string) returns (more: Graph)
    requires current <= dependents.Keys
    ensures more == WithDependent(dependents, current, batch)
  {
    more := dependents;
    var left := current;
    assert more == WithDependent(dependents, {}, batch);
    while left != {}
      invariant left <= current && more == WithDependent(dependents, current - left, batch)
      decreases |left|
    {
      var d :| d in left;
      OneMore(dependents, current - left, d, batch);
      assert current - left + {d} == current - (left - {d});
      more := more[d := more[d] + {batch}];
      left := left - {d};
    }
    assert current - left == current;
  }

  /** Who depends on whom, among the batches seen so far. */
  function Dependents(g: Graph, seen: set<string>): Graph {
    map d | d in g :: set b | b in seen && b in g && d in g[b]
  }

  lemma DependentsOfNext(g: Graph, seen: set<string>, b: string)
    requires b in g && b !in seen && seen <= g.Keys
    ensures WithDependent(Dependents(g, seen), g[b], b) == Dependents(g, seen + {b})
  {
    var before, after := Dependents(g, seen), Dependents(g, seen + {b});
    forall d | d in g
      ensures after[d] == if d in g[b] then before[d] + {b} else before[d]
    {
    }
  }

  lemma NoDependents(g: Graph)
    ensures Dependents(g, {}) == map d | d in g :: {}
  {
    forall d | d in g
      ensures Dependents(g, {})[d] == {}
    {
    }
  }

  /** The two tables once some batches have been entered. */
  ghost predicate Entered(g: Graph, seen: set<string>, dependencies: Graph, dependents: Graph) {
    && seen <= g.Keys && dependencies.Keys == seen
    && (forall b | b in seen :: dependencies[b] == g[b])
    && dependents == Dependents(g, seen)
  }

  lemma EnterNext(g: Graph, seen: set<string>, dependencies: Graph, dependents: Graph, b: string)
    requires Entered(g, seen, dependencies, dependents) && b in g && b !in seen
    ensures Entered(g, seen + {b}, dependencies[b := g[b]], WithDependent(dependents, g[b], b))
  {
    DependentsOfNext(g, seen, b);
  }

  lemma AllEntered(g: Graph, dependencies: Graph, dependents: Graph)
    requires Entered(g, g.Keys, dependencies, dependents)
    ensures dependencies == g && dependents == Dependents(g, g.Keys)
  {
  }

  method Tabulate(batches: map<string, Record>, keys: seq<string>, kinds: seq<string>) returns (dependencies: Graph, dependents: Graph)
    requires IterationOrder(keys, batches.Keys) && HasKinds(batches, kinds)
    requires Closed(GraphOf(batches, kinds))
    ensures dependencies == GraphOf(batches, kinds)
    ensures dependents == Dependents(dependencies, dependencies.Keys)
  {
    ghost var g := GraphOf(batches, kinds);
    dependencies := map[];
    dependents := map b | b in batches :: {};
    NoDependents(g);
    assert Elements(keys[..0]) == {};
    for i := 0 to |keys|
      invariant Entered(g, Elements(keys[..i]), dependencies, dependents)
    {
      var batch := keys[i];
      NextIsNew(keys, i);
      var current := CollectDependencies(batches[batch], kinds);
      assert current == g[batch] && current <= dependents.Keys;
      EnterNext(g, Elements(keys[..i]), dependencies, dependents, batch);
      dependencies := dependencies[batch := current];
      dependents := AddDependent(dependents, current, batch);
    }
    assert keys[..|keys|] == keys;
    AllEntered(g, dependencies, dependents);
  }

  lemma NextIsNew(keys: seq<string>, i: nat)
    requires Distinct(keys) && i < |keys|
    ensures keys[i] in Elements(keys) && keys[i] !in Elements(keys[..i])
    ensures Elements(keys[..i + 1]) == Elements(keys[..i]) + {keys[i]}
  {
    ElementsOfNext(keys, i);
  }

  lemma ElementsOfNext(keys: seq<string>, i: nat)
    requires i < |keys|
    ensures Elements(keys[..i + 1]) == Elements(keys[..i]) + {keys[i]}
  {
    assert keys[..i + 1] == keys[..i] + [keys[i]];
    ElementsOfConcat(keys[..i], [keys[i]]);
    assert Elements([keys[i]]) == {keys[i]} by { assert [keys[i]][0] == keys[i]; }
  }

  /** The dependencies that are not ordered yet. */
  ghost predicate Remaining(g: Graph, dependencies: Graph, order: seq<string>) {
    dependencies.Keys == g.Keys && forall b | b in g :: dependencies[b] == g[b] - Elements(order)
  }

  /** Halfway through the dependents ds of the batch just ordered. */
  ghost predicate Releasing(g: Graph, dependencies: Graph, order: seq<string>, batch: string, ds: seq<string>, j: nat)
    requires j <= |ds|
  {
    && dependencies.Keys == g.Keys
    && forall b | b in g :: dependencies[b] == g[b] - Elements(if b in ds[j..] then order else order + [batch])
  }

  /** The dependents that the loop has passed and that were freed. */
  ghost function FreedSoFar(g: Graph, order: seq<string>, batch: string, ds: seq<string>, j: nat): set<string>
    requires j <= |ds|
  {
    set d | d in ds[..j] && d in Freed(g, order, batch)
  }

  lemma ReleasingStarts(g: Graph, dependencies: Graph, order: seq<string>, batch: string, ds: seq<string>)
    requires Remaining(g, dependencies, order) && Elements(ds) == set d | d in g && batch in g[d]
    ensures Releasing(g, dependencies, order, batch, ds, 0)
  {
    assert ds[0..] == ds;
    ElementsOfConcat(order, [batch]);
    assert Elements([batch]) == {batch} by { assert [batch][0] == batch; }
    forall b | b in g
      ensures dependencies[b] == g[b] - Elements(if b in ds then order else order + [batch])
    {
      InElements(ds, b);
    }
  }

  lemma ReleasesOne(g: Graph, dependencies: Graph, order: seq<string>, batch: string, ds: seq<string>, j: nat)
    requires j < |ds| && Releasing(g, dependencies, order, batch, ds, j) && Increasing(ds) && ds[j] in g
    ensures var less := dependencies[ds[j] := dependencies[ds[j]] - {batch}];
      && Releasing(g, less, order, batch, ds, j + 1)
      && (less[ds[j]] == {} <==> g[ds[j]] <= Elements(order + [batch]))
  {
    ElementsOfConcat(order, [batch]);
    assert Elements([batch]) == {batch} by { assert [batch][0] == batch; }
    assert ds[j..] == [ds[j]] + ds[j + 1..];
    forall k | j < k < |ds|
      ensures ds[k] != ds[j]
    {
      LessIsIrreflexive(ds[j]);
      assert Less(ds[j], ds[k]);
    }
    assert ds[j] !in ds[j + 1..];
  }

  /** What is freed by the j-th dependent comes after all that was freed before it. */
  lemma AppendsFreed(g: Graph, order: seq<string>, batch: string, ds: seq<string>, j: nat, appended: seq<string>)
    requires j < |ds| && Increasing(ds) && IsSorted(appended, FreedSoFar(g, order, batch, ds, j))
    ensures ds[j] !in appended
    ensures ds[j] in Freed(g, order, batch) ==> IsSorted(appended + [ds[j]], FreedSoFar(g, order, batch, ds, j + 1))
    ensures ds[j] !in Freed(g, order, batch) ==> FreedSoFar(g, order, batch, ds, j + 1) == FreedSoFar(g, order, batch, ds, j)
  {
    forall i | 0 <= i < |appended|
      ensures Less(appended[i], ds[j])
    {
      assert appended[i] in Elements(appended);
      var k :| 0 <= k < j && ds[k] == appended[i];
    }
    LessIsIrreflexive(ds[j]);
    Inserted(appended, ds[j], |appended|);
    assert appended[..|appended|] + [ds[j]] + appended[|appended|..] == appended + [ds[j]];
    assert ds[..j + 1] == ds[..j] + [ds[j]];
  }

  /** The inner loop: the guard against repeats never decides, since a freed batch is always new. */
  method Release(ghost g: Graph, order: seq<string>, batch: string, ds: seq<string>, before: Graph, waiting: seq<string>)
    returns (dependencies: Graph, ready: seq<string>)
    requires Sound(g, order, [batch] + waiting) && Remaining(g, before, order)
    requires IsSorted(ds, set d | d in g && batch in g[d])
    ensures Remaining(g, dependencies, order + [batch])
    ensures ready == waiting + SortedOf(Freed(g, order, batch))
  {
    dependencies, ready := before, waiting;
    ghost var appended: seq<string> := [];
    ReleasingStarts(g, before, order, batch, ds);
    assert waiting + [] == waiting;
    for j := 0 to |ds|
      invariant Releasing(g, dependencies, order, batch, ds, j)
      invariant ready == waiting + appended && IsSorted(appended, FreedSoFar(g, order, batch, ds, j))
    {
      var d := ds[j];
      assert d in Elements(ds);
      ReleasesOne(g, dependencies, order, batch, ds, j);
      AppendsFreed(g, order, batch, ds, j, appended);
      dependencies := dependencies[d := dependencies[d] - {batch}];
      if dependencies[d] == {} {
        FreedIsUnseen(g, order, batch, waiting, d);
        assert d !in order + [batch] && d !in ready;
      }
      if dependencies[d] == {} && d !in order + [batch] && d !in ready {
        ready := ready + [d];
        appended := appended + [d];
      }
    }
    assert ds[..|ds|] == ds && ds[|ds|..] == [];
    AllFreed(g, order, batch, ds);
    IsSortedOf(appended, Freed(g, order, batch));
  }

  lemma FreedIsUnseen(g: Graph, order: seq<string>, batch: string, waiting: seq<string>, d: string)
    requires Sound(g, order, [batch] + waiting) && d in Freed(g, order, batch)
    ensures d !in order + [batch] && d !in waiting
  {
    HeadIsNew(g, order, [batch] + waiting);
    FreedIsNew(g, order, [batch] + waiting, d);
    assert order + ([batch] + waiting) == (order + [batch]) + waiting;
  }

  lemma AllFreed(g: Graph, order: seq<string>, batch: string, ds: seq<string>)
    requires Elements(ds) == set d | d in g && batch in g[d]
    ensures FreedSoFar(g, order, batch, ds, |ds|) == Freed(g, order, batch)
  {
    assert ds[..|ds|] == ds;
    forall d | d in Freed(g, order, batch)
      ensures d in ds
    {
      InElements(ds, d);
    }
  }

  /** The result in declarative terms. */
  ghost function Outcome(g: Graph): Result<seq<string>, Error> {
    if |BuildOrder(g)| == |g| then Ok(BuildOrder(g)) else Err(BuildCycle(SortedOf(Stuck(g))))
  }

  lemma {:induction false} OneTurn(g: Graph, order: seq<string>, ready: seq<string>)
    requires Sound(g, order, ready) && ready != []
    ensures ready[0] in g && |order| < |g|
    ensures Sound(g, order + [ready[0]], NextReady(g, order, ready))
    ensures Kahn(g, order + [ready[0]], NextReady(g, order, ready)) == Kahn(g, order, ready)
  {
    StepIsSound(g, order, ready);
    OrderedFits(g, order, ready);
  }

  lemma DependentsOf(g: Graph, batch: string)
    requires batch in g
    ensures Dependents(g, g.Keys)[batch] == set d | d in g && batch in g[d]
  {
  }

  /** The main loop. */
  method OrderAll(ghost g: Graph, table: Graph, dependents: Graph, roots: seq<string>)
    returns (order: seq<string>, dependencies: Graph)
    requires table == g && dependents == Dependents(g, g.Keys) && roots == SortedOf(Roots(g))
    ensures order == BuildOrder(g) && Remaining(g, dependencies, order)
  {
    RootsAreSound(g);
    var ready := roots;
    order, dependencies := [], table;
    while ready != []
      invariant Sound(g, order, ready) && Kahn(g, order, ready) == BuildOrder(g)
      invariant Remaining(g, dependencies, order)
      decreases |g| - |order|
    {
      OneTurn(g, order, ready);
      var batch, waiting := ready[0], ready[1..];
      assert ready == [batch] + waiting;
      DependentsOf(g, batch);
      var ds := Sorted(dependents[batch]);
      order, dependencies, ready := Turn(g, order, batch, waiting, ds, dependencies);
    }
  }

  method Turn(ghost g: Graph, before: seq<string>, batch: string, waiting: seq<string>, ds: seq<string>, table: Graph)
    returns (order: seq<string>, dependencies: Graph, ready: seq<string>)
    requires Sound(g, before, [batch] + waiting) && Remaining(g, table, before)
    requires IsSorted(ds, set d | d in g && batch in g[d])
    ensures order == before + [batch] && Remaining(g, dependencies, order)
    ensures ready == NextReady(g, before, [batch] + waiting)
  {
    order := before + [batch];
    dependencies, ready := Release(g, before, batch, ds, table, waiting);
    assert ([batch] + waiting)[1..] == waiting;
  }

  lemma LeftOver(g: Graph, order: seq<string>, dependencies: Graph)
    requires order == BuildOrder(g) && Remaining(g, dependencies, order)
    ensures (set b | b in dependencies && dependencies[b] != {}) == Stuck(g)
  {
    OrderIsSound(g);
    forall b | b in g
      ensures dependencies[b] == {} <==> b in Elements(order)
    {
      NothingLeft(g[b], Elements(order));
    }
  }

  method TopologicalOrder(batches: map<string, Record>, keys: seq<string>, kinds: seq<string>) returns (result: Result<seq<string>, Error>)
    requires IterationOrder(keys, batches.Keys) && HasKinds(batches, kinds)
    requires Closed(GraphOf(batches, kinds))
    ensures result == Outcome(GraphOf(batches, kinds))
  {
    ghost var g := GraphOf(batches, kinds);
    var table, dependents := Tabulate(batches, keys, kinds);
    var roots := Sorted(set b | b in table && table[b] == {});
    IsSortedOf(roots, Roots(g));
    var order, dependencies := OrderAll(g, table, dependents, roots);
    LeftOver(g, order, dependencies);
    assert |g| == |g.Keys| == |batches.Keys| == |batches|;
    if |order| != |batches| {
      var members := Sorted(set b | b in dependencies && dependencies[b] != {});
      IsSortedOf(members, Stuck(g));
      return Err(BuildCycle(members));
    }
    return Ok(order);
  }

  // ---------- what the result promises ----------

  /** Every batch exactly once, each after everything it depends on; a result exactly when there is no
      cycle; and otherwise the reported members, by name, are exactly the batches from which a cycle
      can be reached, each depending on another of them. */
  lemma OutcomeMeetsItsPurpose(g: Graph)
    requires Closed(g)
    ensures Outcome(g).Ok? <==> Acyclic(g)
    ensures Outcome(g).Ok? ==> var order := Outcome(g).value;
      && Distinct(order) && Elements(order) == g.Keys
      && forall i, d | 0 <= i < |order| && d in g[order[i]] :: exists j :: 0 <= j < i && order[j] == d
    ensures Outcome(g).Err? ==> Outcome(g).error.BuildCycle? && var members := Outcome(g).error.members;
      && members != [] && Increasing(members)
      && (forall b | b in g :: b in members <==> ReachesCycle(g, b))
      && (forall b | b in members :: b in g && exists d :: d in g[b] && d in members)
  {
    CompleteIffAcyclic(g);
    OrderIsSound(g);
    NothingLeft(g.Keys, Elements(BuildOrder(g)));
    if Outcome(g).Ok? {
      var order := BuildOrder(g);
      forall i, d | 0 <= i < |order| && d in g[order[i]]
        ensures exists j :: 0 <= j < i && order[j] == d
      {
        var j := Index(order[..i], d);
        assert order[j] == d;
      }
    } else {
      ReportIsExact(g);
    }
  }

  lemma ReportIsExact(g: Graph)
    requires Closed(g) && Stuck(g) != {}
    ensures var members := SortedOf(Stuck(g));
      && members != []
      && (forall b | b in g :: b in members <==> ReachesCycle(g, b))
      && (forall b | b in members :: b in g && exists d :: d in g[b] && d in members)
  {
    var members := SortedOf(Stuck(g));
    EmptyElements(members);
    forall b | b in g
      ensures b in members <==> ReachesCycle(g, b)
    {
      InElements(members, b);
      StuckIffReachesCycle(g, b);
    }
    forall b | b in members
      ensures b in g && exists d :: d in g[b] && d in members
    {
      InElements(members, b);
      StuckDependsOnStuck(g, b);
      var d :| d in g[b] && d in Stuck(g);
      InElements(members, d);
    }
  }

  // ---------- the validated graph ----------

  /** A list of a batch names other batches of the graph, none twice. */
  predicate ListValid(batches: map<string, Record>, b: string, kind: string) {
    && b in batches && kind in batches[b]
    && Distinct(batches[b][kind])
    && forall r | r in batches[b][kind] :: r in batches && r != b
  }

  predicate EdgesValid(batches: map<string, Record>, b: string) {
    forall kind | kind in EDGE_KINDS :: ListValid(batches, b, kind)
  }

  /** The first list of the batch that is not valid. */
  ghost predicate FirstInvalid(batches: map<string, Record>, b: string, kind: string) {
    exists i :: 0 <= i < |EDGE_KINDS| && EDGE_KINDS[i] == kind && !ListValid(batches, b, kind)
                && forall j | 0 <= j < i :: ListValid(batches, b, EDGE_KINDS[j])
  }

  method CheckEdges(batches: map<string, Record>, b: string) returns (invalid: Option<Error>)
    requires b in batches && HasKinds(batches, EDGE_KINDS)
    ensures invalid.None? <==> EdgesValid(batches, b)
    ensures invalid.Some? ==> invalid.value.EdgeInvalid? && invalid.value.batch == b && FirstInvalid(batches, b, invalid.value.kind)
  {
    for i := 0 to |EDGE_KINDS|
      invariant forall j | 0 <= j < i :: ListValid(batches, b, EDGE_KINDS[j])
    {
      var kind := EDGE_KINDS[i];
      assert kind in EDGE_KINDS;
      if !Distinct(batches[b][kind]) || exists r | r in batches[b][kind] :: r !in batches || r == b {
        assert !ListValid(batches, b, kind);
        return Some(EdgeInvalid(b, kind));
      }
    }
    return None;
  }

  lemma ValidIsClosed(batches: map<string, Record>)
    requires HasKinds(batches, EDGE_KINDS) && forall b | b in batches :: EdgesValid(batches, b)
    ensures HasKinds(batches, BUILD_KINDS) && Closed(GraphOf(batches, BUILD_KINDS))
  {
    assert forall k | k in BUILD_KINDS :: k in EDGE_KINDS;
    forall b, k, r | b in batches && k in BUILD_KINDS && r in batches[b][k]
      ensures r in batches
    {
      assert ListValid(batches, b, k);
    }
  }

  /** The part of `validate_dag` that concerns the graph. */
  method ValidateGraph(batches: map<string, Record>, keys: seq<string>) returns (result: Result<seq<string>, Error>)
    requires IterationOrder(keys, batches.Keys) && HasKinds(batches, EDGE_KINDS)
    ensures result.Err? && result.error.EdgeInvalid? <==> exists b :: b in batches && !EdgesValid(batches, b)
    ensures result.Err? && result.error.EdgeInvalid? ==>
      && FirstInvalid(batches, result.error.batch, result.error.kind)
      && exists i :: 0 <= i < |keys| && keys[i] == result.error.batch && forall j | 0 <= j < i :: EdgesValid(batches, keys[j])
    ensures (forall b | b in batches :: EdgesValid(batches, b)) ==>
      && HasKinds(batches, BUILD_KINDS) && Closed(GraphOf(batches, BUILD_KINDS))
      && result == Outcome(GraphOf(batches, BUILD_KINDS))
  {
    for i := 0 to |keys|
      invariant forall j | 0 <= j < i :: keys[j] in batches && EdgesValid(batches, keys[j])
    {
      assert keys[i] in Elements(keys);
      var invalid := CheckEdges(batches, keys[i]);
      if invalid.Some? {
        return Err(invalid.value);
      }
    }
    forall b | b in batches
      ensures EdgesValid(batches, b)
    {
      var i := Index(keys, b);
    }
    ValidIsClosed(batches);
    result := TopologicalOrder(batches, keys, BUILD_KINDS);
  }
}
