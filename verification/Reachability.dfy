/** `reachable_package_ids` of `generate-release-sbom.py`: the packages that a release's software bill of materials
    lists. */
module Reachability {

  datatype Package = Package(id: string, dependencies: seq<string>)

  /** Dependencies by id; the last package with an id counts. */
  function Graph(nodes: seq<Package>): map<string, seq<string>> {
    if nodes == [] then map[]
    else Graph(nodes[..|nodes| - 1])[nodes[|nodes| - 1].id := nodes[|nodes| - 1].dependencies]
  }

  /** An id that no package has depends on nothing. */
  function DependenciesOf(graph: map<string, seq<string>>, id: string): seq<string> {
    if id in graph then graph[id] else []
  }

  /** A chain of dependencies. */
  predicate Chain(graph: map<string, seq<string>>, ids: seq<string>) {
    ids != [] && forall i :: 0 <= i < |ids| - 1 ==> ids[i + 1] in DependenciesOf(graph, ids[i])
  }

  ghost predicate Reachable(graph: map<string, seq<string>>, root: string, id: string) {
    exists ids :: Chain(graph, ids) && ids[0] == root && ids[|ids| - 1] == id
  }

  lemma {:induction false} RootIsReachable(graph: map<string, seq<string>>, root: string)
    ensures Reachable(graph, root, root)
  {
    assert Chain(graph, [root]);
  }

  lemma {:induction false} DependencyIsReachable(
    graph: map<string, seq<string>>, root: string, id: string, dependency: string)
    requires Reachable(graph, root, id) && dependency in DependenciesOf(graph, id)
    ensures Reachable(graph, root, dependency)
  {
    var ids :| Chain(graph, ids) && ids[0] == root && ids[|ids| - 1] == id;
    assert Chain(graph, ids + [dependency]);
  }

  /** A set that holds the first id of a chain and all dependencies of its members holds the last. */
  lemma {:induction false} ClosedHoldsChain(graph: map<string, seq<string>>, closed: set<string>, ids: seq<string>)
    requires Chain(graph, ids) && ids[0] in closed
    requires forall x, y :: x in closed && y in DependenciesOf(graph, x) ==> y in closed
    ensures ids[|ids| - 1] in closed
    decreases |ids|
  {
    if |ids| > 1 {
      var init := ids[..|ids| - 1];
      ClosedHoldsChain(graph, closed, init);
      assert ids[|ids| - 2 + 1] in DependenciesOf(graph, ids[|ids| - 2]);
    }
  }

  /** Every id that is named anywhere. */
  function Named(graph: map<string, seq<string>>, root: string): set<string> {
    {root} + set id, dependency | id in graph && dependency in graph[id] :: dependency
  }

  method DependencyTable(nodes: seq<Package>) returns (graph: map<string, seq<string>>)
    ensures graph == Graph(nodes)
  {
    graph := map[];
    for i := 0 to |nodes|
      invariant graph == Graph(nodes[..i])
    {
      assert nodes[..i + 1][..i] == nodes[..i];
      graph := graph[nodes[i].id := nodes[i].dependencies];
    }
    assert nodes[..|nodes|] == nodes;
  }

  /** The search: the root and the dependencies of what has been reached are reached or pending, and nothing else is. */
  ghost predicate Searching(graph: map<string, seq<string>>, root: string, reached: set<string>, pending: seq<string>) {
    && (root in reached || root in pending)
    && (forall x, y :: x in reached && y in DependenciesOf(graph, x) ==> y in reached || y in pending)
    && (forall x :: x in reached || x in pending ==> Reachable(graph, root, x) && x in Named(graph, root))
  }

  lemma {:induction false} AlreadyReached(
    graph: map<string, seq<string>>, root: string, reached: set<string>, rest: seq<string>, id: string)
    requires Searching(graph, root, reached, rest + [id]) && id in reached
    ensures Searching(graph, root, reached, rest)
  {
    hide Reachable;
    hide Named;
    hide DependenciesOf;
    assert forall x :: x in rest + [id] <==> x in rest || x == id;
  }

  lemma {:induction false} NewlyReached(
    graph: map<string, seq<string>>, root: string, reached: set<string>, rest: seq<string>, id: string)
    requires Searching(graph, root, reached, rest + [id])
    ensures Searching(graph, root, reached + {id}, rest + DependenciesOf(graph, id))
  {
    assert forall x :: x in rest + [id] <==> x in rest || x == id;
    assert forall x :: x in rest + DependenciesOf(graph, id) <==> x in rest || x in DependenciesOf(graph, id);
    assert Reachable(graph, root, id);
    forall y | y in DependenciesOf(graph, id) ensures Reachable(graph, root, y) && y in Named(graph, root) {
      DependencyIsReachable(graph, root, id, y);
    }
    hide Reachable;
    hide Named;
    hide DependenciesOf;
  }

  lemma {:induction false} SearchDone(graph: map<string, seq<string>>, root: string, reached: set<string>)
    requires Searching(graph, root, reached, [])
    ensures forall id :: id in reached <==> Reachable(graph, root, id)
  {
    forall id | Reachable(graph, root, id) ensures id in reached {
      var ids :| Chain(graph, ids) && ids[0] == root && ids[|ids| - 1] == id;
      ClosedHoldsChain(graph, reached, ids);
    }
  }

  /** The last package with this id names that dependency. */
  predicate DependsOn(nodes: seq<Package>, id: string, dependency: string) {
    exists i :: 0 <= i < |nodes| && LastWith(nodes, id, i) && dependency in nodes[i].dependencies
  }

  predicate LastWith(nodes: seq<Package>, id: string, i: nat)
    requires i < |nodes|
  {
    nodes[i].id == id && forall j :: i < j < |nodes| ==> nodes[j].id != id
  }

  /** Some chain of packages leads from the root to the id. */
  ghost predicate Leads(nodes: seq<Package>, root: string, id: string) {
    exists ids :: Links(nodes, ids) && ids[0] == root && ids[|ids| - 1] == id
  }

  predicate Links(nodes: seq<Package>, ids: seq<string>) {
    ids != [] && forall i :: 0 <= i < |ids| - 1 ==> DependsOn(nodes, ids[i], ids[i + 1])
  }

  lemma {:induction false} DependsOnIff(nodes: seq<Package>, id: string)
    ensures forall dependency ::
              dependency in DependenciesOf(Graph(nodes), id) <==> DependsOn(nodes, id, dependency)
  {
    if nodes != [] {
      var n := |nodes| - 1;
      var before := nodes[..n];
      DependsOnIff(before, id);
      forall dependency
        ensures dependency in DependenciesOf(Graph(nodes), id) <==> DependsOn(nodes, id, dependency)
      {
        if nodes[n].id == id {
          assert LastWith(nodes, id, n);
        } else {
          forall i | 0 <= i < n
            ensures LastWith(before, id, i) <==> LastWith(nodes, id, i)
          {
            assert forall j :: 0 <= j < n ==> before[j] == nodes[j];
          }
          if DependsOn(before, id, dependency) {
            var i :| 0 <= i < n && LastWith(before, id, i) && dependency in before[i].dependencies;
            assert LastWith(nodes, id, i);
          }
          if DependsOn(nodes, id, dependency) {
            var i :| 0 <= i < n + 1 && LastWith(nodes, id, i) && dependency in nodes[i].dependencies;
            assert LastWith(before, id, i);
          }
        }
      }
    }
  }

  lemma {:induction false} LeadsIff(nodes: seq<Package>, root: string, id: string)
    ensures Reachable(Graph(nodes), root, id) <==> Leads(nodes, root, id)
  {
    var graph := Graph(nodes);
    hide Graph;
    hide DependenciesOf;
    hide DependsOn;
    forall ids
      ensures Chain(graph, ids) <==> Links(nodes, ids)
    {
      forall i | 0 <= i < |ids| - 1
        ensures ids[i + 1] in DependenciesOf(graph, ids[i]) <==> DependsOn(nodes, ids[i], ids[i + 1])
      {
        DependsOnIff(nodes, ids[i]);
      }
    }
  }

  /** Exactly the ids to which some chain of packages leads from the root, on any graph: with cycles, with dependencies
      that are not there, with an unknown root, with an id given twice. */
  method ReachablePackageIds(root: string, nodes: seq<Package>) returns (reachable: set<string>)
    ensures forall id :: id in reachable <==> Leads(nodes, root, id)
  {
    var graph := DependencyTable(nodes);
    reachable := {};
    var pending := [root];
    RootIsReachable(graph, root);
    while pending != []
      invariant Searching(graph, root, reachable, pending)
      decreases |Named(graph, root) - reachable|, |pending|
    {
      var id := pending[|pending| - 1];
      ghost var rest := pending[..|pending| - 1];
      assert pending == rest + [id];
      pending := pending[..|pending| - 1];
      if id in reachable {
        AlreadyReached(graph, root, reachable, rest, id);
      } else {
        NewlyReached(graph, root, reachable, rest, id);
        NamedShrinks(Named(graph, root), reachable, id);
        reachable := reachable + {id};
        pending := pending + DependenciesOf(graph, id);
      }
    }
    SearchDone(graph, root, reachable);
    forall id
      ensures id in reachable <==> Leads(nodes, root, id)
    {
      LeadsIff(nodes, root, id);
    }
  }

  lemma {:induction false} NamedShrinks(named: set<string>, reachable: set<string>, id: string)
    requires id in named && id !in reachable
    ensures |named - (reachable + {id})| < |named - reachable|
  {
    assert named - reachable == (named - (reachable + {id})) + {id};
  }
}
