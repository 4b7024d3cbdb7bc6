/** Execution order of plugins: Kahn's algorithm over an in-degree map and a work queue. */
module DependencyResolver {
  import opened Digraph

  datatype Node = Node(name: string, dependencies: seq<string>)

  datatype Result = Ordered(order: seq<string>) | CircularDependency

  // ---------------------------------------------------------------- graph vocabulary

  ghost predicate Declared(nodes: seq<Node>, x: string) {
    exists i :: 0 <= i < |nodes| && nodes[i].name == x
  }

  ghost predicate DependsOn(nodes: seq<Node>, x: string, d: string) {
    exists i :: 0 <= i < |nodes| && nodes[i].name == x && d in nodes[i].dependencies
  }

  ghost predicate HasUndeclaredDependency(nodes: seq<Node>) {
    exists x, d :: DependsOn(nodes, x, d) && !Declared(nodes, d)
  }

  /** The pairs (dependant, dependency). */
  ghost function Dependencies(nodes: seq<Node>): iset<(string, string)> {
    iset p: (string, string) | DependsOn(nodes, p.0, p.1)
  }

  /** Every declared name exactly once, and each dependency strictly before its dependant. */
  ghost predicate IsExecutionOrder(nodes: seq<Node>, order: seq<string>) {
    && NoDuplicates(order)
    && (forall x :: x in order <==> Declared(nodes, x))
    && SuccessorsFirst(Dependencies(nodes), order)
  }

  // ---------------------------------------------------------------- dependency occurrences

  /** One pair (dependant, dependency) per occurrence, in declaration order. */
  function Occurrences(name: string, deps: seq<string>): seq<(string, string)> {
    if deps == [] then []
    else Occurrences(name, deps[..|deps| - 1]) + [(name, deps[|deps| - 1])]
  }

  function AllOccurrences(nodes: seq<Node>): seq<(string, string)> {
    if nodes == [] then []
    else AllOccurrences(nodes[..|nodes| - 1]) + Occurrences(nodes[|nodes| - 1].name, nodes[|nodes| - 1].dependencies)
  }

  /** Dependants recorded under `dep`, one entry per occurrence. */
  function Dependants(e: seq<(string, string)>, dep: string): seq<string> {
    if e == [] then []
    else Dependants(e[..|e| - 1], dep) + (if e[|e| - 1].1 == dep then [e[|e| - 1].0] else [])
  }

  /** Occurrences of x's dependencies that are not among the processed names. */
  function Pending(e: seq<(string, string)>, x: string, processed: set<string>): nat {
    if e == [] then 0
    else
      Pending(e[..|e| - 1], x, processed)
      + (if e[|e| - 1].0 == x && e[|e| - 1].1 !in processed then 1 else 0)
  }

  lemma {:induction false} OccurrencesOfOne(name: string, deps: seq<string>, x: string, d: string)
    ensures (x, d) in Occurrences(name, deps) <==> x == name && d in deps
  {
    if deps != [] {
      var init, last := deps[..|deps| - 1], deps[|deps| - 1];
      OccurrencesOfOne(name, init, x, d);
      assert deps == init + [last];
    }
  }

  lemma DependsOnOneMore(init: seq<Node>, last: Node, x: string, d: string)
    ensures DependsOn(init + [last], x, d) <==> DependsOn(init, x, d) || (x == last.name && d in last.dependencies)
  {
    var nodes := init + [last];
    assert nodes[|init|] == last;
    if i :| 0 <= i < |nodes| && nodes[i].name == x && d in nodes[i].dependencies {
      assert i < |init| ==> init[i].name == x && d in init[i].dependencies;
    }
    if i :| 0 <= i < |init| && init[i].name == x && d in init[i].dependencies {
      assert nodes[i].name == x && d in nodes[i].dependencies;
    }
  }

  lemma {:induction false} OccurrenceIsDependency(nodes: seq<Node>, x: string, d: string)
    ensures (x, d) in AllOccurrences(nodes) <==> DependsOn(nodes, x, d)
  {
    if nodes != [] {
      var init, last := nodes[..|nodes| - 1], nodes[|nodes| - 1];
      OccurrenceIsDependency(init, x, d);
      OccurrencesOfOne(last.name, last.dependencies, x, d);
      DependsOnOneMore(init, last, x, d);
      assert nodes == init + [last];
    }
  }

  lemma {:induction false} PendingZero(e: seq<(string, string)>, x: string, processed: set<string>)
    ensures Pending(e, x, processed) == 0 <==> forall d :: (x, d) in e ==> d in processed
  {
    if e != [] {
      var init, last := e[..|e| - 1], e[|e| - 1];
      PendingZero(init, x, processed);
      assert e == init + [last];
      assert forall d :: (x, d) in e <==> (x, d) in init || (x, d) == last;
    }
  }

  /** Processing c removes exactly its recorded dependants from the pending counts. */
  lemma {:induction false} PendingStep(e: seq<(string, string)>, x: string, processed: set<string>, c: string)
    requires c !in processed
    ensures Pending(e, x, processed) == Pending(e, x, processed + {c}) + multiset(Dependants(e, c))[x]
  {
    if e != [] {
      PendingStep(e[..|e| - 1], x, processed, c);
    }
  }

  lemma {:induction false} DependantsAreRecorded(e: seq<(string, string)>, d: string, x: string)
    ensures x in Dependants(e, d) <==> (x, d) in e
  {
    if e != [] {
      var init, last := e[..|e| - 1], e[|e| - 1];
      DependantsAreRecorded(init, d, x);
      assert e == init + [last];
    }
  }

  /** An execution order exists only for acyclic graphs whose dependencies are all declared. */
  lemma OrderRulesOutErrors(nodes: seq<Node>, order: seq<string>)
    requires IsExecutionOrder(nodes, order)
    ensures !HasCycle(Dependencies(nodes)) && !HasUndeclaredDependency(nodes)
  {
    forall x, d | DependsOn(nodes, x, d) ensures x in order && Declared(nodes, d) {
      assert (x, d) in Dependencies(nodes);
      assert Declared(nodes, x);
      var j :| 0 <= j < |order| && order[j] == x;
      assert d in order[..j];
    }
    OrderRulesOutCycles(Dependencies(nodes), order);
  }

  // ---------------------------------------------------------------- the resolver

  function Lookup(graph: map<string, seq<string>>, d: string): seq<string> {
    if d in graph then graph[d] else []
  }

  /** The two maps describe exactly the occurrences e. */
  ghost predicate Recorded(e: seq<(string, string)>, inDegree: map<string, int>, graph: map<string, seq<string>>) {
    && (forall x, d :: (x, d) in e ==> x in inDegree)
    && (forall x :: x in inDegree ==> inDegree[x] == Pending(e, x, {}))
    && (forall d :: Lookup(graph, d) == Dependants(e, d))
  }

  /** `released` dependants of the name being processed have been counted down so far. */
  ghost predicate CountsAgree(e: seq<(string, string)>, inDegree: map<string, int>, processed: set<string>,
                              released: seq<string>) {
    forall x :: x in inDegree ==> inDegree[x] == Pending(e, x, processed) - multiset(released)[x]
  }

  /** The names output or queued are exactly those with nothing pending, each once. */
  ghost predicate Frontier(inDegree: map<string, int>, order: seq<string>, queue: seq<string>) {
    && NoDuplicates(order + queue)
    && (forall x :: x in order + queue <==> x in inDegree && inDegree[x] == 0)
  }

  ghost predicate PrefixOrdered(e: seq<(string, string)>, order: seq<string>) {
    SuccessorsFirst((iset p | p in e), order)
  }

  lemma RecordName(e: seq<(string, string)>, inDegree: map<string, int>, graph: map<string, seq<string>>, name: string)
    requires Recorded(e, inDegree, graph) && name !in inDegree
    ensures Recorded(e, inDegree[name := 0], graph)
  {
    PendingZero(e, name, {});
  }

  lemma RecordOccurrence(e: seq<(string, string)>, inDegree: map<string, int>, graph: map<string, seq<string>>,
                         name: string, dep: string)
    requires Recorded(e, inDegree, graph) && name in inDegree
    ensures Recorded(e + [(name, dep)], inDegree[name := inDegree[name] + 1], graph[dep := Lookup(graph, dep) + [name]])
  {
    var e1 := e + [(name, dep)];
    assert e1[..|e1| - 1] == e;
    var g1 := graph[dep := Lookup(graph, dep) + [name]];
    forall d ensures Lookup(g1, d) == Dependants(e1, d) {
      assert Lookup(graph, d) == Dependants(e, d);
    }
    forall x, d | (x, d) in e1 ensures x in inDegree {
      assert (x, d) in e || (x, d) == (name, dep);
    }
  }

  lemma RecordNext(e0: seq<(string, string)>, n: Node, k: nat, inDegree: map<string, int>,
                   graph: map<string, seq<string>>)
    requires k < |n.dependencies| && n.name in inDegree
    requires Recorded(e0 + Occurrences(n.name, n.dependencies[..k]), inDegree, graph)
    ensures var dep := n.dependencies[k];
      Recorded(e0 + Occurrences(n.name, n.dependencies[..k + 1]), inDegree[n.name := inDegree[n.name] + 1],
               graph[dep := Lookup(graph, dep) + [n.name]])
  {
    OneMoreOccurrence(e0, n, k);
    RecordOccurrence(e0 + Occurrences(n.name, n.dependencies[..k]), inDegree, graph, n.name, n.dependencies[k]);
  }

  method RecordNode(n: Node, inDegree0: map<string, int>, graph0: map<string, seq<string>>,
                    ghost e0: seq<(string, string)>)
    returns (inDegree: map<string, int>, graph: map<string, seq<string>>)
    requires Recorded(e0, inDegree0, graph0)
    ensures Recorded(e0 + Occurrences(n.name, n.dependencies), inDegree, graph)
    ensures inDegree.Keys == inDegree0.Keys + {n.name}
  {
    inDegree, graph := inDegree0, graph0;
    if n.name !in inDegree {
      RecordName(e0, inDegree, graph, n.name);
      inDegree := inDegree[n.name := 0];
    }
    assert e0 + Occurrences(n.name, n.dependencies[..0]) == e0;
    for k := 0 to |n.dependencies|
      invariant Recorded(e0 + Occurrences(n.name, n.dependencies[..k]), inDegree, graph)
      invariant inDegree.Keys == inDegree0.Keys + {n.name}
    {
      var dep := n.dependencies[k];
      RecordNext(e0, n, k, inDegree, graph);
      graph := graph[dep := Lookup(graph, dep) + [n.name]];
      inDegree := inDegree[n.name := inDegree[n.name] + 1];
    }
    assert n.dependencies[..|n.dependencies|] == n.dependencies;
  }

  lemma OneMoreOccurrence(e0: seq<(string, string)>, n: Node, k: nat)
    requires k < |n.dependencies|
    ensures e0 + Occurrences(n.name, n.dependencies[..k + 1])
         == e0 + Occurrences(n.name, n.dependencies[..k]) + [(n.name, n.dependencies[k])]
  {
    assert n.dependencies[..k + 1][..k] == n.dependencies[..k];
  }

  lemma DeclaredStep(nodes: seq<Node>, i: nat, x: string)
    requires i < |nodes|
    ensures Declared(nodes[..i + 1], x) <==> Declared(nodes[..i], x) || x == nodes[i].name
  {
    var longer, shorter := nodes[..i + 1], nodes[..i];
    assert longer == shorter + [nodes[i]];
    if Declared(shorter, x) {
      var q :| 0 <= q < |shorter| && shorter[q].name == x;
      assert longer[q].name == x;
    }
    assert longer[i].name == nodes[i].name;
  }

  method BuildGraph(nodes: seq<Node>) returns (inDegree: map<string, int>, graph: map<string, seq<string>>)
    ensures forall x :: x in inDegree <==> Declared(nodes, x)
    ensures Recorded(AllOccurrences(nodes), inDegree, graph)
  {
    inDegree, graph := map[], map[];
    for i := 0 to |nodes|
      invariant forall x :: x in inDegree <==> Declared(nodes[..i], x)
      invariant Recorded(AllOccurrences(nodes[..i]), inDegree, graph)
    {
      forall x ensures Declared(nodes[..i + 1], x) <==> Declared(nodes[..i], x) || x == nodes[i].name {
        DeclaredStep(nodes, i, x);
      }
      assert nodes[..i + 1][..i] == nodes[..i];
      inDegree, graph := RecordNode(nodes[i], inDegree, graph, AllOccurrences(nodes[..i]));
    }
    assert nodes[..|nodes|] == nodes;
  }

  /** Names without dependencies, in whatever order the map yields them. */
  method InitialQueue(inDegree: map<string, int>) returns (queue: seq<string>)
    ensures Frontier(inDegree, [], queue)
  {
    queue := [];
    var left := inDegree.Keys;
    while left != {}
      invariant left <= inDegree.Keys
      invariant NoDuplicates(queue)
      invariant forall x :: x in queue <==> x in inDegree.Keys - left && inDegree[x] == 0
    {
      var name :| name in left;
      if inDegree[name] == 0 {
        queue := queue + [name];
      }
      left := left - {name};
    }
    assert [] + queue == queue;
  }

  /** A dependant that is still to be released has something pending. */
  lemma NextDependant(e: seq<(string, string)>, inDegree: map<string, int>, processed: set<string>, curr: string,
                      k: nat)
    requires curr !in processed && k < |Dependants(e, curr)|
    requires forall x, d :: (x, d) in e ==> x in inDegree
    requires CountsAgree(e, inDegree, processed, Dependants(e, curr)[..k])
    ensures Dependants(e, curr)[k] in inDegree && inDegree[Dependants(e, curr)[k]] > 0
  {
    var s := Dependants(e, curr);
    var x := s[k];
    DependantsAreRecorded(e, curr, x);
    PendingStep(e, x, processed, curr);
    assert s == s[..k] + s[k..] && x in s[k..];
    assert multiset(s)[x] == multiset(s[..k])[x] + multiset(s[k..])[x];
  }

  lemma CountDown(e: seq<(string, string)>, inDegree: map<string, int>, processed: set<string>, released: seq<string>,
                  x: string)
    requires CountsAgree(e, inDegree, processed, released) && x in inDegree
    ensures CountsAgree(e, inDegree[x := inDegree[x] - 1], processed, released + [x])
  {
  }

  lemma ReleasedAll(e: seq<(string, string)>, inDegree: map<string, int>, processed: set<string>, curr: string)
    requires curr !in processed && CountsAgree(e, inDegree, processed, Dependants(e, curr))
    ensures CountsAgree(e, inDegree, processed + {curr}, [])
  {
    forall x | x in inDegree ensures inDegree[x] == Pending(e, x, processed + {curr}) {
      PendingStep(e, x, processed, curr);
    }
  }

  lemma JoinQueue(inDegree: map<string, int>, order: seq<string>, queue: seq<string>, x: string)
    requires Frontier(inDegree, order, queue) && x in inDegree && inDegree[x] > 0
    ensures inDegree[x] == 1 ==> Frontier(inDegree[x := 0], order, queue + [x])
    ensures inDegree[x] > 1 ==> Frontier(inDegree[x := inDegree[x] - 1], order, queue)
  {
    assert x !in order + queue;
    assert order + (queue + [x]) == (order + queue) + [x];
  }

  /** Releasing a dependant counts it down. */
  lemma ReleaseOne(e: seq<(string, string)>, inDegree: map<string, int>, processed: set<string>, curr: string, k: nat)
    requires curr !in processed && k < |Dependants(e, curr)|
    requires forall x, d :: (x, d) in e ==> x in inDegree
    requires CountsAgree(e, inDegree, processed, Dependants(e, curr)[..k])
    ensures var x := Dependants(e, curr)[k];
      && x in inDegree && inDegree[x] > 0
      && CountsAgree(e, inDegree[x := inDegree[x] - 1], processed, Dependants(e, curr)[..k + 1])
  {
    var s := Dependants(e, curr);
    NextDependant(e, inDegree, processed, curr, k);
    CountDown(e, inDegree, processed, s[..k], s[k]);
    assert s[..k + 1] == s[..k] + [s[k]];
  }

  /** Releases the dependants of `curr`: each occurrence lowers one in-degree, and names reaching 0 join the queue. */
  method Release(ghost e: seq<(string, string)>, inDegree0: map<string, int>, dependants: seq<string>,
                 ghost order: seq<string>, queue0: seq<string>, ghost processed: set<string>, ghost curr: string)
    returns (inDegree: map<string, int>, queue: seq<string>)
    requires forall x, d :: (x, d) in e ==> x in inDegree0
    requires curr !in processed && dependants == Dependants(e, curr)
    requires CountsAgree(e, inDegree0, processed, []) && Frontier(inDegree0, order, queue0)
    ensures inDegree.Keys == inDegree0.Keys
    ensures CountsAgree(e, inDegree, processed + {curr}, []) && Frontier(inDegree, order, queue)
  {
    inDegree, queue := inDegree0, queue0;
    for k := 0 to |dependants|
      invariant inDegree.Keys == inDegree0.Keys
      invariant CountsAgree(e, inDegree, processed, dependants[..k]) && Frontier(inDegree, order, queue)
    {
      var neighbor := dependants[k];
      ReleaseOne(e, inDegree, processed, curr, k);
      JoinQueue(inDegree, order, queue, neighbor);
      inDegree := inDegree[neighbor := inDegree[neighbor] - 1];
      if inDegree[neighbor] == 0 {
        queue := queue + [neighbor];
      }
    }
    assert dependants[..|dependants|] == dependants;
    ReleasedAll(e, inDegree, processed, curr);
  }

  function Names(s: seq<string>): (r: set<string>)
    ensures forall x :: x in r <==> x in s
  {
    set x | x in s
  }

  /** The front of the queue goes next: all its dependencies are already in the order. */
  lemma TakeNext(e: seq<(string, string)>, inDegree: map<string, int>, order: seq<string>, queue: seq<string>)
    requires |queue| > 0 && PrefixOrdered(e, order)
    requires CountsAgree(e, inDegree, Names(order), []) && Frontier(inDegree, order, queue)
    ensures queue[0] in inDegree && queue[0] !in order
    ensures PrefixOrdered(e, order + [queue[0]]) && Frontier(inDegree, order + [queue[0]], queue[1..])
  {
    var curr := queue[0];
    assert (order + queue)[|order|] == curr;
    forall i | 0 <= i < |order| ensures order[i] != curr { assert (order + queue)[i] == order[i]; }
    PendingZero(e, curr, Names(order));
    assert (order + [curr]) + queue[1..] == order + queue;
    forall j, d | 0 <= j < |order| + 1 && ((order + [curr])[j], d) in e ensures d in (order + [curr])[..j] {
      assert (order + [curr])[..j] == order[..j];
    }
  }

  /** With an empty queue, whatever is not in the order waits for a name that is not in the order. */
  lemma LeftoverIsStuck(nodes: seq<Node>, inDegree: map<string, int>, order: seq<string>)
    requires forall x :: x in inDegree <==> Declared(nodes, x)
    requires CountsAgree(AllOccurrences(nodes), inDegree, Names(order), []) && Frontier(inDegree, order, [])
    requires !HasUndeclaredDependency(nodes)
    ensures Stuck(Dependencies(nodes), inDegree.Keys - Names(order))
  {
    assert order + [] == order;
    var e, rest := AllOccurrences(nodes), inDegree.Keys - Names(order);
    forall x | x in rest ensures HasSuccessorIn(Dependencies(nodes), rest, x) {
      PendingZero(e, x, Names(order));
      var d :| (x, d) in e && d !in order;
      OccurrenceIsDependency(nodes, x, d);
      assert (x, d) in Dependencies(nodes) && Declared(nodes, d);
    }
  }

  lemma SameRelation(nodes: seq<Node>, order: seq<string>)
    requires PrefixOrdered(AllOccurrences(nodes), order)
    ensures SuccessorsFirst(Dependencies(nodes), order)
  {
    forall j, d | 0 <= j < |order| && (order[j], d) in Dependencies(nodes) ensures d in order[..j] {
      OccurrenceIsDependency(nodes, order[j], d);
    }
  }

  method ResolveExecutionOrder(nodes: seq<Node>) returns (r: Result)
    ensures r.CircularDependency? <==> HasCycle(Dependencies(nodes)) || HasUndeclaredDependency(nodes)
    ensures r.Ordered? ==> IsExecutionOrder(nodes, r.order)
  {
    var inDegree, graph := BuildGraph(nodes);
    ghost var e := AllOccurrences(nodes);
    var queue := InitialQueue(inDegree);
    var order: seq<string> := [];
    assert CountsAgree(e, inDegree, Names(order), []) by { assert Names([]) == {}; }
    while |queue| > 0
      invariant forall x :: x in inDegree <==> Declared(nodes, x)
      invariant forall x, d :: (x, d) in e ==> x in inDegree
      invariant forall d :: Lookup(graph, d) == Dependants(e, d)
      invariant CountsAgree(e, inDegree, Names(order), []) && Frontier(inDegree, order, queue)
      invariant PrefixOrdered(e, order)
      decreases inDegree.Keys - Names(order)
    {
      var curr := queue[0];
      TakeNext(e, inDegree, order, queue);
      assert Names(order) + {curr} == Names(order + [curr]);
      ghost var processed := Names(order);
      queue := queue[1..];
      order := order + [curr];
      inDegree, queue := Release(e, inDegree, Lookup(graph, curr), order, queue, processed, curr);
    }
    assert queue == [];
    Outcome(nodes, inDegree, order);
    r := if |order| != |inDegree| then CircularDependency else Ordered(order);
  }

  /** What the length comparison at the end decides. */
  lemma Outcome(nodes: seq<Node>, inDegree: map<string, int>, order: seq<string>)
    requires forall x :: x in inDegree <==> Declared(nodes, x)
    requires CountsAgree(AllOccurrences(nodes), inDegree, Names(order), []) && Frontier(inDegree, order, [])
    requires PrefixOrdered(AllOccurrences(nodes), order)
    ensures |order| == |inDegree| ==> IsExecutionOrder(nodes, order)
    ensures |order| != |inDegree| <==> HasCycle(Dependencies(nodes)) || HasUndeclaredDependency(nodes)
  {
    assert order + [] == order;
    DistinctLength(order, inDegree.Keys);
    if |order| != |inDegree| {
      var rest := inDegree.Keys - Names(order);
      if rest == {} {
        assert forall x :: x in inDegree.Keys && x !in Names(order) ==> x in rest;
        assert Names(order) == inDegree.Keys;
        CoversAll(order, inDegree.Keys);
        assert false;
      }
      if !HasUndeclaredDependency(nodes) {
        LeftoverIsStuck(nodes, inDegree, order);
        StuckSetHasCycle(Dependencies(nodes), rest);
      }
    } else {
      SameRelation(nodes, order);
      OrderRulesOutErrors(nodes, order);
    }
  }

  lemma {:induction false} CoversAll(s: seq<string>, dom: set<string>)
    requires NoDuplicates(s) && Names(s) == dom
    ensures |s| == |dom|
  {
    if s != [] {
      var init, last := s[..|s| - 1], s[|s| - 1];
      assert s == init + [last];
      CoversAll(init, dom - {last});
    }
  }
}
