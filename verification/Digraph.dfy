/** Walks and cycles in a directed graph given as a set of pairs. */
module Digraph {

  predicate NoDuplicates<T(==)>(s: seq<T>) {
    forall i, j :: 0 <= i < j < |s| ==> s[i] != s[j]
  }

  ghost predicate WalkStep<T>(g: iset<(T, T)>, p: seq<T>, i: int)
    requires 0 <= i < |p| - 1
  {
    (p[i], p[i + 1]) in g
  }

  ghost predicate Walk<T>(g: iset<(T, T)>, p: seq<T>) {
    forall i :: 0 <= i < |p| - 1 ==> WalkStep(g, p, i)
  }

  ghost predicate HasCycle<T(!new)>(g: iset<(T, T)>) {
    exists p :: Walk(g, p) && |p| >= 2 && p[0] == p[|p| - 1]
  }

  lemma {:induction false} DistinctLength<T>(s: seq<T>, dom: set<T>)
    requires NoDuplicates(s) && forall x :: x in s ==> x in dom
    ensures |s| <= |dom|
    ensures |s| == |dom| ==> forall x :: x in dom ==> x in s
  {
    if s != [] {
      var last := s[|s| - 1];
      var init := s[..|s| - 1];
      forall x | x in init ensures x in dom - {last} {
        var i :| 0 <= i < |init| && init[i] == x;
      }
      DistinctLength(init, dom - {last});
      if |s| == |dom| {
        forall x | x in dom ensures x in s {
          if x != last { assert x in init; }
        }
      }
    }
  }

  ghost predicate HasSuccessorIn<T(!new)>(g: iset<(T, T)>, rest: set<T>, x: T) {
    exists d :: (x, d) in g && d in rest
  }

  /** Every element of the set has a successor in the set. */
  ghost predicate Stuck<T(!new)>(g: iset<(T, T)>, rest: set<T>) {
    forall x {:trigger HasSuccessorIn(g, rest, x)} :: x in rest ==> HasSuccessorIn(g, rest, x)
  }

  /** In a stuck set there are walks of every length. */
  lemma {:induction false} LongWalk<T(!new)>(g: iset<(T, T)>, rest: set<T>, start: T, n: nat) returns (p: seq<T>)
    requires start in rest && Stuck(g, rest)
    ensures |p| == n + 1 && Walk(g, p)
    ensures forall x :: x in p ==> x in rest
  {
    if n == 0 {
      p := [start];
    } else {
      var q := LongWalk(g, rest, start, n - 1);
      var last := q[|q| - 1];
      assert last in rest && HasSuccessorIn(g, rest, last);
      var d :| (last, d) in g && d in rest;
      p := q + [d];
      forall i | 0 <= i < |p| - 1 ensures WalkStep(g, p, i) {
        assert i < |q| - 1 ==> WalkStep(g, q, i);
      }
    }
  }

  lemma RepetitionClosesCycle<T(!new)>(g: iset<(T, T)>, p: seq<T>, i: nat, j: nat)
    requires Walk(g, p) && i < j < |p| && p[i] == p[j]
    ensures HasCycle(g)
  {
    var c := p[i..j + 1];
    forall k | 0 <= k < |c| - 1 ensures WalkStep(g, c, k) {
      assert WalkStep(g, p, i + k);
    }
    assert Walk(g, c) && c[0] == c[|c| - 1];
  }

  /** Pigeonhole: a non-empty stuck set contains a cycle. */
  lemma StuckSetHasCycle<T(!new)>(g: iset<(T, T)>, rest: set<T>)
    requires rest != {} && Stuck(g, rest)
    ensures HasCycle(g)
  {
    var start :| start in rest;
    var p := LongWalk(g, rest, start, |rest|);
    if NoDuplicates(p) {
      DistinctLength(p, rest);
      assert false;
    }
    var i, j :| 0 <= i < j < |p| && p[i] == p[j];
    RepetitionClosesCycle(g, p, i, j);
  }

  /** Each element that has a successor comes after all its successors. */
  ghost predicate SuccessorsFirst<T(!new)>(g: iset<(T, T)>, order: seq<T>) {
    forall j, d :: 0 <= j < |order| && (order[j], d) in g ==> d in order[..j]
  }

  /** Positions strictly decrease along a walk that starts inside such an order. */
  lemma {:induction false} WalkDescends<T(!new)>(g: iset<(T, T)>, order: seq<T>, p: seq<T>, j: nat)
    requires SuccessorsFirst(g, order) && Walk(g, p)
    requires |p| >= 2 && j < |order| && order[j] == p[0]
    ensures p[|p| - 1] in order[..j]
  {
    assert WalkStep(g, p, 0);
    if |p| > 2 {
      var k :| 0 <= k < j && order[k] == p[1];
      var rest := p[1..];
      forall i | 0 <= i < |rest| - 1 ensures WalkStep(g, rest, i) {
        assert WalkStep(g, p, i + 1);
      }
      WalkDescends(g, order, rest, k);
    }
  }

  /** A duplicate-free successors-first order of every element with a successor rules out cycles. */
  lemma OrderRulesOutCycles<T(!new)>(g: iset<(T, T)>, order: seq<T>)
    requires SuccessorsFirst(g, order) && NoDuplicates(order)
    requires forall x, d :: (x, d) in g ==> x in order
    ensures !HasCycle(g)
  {
    forall p | Walk(g, p) && |p| >= 2 ensures p[0] != p[|p| - 1] {
      assert WalkStep(g, p, 0);
      var j :| 0 <= j < |order| && order[j] == p[0];
      WalkDescends(g, order, p, j);
    }
  }
}
