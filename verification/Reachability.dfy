/**
 The hand-written breadth-first reachability shared by the operation attempt machine
 (application/governed_operation_coordinator_v3.go) and the run machine
 (application/run_coordinator_v3.go).
 */
module Reachability {

  /** A non-empty walk along direct edges. */
  ghost predicate IsPath<T(!new)>(direct: (T, T) -> bool, p: seq<T>) {
    p != [] && forall i :: 0 <= i < |p| - 1 ==> direct(p[i], p[i + 1])
  }

  ghost predicate Reachable<T(!new)>(direct: (T, T) -> bool, from: T, to: T) {
    exists p :: IsPath(direct, p) && p[0] == from && p[|p| - 1] == to
  }

  lemma ReachableReflexive<T(!new)>(direct: (T, T) -> bool, a: T)
    ensures Reachable(direct, a, a)
  {
    assert IsPath(direct, [a]);
  }

  lemma ReachableStep<T(!new)>(direct: (T, T) -> bool, a: T, b: T, c: T)
    requires Reachable(direct, a, b) && direct(b, c)
    ensures Reachable(direct, a, c)
  {
    var p :| IsPath(direct, p) && p[0] == a && p[|p| - 1] == b;
    var q := p + [c];
    assert IsPath(direct, q) && q[0] == a && q[|q| - 1] == c;
  }

  lemma ReachableTransitive<T(!new)>(direct: (T, T) -> bool, a: T, b: T, c: T)
    requires Reachable(direct, a, b) && Reachable(direct, b, c)
    ensures Reachable(direct, a, c)
  {
    var p :| IsPath(direct, p) && p[0] == a && p[|p| - 1] == b;
    var q :| IsPath(direct, q) && q[0] == b && q[|q| - 1] == c;
    var r := p + q[1..];
    forall i | 0 <= i < |r| - 1 ensures direct(r[i], r[i + 1]) {
      if i + 1 < |p| {
        assert direct(p[i], p[i + 1]);
      } else {
        assert direct(q[i + 1 - |p|], q[i + 2 - |p|]);
      }
    }
    assert IsPath(direct, r) && r[0] == a && r[|r| - 1] == c;
  }

  /** A set closed under direct edges holds everything reachable from its members. */
  lemma {:induction false} ClosedHolds<T(!new)>(direct: (T, T) -> bool, closed: set<T>, p: seq<T>)
    requires IsPath(direct, p) && p[0] in closed
    requires forall a, b :: a in closed && direct(a, b) ==> b in closed
    ensures p[|p| - 1] in closed
  {
    if |p| > 1 {
      var front := p[..|p| - 1];
      assert IsPath(direct, front);
      ClosedHolds(direct, closed, front);
    }
  }

  ghost predicate Sound<T(!new)>(direct: (T, T) -> bool, from: T, seen: set<T>) {
    forall a :: a in seen ==> Reachable(direct, from, a)
  }

  /** Every successor of a among the first n candidates has been seen. */
  ghost predicate Expanded<T(!new)>(direct: (T, T) -> bool, states: seq<T>, n: nat, seen: set<T>, a: T)
    requires n <= |states|
  {
    forall j :: 0 <= j < n && direct(a, states[j]) ==> states[j] in seen
  }

  ghost predicate ExpandedBut<T(!new)>(direct: (T, T) -> bool, states: seq<T>, seen: set<T>, waiting: set<T>) {
    forall a :: a in seen && a !in waiting ==> Expanded(direct, states, |states|, seen, a)
  }

  /** Every state an edge leads to is a candidate. */
  ghost predicate Lists<T(!new)>(direct: (T, T) -> bool, states: seq<T>) {
    forall a, b :: direct(a, b) ==> b in states
  }

  /** The search between two candidates: current is expanded up to candidate i, waiting states not yet. */
  ghost predicate Searching<T(!new)>(direct: (T, T) -> bool, states: seq<T>, from: T, to: T,
                                     seen: set<T>, waiting: set<T>, current: T, i: nat)
    requires i <= |states|
  {
    && from in seen && to !in seen && current in seen && waiting <= seen <= Elements(states) + {from}
    && Sound(direct, from, seen)
    && ExpandedBut(direct, states, seen, waiting + {current})
    && Expanded(direct, states, i, seen, current)
  }

  /** The search between two states taken from the queue. */
  ghost predicate Waiting<T(!new)>(direct: (T, T) -> bool, states: seq<T>, from: T, to: T, seen: set<T>,
                                   waiting: set<T>) {
    && from in seen && to !in seen && waiting <= seen <= Elements(states) + {from}
    && Sound(direct, from, seen)
    && ExpandedBut(direct, states, seen, waiting)
  }

  lemma Meet<T(!new)>(direct: (T, T) -> bool, states: seq<T>, from: T, to: T,
                      seen: set<T>, waiting: set<T>, current: T, i: nat)
    requires i < |states| && Searching(direct, states, from, to, seen, waiting, current, i)
    requires direct(current, states[i])
    ensures Reachable(direct, from, states[i])
    ensures states[i] != to ==>
      Searching(direct, states, from, to, seen + {states[i]}, waiting + {states[i]}, current, i + 1)
  {
    ReachableStep(direct, from, current, states[i]);
    assert states[i] in Elements(states);
  }

  lemma Exhausted<T(!new)>(direct: (T, T) -> bool, states: seq<T>, from: T, to: T, seen: set<T>)
    requires Lists(direct, states) && Waiting(direct, states, from, to, seen, {})
    ensures !Reachable(direct, from, to)
  {
    if Reachable(direct, from, to) {
      var p :| IsPath(direct, p) && p[0] == from && p[|p| - 1] == to;
      forall a, b | a in seen && direct(a, b) ensures b in seen {
        var j :| 0 <= j < |states| && states[j] == b;
        assert Expanded(direct, states, |states|, seen, a);
      }
      ClosedHolds(direct, seen, p);
    }
  }

  ghost function Elements<T>(s: seq<T>): set<T> { set a | a in s }

  lemma Push<T>(s: seq<T>, x: T)
    ensures Elements(s + [x]) == Elements(s) + {x}
  {
  }

  /**
   The search.  A candidate list that leaves out the initial state is complete exactly because
   no edge leads to a state outside it; that is the only thing asked of the caller.
   */
  method Reaches<T(==, !new)>(direct: (T, T) -> bool, states: seq<T>, from: T, to: T) returns (found: bool)
    requires Lists(direct, states)
    ensures found <==> Reachable(direct, from, to)
  {
    ReachableReflexive(direct, from);
    if from == to {
      return true;
    }
    var seen, queue := {from}, [from];
    ghost var all := Elements(states) + {from};
    assert Elements(queue) == {from};
    while |queue| > 0
      invariant Waiting(direct, states, from, to, seen, Elements(queue))
      decreases |all - seen|, |queue|
    {
      var current := queue[0];
      queue := queue[1..];
      ghost var seenBefore, queueBefore := seen, queue;
      assert Searching(direct, states, from, to, seen, Elements(queue), current, 0);
      hide Sound, Expanded, ExpandedBut, Reachable, IsPath, Lists;
      for i := 0 to |states|
        invariant seenBefore <= seen && (seen == seenBefore ==> queue == queueBefore)
        invariant Searching(direct, states, from, to, seen, Elements(queue), current, i)
      {
        var candidate := states[i];
        if candidate in seen || !direct(current, candidate) {
          Skip(direct, states, from, to, seen, Elements(queue), current, i);
        } else {
          Meet(direct, states, from, to, seen, Elements(queue), current, i);
          if candidate == to {
            return true;
          }
          Push(queue, candidate);
          seen := seen + {candidate};
          queue := queue + [candidate];
        }
      }
      if seen != seenBefore {
        Smaller(all, seenBefore, seen);
      }
    }
    assert Elements(queue) == {};
    Exhausted(direct, states, from, to, seen);
    return false;
  }

  lemma Skip<T(!new)>(direct: (T, T) -> bool, states: seq<T>, from: T, to: T,
                      seen: set<T>, waiting: set<T>, current: T, i: nat)
    requires i < |states| && Searching(direct, states, from, to, seen, waiting, current, i)
    requires states[i] in seen || !direct(current, states[i])
    ensures Searching(direct, states, from, to, seen, waiting, current, i + 1)
  {
  }

  lemma Smaller<T>(all: set<T>, before: set<T>, after: set<T>)
    requires before < after <= all
    ensures |all - after| < |all - before|
  {
    var x :| x in after && x !in before;
    assert all - after < all - before;
    CardinalityOfSubset(all - after, all - before);
  }

  lemma {:induction false} CardinalityOfSubset<T>(a: set<T>, b: set<T>)
    requires a < b
    ensures |a| < |b|
  {
    var c := b - a;
    assert b == a + c && a !! c && c != {};
  }
}
