/** Walks, reachability and cycles in a finite directed graph over names. */
module DependencyGraph {
  type Id = string

  /** An edge (a, b) says that a needs b. */
  type Graph = set<(Id, Id)>

  predicate Walk(g: Graph, p: seq<Id>) {
    p != [] && forall i :: 0 <= i < |p| - 1 ==> (p[i], p[i + 1]) in g
  }

  predicate Links(g: Graph, p: seq<Id>, from: Id, to: Id) {
    Walk(g, p) && p[0] == from && p[|p| - 1] == to
  }

  /** There is a walk of at least one edge. */
  ghost predicate Reaches(g: Graph, from: Id, to: Id) {
    exists p :: Links(g, p, from, to) && |p| >= 2
  }

  ghost predicate ReachesOrIs(g: Graph, from: Id, to: Id) {
    from == to || Reaches(g, from, to)
  }

  ghost predicate Acyclic(g: Graph) {
    forall x :: !Reaches(g, x, x)
  }

  /** `x` is on a cycle or can walk to one. */
  ghost predicate ReachesCycle(g: Graph, x: Id) {
    exists c :: ReachesOrIs(g, x, c) && Reaches(g, c, c)
  }

  lemma EdgeReaches(g: Graph, a: Id, b: Id)
    requires (a, b) in g
    ensures Reaches(g, a, b)
  {
    assert Links(g, [a, b], a, b);
  }

  lemma ReachesOnward(g: Graph, a: Id, b: Id, c: Id)
    requires ReachesOrIs(g, a, b) && ReachesOrIs(g, b, c)
    ensures ReachesOrIs(g, a, c)
    ensures a != b || b != c || Reaches(g, a, b) ==> Reaches(g, a, c)
  {
    if Reaches(g, a, b) && Reaches(g, b, c) {
      var p :| Links(g, p, a, b) && |p| >= 2;
      var q :| Links(g, q, b, c) && |q| >= 2;
      assert Links(g, p + q[1..], a, c);
    }
  }

  lemma WalkReaches(g: Graph, p: seq<Id>, i: nat, j: nat)
    requires Walk(g, p) && i <= j < |p|
    ensures ReachesOrIs(g, p[i], p[j])
    ensures i < j ==> Reaches(g, p[i], p[j])
  {
    if i < j { assert Links(g, p[i..j + 1], p[i], p[j]); }
  }

  lemma MonotoneReaches(g: Graph, h: Graph, a: Id, b: Id)
    requires g <= h && Reaches(g, a, b)
    ensures Reaches(h, a, b)
  {
    var p :| Links(g, p, a, b) && |p| >= 2;
    assert Links(h, p, a, b);
  }

  lemma SubgraphAcyclic(g: Graph, h: Graph)
    requires g <= h && Acyclic(h)
    ensures Acyclic(g)
  {
    forall x ensures !Reaches(g, x, x) {
      if Reaches(g, x, x) { MonotoneReaches(g, h, x, x); }
    }
  }

  /** A walk that starts in a set closed under the edges stays there. */
  lemma {:induction false} ClosedWalk(g: Graph, s: set<Id>, p: seq<Id>, i: nat)
    requires Walk(g, p) && i < |p| && p[0] in s
    requires forall a, b :: (a, b) in g && a in s ==> b in s
    ensures p[i] in s
  {
    if i > 0 {
      ClosedWalk(g, s, p, i - 1);
      assert (p[i - 1], p[i]) in g;
    }
  }

  /** The first place at which a name occurs. */
  lemma {:induction false} FirstPlace(p: seq<Id>, x: Id) returns (k: nat)
    requires x in p
    ensures k < |p| && p[k] == x && x !in p[..k]
  {
    k := 0;
    while p[k] != x
      invariant k < |p| && x in p[k..] && x !in p[..k]
      decreases |p| - k
    {
      k := k + 1;
    }
  }

  /** The last place at which a name occurs. */
  lemma LastPlace(p: seq<Id>, x: Id) returns (k: nat)
    requires x in p
    ensures k < |p| && p[k] == x && x !in p[k + 1..]
  {
    k := |p| - 1;
    while p[k] != x
      invariant k < |p| && x in p[..k + 1] && x !in p[k + 1..]
      decreases k
    {
      k := k - 1;
    }
  }

  function Fan(x: Id, targets: set<Id>): Graph {
    set d | d in targets :: (x, d)
  }

  /** New edges out of `x` close no cycle when none of their targets is or reaches `x`. */
  lemma FanAcyclic(g: Graph, x: Id, targets: set<Id>)
    requires Acyclic(g)
    requires forall d :: d in targets ==> !ReachesOrIs(g, d, x)
    ensures Acyclic(g + Fan(x, targets))
  {
    var h := g + Fan(x, targets);
    forall c ensures !Reaches(h, c, c) {
      if Reaches(h, c, c) {
        var p :| Links(h, p, c, c) && |p| >= 2;
        NoCycleThrough(g, x, targets, p);
      }
    }
  }

  lemma NoCycleThrough(g: Graph, x: Id, targets: set<Id>, p: seq<Id>)
    requires Acyclic(g)
    requires forall d :: d in targets ==> !ReachesOrIs(g, d, x)
    requires |p| >= 2
    ensures !Links(g + Fan(x, targets), p, p[0], p[0])
  {
    var h := g + Fan(x, targets);
    if Links(h, p, p[0], p[0]) {
      var sources := p[..|p| - 1];
      if x in sources {
        var first := FirstPlace(sources, x);
        var last := LastPlace(sources, x);
        assert p[..first] == sources[..first] && sources[last + 1..] == p[last + 1..|p| - 1];
        OldWalk(g, x, targets, p[..first + 1]);
        OldWalk(g, x, targets, p[last + 1..]);
        WalkReaches(g, p[..first + 1], 0, first);
        WalkReaches(g, p[last + 1..], 0, |p| - 2 - last);
        ReachesOnward(g, p[last + 1], p[0], x);
        assert (p[last], p[last + 1]) in h;
        if p[last + 1] !in targets {
          EdgeReaches(g, x, p[last + 1]);
          ReachesOnward(g, x, p[last + 1], x);
        }
      } else {
        OldWalk(g, x, targets, p);
        WalkReaches(g, p, 0, |p| - 1);
      }
    }
  }

  /** A walk that leaves `x` only at its end uses none of the new edges. */
  lemma OldWalk(g: Graph, x: Id, targets: set<Id>, p: seq<Id>)
    requires Walk(g + Fan(x, targets), p) && x !in p[..|p| - 1]
    ensures Walk(g, p)
  {
    forall i | 0 <= i < |p| - 1 ensures (p[i], p[i + 1]) in g {
      assert p[i] == p[..|p| - 1][i];
      assert (p[i], p[i + 1]) in g + Fan(x, targets);
    }
  }

  lemma SubsetSize(p: seq<Id>, s: set<Id>)
    requires forall i :: 0 <= i < |p| ==> p[i] in s
    requires forall i, j :: 0 <= i < j < |p| ==> p[i] != p[j]
    ensures |p| <= |s|
    decreases |p|
  {
    if p != [] {
      var last := p[|p| - 1];
      SubsetSize(p[..|p| - 1], s - {last});
    }
  }

  ghost predicate HasNext(g: Graph, s: set<Id>, x: Id) {
    exists y :: y in s && (x, y) in g
  }

  /** In a finite set whose members all have a successor in it, every walk can be prolonged to a cycle. */
  lemma {:induction false} ProlongToCycle(g: Graph, s: set<Id>, p: seq<Id>)
    requires Walk(g, p)
    requires forall i :: 0 <= i < |p| ==> p[i] in s
    requires forall i, j :: 0 <= i < j < |p| ==> p[i] != p[j]
    requires forall x :: x in s ==> HasNext(g, s, x)
    ensures ReachesCycle(g, p[0])
    decreases |s| - |p|
  {
    SubsetSize(p, s);
    var tail := p[|p| - 1];
    assert HasNext(g, s, tail);
    var next :| next in s && (tail, next) in g;
    var longer := p + [next];
    assert Walk(g, longer);
    if next in p {
      var k :| 0 <= k < |p| && p[k] == next;
      WalkReaches(g, longer, k, |p|);
      WalkReaches(g, longer, 0, k);
      assert ReachesOrIs(g, p[0], next) && Reaches(g, next, next);
    } else {
      SubsetSize(longer, s);
      ProlongToCycle(g, s, longer);
    }
  }

  lemma EndlessSetReachesCycle(g: Graph, s: set<Id>, x: Id)
    requires x in s
    requires forall a :: a in s ==> HasNext(g, s, a)
    ensures ReachesCycle(g, x)
  {
    ProlongToCycle(g, s, [x]);
  }

  /** Whoever reaches a cycle has a successor that reaches one. */
  lemma CycleAhead(g: Graph, x: Id) returns (next: Id)
    requires ReachesCycle(g, x)
    ensures (x, next) in g && ReachesCycle(g, next)
  {
    var c :| ReachesOrIs(g, x, c) && Reaches(g, c, c);
    var p :| Links(g, p, x, c) && |p| >= 2;
    next := p[1];
    assert (p[0], p[1]) in g;
    WalkReaches(g, p, 1, |p| - 1);
    assert ReachesOrIs(g, next, c) && Reaches(g, c, c);
  }

  function Reversed(g: Graph): Graph {
    set e | e in g :: (e.1, e.0)
  }

  function Backward(p: seq<Id>): seq<Id> {
    seq(|p|, i requires 0 <= i < |p| => p[|p| - 1 - i])
  }

  lemma ReversedReaches(g: Graph, a: Id, b: Id)
    requires Reaches(Reversed(g), a, b)
    ensures Reaches(g, b, a)
  {
    var p :| Links(Reversed(g), p, a, b) && |p| >= 2;
    var q := Backward(p);
    forall i | 0 <= i < |q| - 1 ensures (q[i], q[i + 1]) in g {
      var k := |p| - 2 - i;
      assert (p[k], p[k + 1]) in Reversed(g);
    }
    assert Links(g, q, b, a);
  }

  /** A nonempty set of names in an acyclic graph has a member that no other member needs. */
  lemma AcyclicHasTop(g: Graph, s: set<Id>) returns (top: Id)
    requires Acyclic(g) && s != {}
    ensures top in s && forall x :: x in s ==> (x, top) !in g
  {
    if forall b :: b in s ==> HasNext(Reversed(g), s, b) {
      var x :| x in s;
      EndlessSetReachesCycle(Reversed(g), s, x);
      var c :| ReachesOrIs(Reversed(g), x, c) && Reaches(Reversed(g), c, c);
      ReversedReaches(g, c, c);
      assert false;
    }
    top :| top in s && !HasNext(Reversed(g), s, top);
    forall x | x in s ensures (x, top) !in g {
      assert (x, top) in g ==> (top, x) in Reversed(g);
    }
  }
}
