/** The rank of a node in a graph: the length of the longest path from it. In a finite graph
    a node has one exactly when no path from it comes back to a node it has passed. */
module Ranks {
  /** Every path from `v` has at most `n` edges. */
  ghost predicate Within<T(!new)>(kids: T -> seq<T>, v: T, n: nat)
    decreases n
  {
    forall c :: c in kids(v) ==> n > 0 && Within(kids, c, n - 1)
  }

  ghost predicate Ranked<T(!new)>(kids: T -> seq<T>, v: T) {
    exists n: nat :: Within(kids, v, n)
  }

  lemma {:induction false} WithinMore<T(!new)>(kids: T -> seq<T>, v: T, n: nat, m: nat)
    requires Within(kids, v, n) && n <= m
    ensures Within(kids, v, m)
    decreases n
  {
    forall c | c in kids(v)
      ensures m > 0 && Within(kids, c, m - 1)
    {
      WithinMore(kids, c, n - 1, m - 1);
    }
  }

  ghost function Least<T(!new)>(kids: T -> seq<T>, v: T, n: nat): (r: nat)
    requires Within(kids, v, n)
    ensures Within(kids, v, r) && (r == 0 || !Within(kids, v, r - 1))
  {
    if n > 0 && Within(kids, v, n - 1) then Least(kids, v, n - 1) else n
  }

  ghost function Rank<T(!new)>(kids: T -> seq<T>, v: T): nat
    requires Ranked(kids, v)
  {
    var n: nat :| Within(kids, v, n);
    Least(kids, v, n)
  }

  lemma RankIsLeast<T(!new)>(kids: T -> seq<T>, v: T)
    requires Ranked(kids, v)
    ensures var r := Rank(kids, v); Within(kids, v, r) && (r == 0 || !Within(kids, v, r - 1))
  {
  }

  lemma RankAtMost<T(!new)>(kids: T -> seq<T>, v: T, n: nat)
    requires Within(kids, v, n)
    ensures Ranked(kids, v) && Rank(kids, v) <= n
  {
    RankIsLeast(kids, v);
    if Rank(kids, v) > n {
      WithinMore(kids, v, n, Rank(kids, v) - 1);
    }
  }

  /** Every edge lowers the rank. */
  lemma EdgeLowersRank<T(!new)>(kids: T -> seq<T>, v: T, c: T)
    requires Ranked(kids, v) && c in kids(v)
    ensures Ranked(kids, c) && Rank(kids, c) < Rank(kids, v)
  {
    RankIsLeast(kids, v);
    RankAtMost(kids, c, Rank(kids, v) - 1);
  }

  // ---------------------------------------------------------------- ranks and loops

  ghost predicate IsPath<T>(kids: T -> seq<T>, p: seq<T>) {
    forall i :: 0 <= i < |p| - 1 ==> p[i + 1] in kids(p[i])
  }

  /** A path from `v` that comes back to a node it has passed. */
  ghost predicate Loops<T>(kids: T -> seq<T>, v: T, p: seq<T>) {
    |p| > 0 && p[0] == v && IsPath(kids, p) && exists i, j :: 0 <= i < j < |p| && p[i] == p[j]
  }

  lemma {:induction false} RankFallsAlongPath<T(!new)>(kids: T -> seq<T>, p: seq<T>, i: nat, j: nat)
    requires i <= j < |p| && IsPath(kids, p) && Ranked(kids, p[0])
    ensures Ranked(kids, p[i]) && Ranked(kids, p[j])
    ensures i < j ==> Rank(kids, p[j]) < Rank(kids, p[i])
    decreases j
  {
    if j > 0 {
      RankFallsAlongPath(kids, p, if i < j then i else j - 1, j - 1);
      assert p[j - 1 + 1] in kids(p[j - 1]);
      EdgeLowersRank(kids, p[j - 1], p[j]);
    }
  }

  lemma {:induction false} CommonBound<T(!new)>(kids: T -> seq<T>, vs: seq<T>) returns (n: nat)
    requires forall c :: c in vs ==> Ranked(kids, c)
    ensures forall c :: c in vs ==> Within(kids, c, n)
    decreases |vs|
  {
    if vs == [] {
      n := 0;
    } else {
      var m := CommonBound(kids, vs[1..]);
      n := if m > Rank(kids, vs[0]) then m else Rank(kids, vs[0]);
      RankIsLeast(kids, vs[0]);
      WithinMore(kids, vs[0], Rank(kids, vs[0]), n);
      forall c | c in vs[1..]
        ensures Within(kids, c, n)
      {
        WithinMore(kids, c, m, n);
      }
    }
  }

  lemma UnrankedChild<T(!new)>(kids: T -> seq<T>, v: T) returns (c: T)
    requires !Ranked(kids, v)
    ensures c in kids(v) && !Ranked(kids, c)
  {
    if forall c :: c in kids(v) ==> Ranked(kids, c) {
      var n := CommonBound(kids, kids(v));
      assert Within(kids, v, n + 1);
      assert false;
    }
    c :| c in kids(v) && !Ranked(kids, c);
  }

  lemma {:induction false} LongPath<T(!new)>(kids: T -> seq<T>, v: T, world: set<T>, k: nat) returns (p: seq<T>)
    requires !Ranked(kids, v) && v in world
    requires forall x, c :: x in world && c in kids(x) ==> c in world
    ensures |p| == k + 1 && p[0] == v && IsPath(kids, p) && !Ranked(kids, p[k])
    ensures forall x :: x in p ==> x in world
    decreases k
  {
    if k == 0 {
      p := [v];
    } else {
      var q := LongPath(kids, v, world, k - 1);
      var c := UnrankedChild(kids, q[k - 1]);
      p := q + [c];
      forall i | 0 <= i < |p| - 1
        ensures p[i + 1] in kids(p[i])
      {
        assert i < k - 1 ==> q[i + 1] in kids(q[i]);
      }
    }
  }

  lemma {:induction false} Pigeonhole<T>(p: seq<T>, world: set<T>)
    requires |p| > |world| && forall x :: x in p ==> x in world
    ensures exists i, j :: 0 <= i < j < |p| && p[i] == p[j]
    decreases |p|
  {
    var last := |p| - 1;
    if i :| 0 <= i < last && p[i] == p[last] {
    } else {
      assert p[last] in world;
      assert forall x :: x in p[..last] ==> x in world - {p[last]};
      Pigeonhole(p[..last], world - {p[last]});
      var i, j :| 0 <= i < j < last && p[..last][i] == p[..last][j];
      assert p[i] == p[j];
    }
  }

  /** `world` is finite, holds `v` and is closed under edges. */
  lemma RankedIffNoLoop<T(!new)>(kids: T -> seq<T>, v: T, world: set<T>)
    requires v in world && forall x, c :: x in world && c in kids(x) ==> c in world
    ensures Ranked(kids, v) <==> forall p :: !Loops(kids, v, p)
  {
    if Ranked(kids, v) {
      forall p
        ensures !Loops(kids, v, p)
      {
        if Loops(kids, v, p) {
          var i, j :| 0 <= i < j < |p| && p[i] == p[j];
          RankFallsAlongPath(kids, p, i, j);
        }
      }
    } else {
      var p := LongPath(kids, v, world, |world|);
      Pigeonhole(p, world);
      assert Loops(kids, v, p);
    }
  }
}
