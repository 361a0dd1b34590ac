/** The set of non-dominated solutions that the explorer keeps while it simulates configurations. */
module ParetoFront {

  /** A simulated configuration: its metric values, and the mark the explorer puts on it. */
  datatype Solution = Solution(metrics: map<string, real>, dominated: bool)

  /** No metric is worse than the other's. */
  predicate Dominates(a: Solution, b: Solution)
    requires a.metrics.Keys == b.metrics.Keys
  {
    forall m :: m in a.metrics ==> a.metrics[m] <= b.metrics[m]
  }

  /** All solutions have the same metrics. */
  predicate SameMetrics(s: seq<Solution>, keys: set<string>) {
    forall i :: 0 <= i < |s| ==> s[i].metrics.Keys == keys
  }

  /** No member dominates another. */
  predicate Front(s: seq<Solution>, keys: set<string>)
    requires SameMetrics(s, keys)
  {
    forall i, j :: 0 <= i < |s| && 0 <= j < |s| && i != j ==> !Dominates(s[i], s[j])
  }

  /** Some member is at least as good as a solution in every metric. */
  predicate Covers(s: seq<Solution>, x: Solution, keys: set<string>)
    requires SameMetrics(s, keys) && x.metrics.Keys == keys
  {
    exists i :: 0 <= i < |s| && Dominates(s[i], x)
  }

  lemma DominatesTransitive(a: Solution, b: Solution, c: Solution)
    requires a.metrics.Keys == b.metrics.Keys == c.metrics.Keys && Dominates(a, b) && Dominates(b, c)
    ensures Dominates(a, c)
  {
    forall m | m in a.metrics
      ensures a.metrics[m] <= c.metrics[m]
    {
      assert m in b.metrics;
    }
  }

  /** The members that a new solution does not dominate, in order. */
  function Kept(s: seq<Solution>, x: Solution, keys: set<string>): (r: seq<Solution>)
    requires SameMetrics(s, keys) && x.metrics.Keys == keys
    ensures SameMetrics(r, keys)
    ensures forall y :: y in r <==> y in s && !Dominates(x, y)
  {
    if s == [] then []
    else
      var n := |s| - 1;
      if Dominates(x, s[n]) then Kept(s[..n], x, keys) else Kept(s[..n], x, keys) + [s[n]]
  }

  lemma {:induction false} KeptFront(s: seq<Solution>, x: Solution, keys: set<string>)
    requires SameMetrics(s, keys) && x.metrics.Keys == keys && Front(s, keys)
    ensures Front(Kept(s, x, keys), keys)
  {
    if s != [] {
      var n := |s| - 1;
      KeptFront(s[..n], x, keys);
      var r := Kept(s[..n], x, keys);
      forall i | 0 <= i < |r|
        ensures !Dominates(r[i], s[n]) && !Dominates(s[n], r[i])
      {
        assert r[i] in s[..n];
      }
    }
  }

  /** The front after a solution has been offered. */
  function Offered(s: seq<Solution>, x: Solution, keys: set<string>): (r: seq<Solution>)
    requires SameMetrics(s, keys) && x.metrics.Keys == keys
    ensures SameMetrics(r, keys)
  {
    if Covers(s, x, keys) then s else Kept(s, x, keys) + [x.(dominated := true)]
  }

  /** Offering a solution keeps the members pairwise non-dominating. */
  lemma OfferedFront(s: seq<Solution>, x: Solution, keys: set<string>)
    requires SameMetrics(s, keys) && x.metrics.Keys == keys && Front(s, keys)
    ensures Front(Offered(s, x, keys), keys)
  {
    if !Covers(s, x, keys) {
      KeptFront(s, x, keys);
      var k, y := Kept(s, x, keys), x.(dominated := true);
      forall i | 0 <= i < |k|
        ensures !Dominates(k[i], y) && !Dominates(y, k[i])
      {
        assert k[i] in s;
        var j :| 0 <= j < |s| && s[j] == k[i];
      }
    }
  }

  /** What was covered stays covered, and the offered solution is covered now. */
  lemma OfferedCovers(s: seq<Solution>, x: Solution, z: Solution, keys: set<string>)
    requires SameMetrics(s, keys) && x.metrics.Keys == keys && z.metrics.Keys == keys
    requires z == x || Covers(s, z, keys)
    ensures Covers(Offered(s, x, keys), z, keys)
  {
    if !Covers(s, x, keys) {
      var r, k := Offered(s, x, keys), Kept(s, x, keys);
      assert r[|k|] == x.(dominated := true);
      if z != x {
        var i :| 0 <= i < |s| && Dominates(s[i], z);
        if Dominates(x, s[i]) {
          DominatesTransitive(x, s[i], z);
          assert Dominates(r[|k|], z);
        } else {
          assert s[i] in k;
          var j :| 0 <= j < |k| && k[j] == s[i];
          assert r[j] == s[i];
        }
      } else {
        assert Dominates(r[|k|], z);
      }
    }
  }

  /** A front of marked solutions that covers all that was ever offered and is made of nothing else. */
  ghost predicate ValidSet(s: seq<Solution>, keys: set<string>, offered: set<Solution>) {
    && SameMetrics(s, keys) && Front(s, keys)
    && (forall x :: x in offered ==> x.metrics.Keys == keys && Covers(s, x, keys))
    && (forall y :: y in s ==> y.dominated && FromOffer(y, offered))
  }

  ghost predicate FromOffer(y: Solution, offered: set<Solution>) {
    exists x :: x in offered && y == x.(dominated := true)
  }

  lemma OfferedValid(s: seq<Solution>, x: Solution, keys: set<string>, offered: set<Solution>)
    requires ValidSet(s, keys, offered) && x.metrics.Keys == keys
    ensures ValidSet(Offered(s, x, keys), keys, offered + {x})
  {
    hide Front, Covers;
    OfferedFront(s, x, keys);
    forall z | z in offered + {x}
      ensures z.metrics.Keys == keys && Covers(Offered(s, x, keys), z, keys)
    {
      OfferedCovers(s, x, z, keys);
    }
    forall y | y in Offered(s, x, keys)
      ensures y.dominated && FromOffer(y, offered + {x})
    {
      if y in s {
        var z :| z in offered && y == z.(dominated := true);
        assert z in offered + {x};
      } else {
        assert x in offered + {x};
      }
    }
  }

  /** No member is worse than a solution that was offered. */
  lemma MembersBest(s: seq<Solution>, keys: set<string>, offered: set<Solution>, x: Solution, y: Solution)
    requires ValidSet(s, keys, offered) && x in offered && y in s
    ensures x.metrics.Keys == keys == y.metrics.Keys
    ensures (forall m :: m in keys ==> x.metrics[m] <= y.metrics[m]) ==>
      forall m :: m in keys ==> x.metrics[m] == y.metrics[m]
  {
    assert Covers(s, x, keys);
    var i :| 0 <= i < |s| && Dominates(s[i], x);
    var j :| 0 <= j < |s| && s[j] == y;
    if forall m :: m in keys ==> x.metrics[m] <= y.metrics[m] {
      forall m | m in keys
        ensures s[i].metrics[m] <= x.metrics[m] <= y.metrics[m]
      {}
      assert Dominates(s[i], s[j]);
    }
  }

  /** And every solution that was offered has a member that is at most as large in every metric. */
  lemma MembersCover(s: seq<Solution>, keys: set<string>, offered: set<Solution>, x: Solution) returns (y: Solution)
    requires ValidSet(s, keys, offered) && x in offered
    ensures y in s && x.metrics.Keys == keys == y.metrics.Keys
    ensures forall m :: m in keys ==> y.metrics[m] <= x.metrics[m]
  {
    assert Covers(s, x, keys);
    var i :| 0 <= i < |s| && Dominates(s[i], x);
    y := s[i];
  }

  /**
   * What an offer does, in numbers: nothing when some member is at most as large in every metric; else the solution
   * enters, and those members stay that are smaller in some metric.
   */
  lemma OfferedInNumbers(s: seq<Solution>, x: Solution, keys: set<string>)
    requires SameMetrics(s, keys) && x.metrics.Keys == keys
    ensures (exists y :: y in s && forall m :: m in keys ==> y.metrics[m] <= x.metrics[m]) ==> Offered(s, x, keys) == s
    ensures !(exists y :: y in s && forall m :: m in keys ==> y.metrics[m] <= x.metrics[m]) ==>
      forall y :: y in Offered(s, x, keys) <==>
        y == x.(dominated := true) || (y in s && exists m :: m in keys && y.metrics[m] < x.metrics[m])
  {
    forall i | 0 <= i < |s|
      ensures Dominates(s[i], x) <==> forall m :: m in keys ==> s[i].metrics[m] <= x.metrics[m]
      ensures !Dominates(x, s[i]) <==> exists m :: m in keys && s[i].metrics[m] < x.metrics[m]
    {}
  }

  /**
   * The set in numbers: no member is worse than a solution that was offered, and every solution that was offered has a
   * member that is at most as large in every metric.
   */
  ghost predicate BestOffered(s: seq<Solution>, keys: set<string>, offered: set<Solution>) {
    && (forall y :: y in s ==> y.metrics.Keys == keys) && (forall x :: x in offered ==> x.metrics.Keys == keys)
    && (forall x, y | x in offered && y in s ::
          (forall m :: m in keys ==> x.metrics[m] <= y.metrics[m])
          ==> (forall m :: m in keys ==> x.metrics[m] == y.metrics[m]))
    && (forall x | x in offered :: exists y :: y in s && forall m :: m in keys ==> y.metrics[m] <= x.metrics[m])
  }

  lemma ValidIsBest(s: seq<Solution>, keys: set<string>, offered: set<Solution>)
    requires ValidSet(s, keys, offered)
    ensures BestOffered(s, keys, offered)
  {
    forall x, y | x in offered && y in s
      ensures x.metrics.Keys == keys == y.metrics.Keys
      ensures (forall m :: m in keys ==> x.metrics[m] <= y.metrics[m])
        ==> (forall m :: m in keys ==> x.metrics[m] == y.metrics[m])
    {
      MembersBest(s, keys, offered, x, y);
    }
    forall x | x in offered
      ensures exists y :: y in s && forall m :: m in keys ==> y.metrics[m] <= x.metrics[m]
    {
      var y := MembersCover(s, keys, offered, x);
    }
  }

  class Explorer {
    var nonDominated: seq<Solution>
    ghost var keys: set<string>
    /** Every solution offered so far. */
    ghost var offered: set<Solution>

    ghost predicate Valid()
      reads this
    {
      ValidSet(nonDominated, keys, offered)
    }

    constructor (ghost ks: set<string>)
      ensures Valid() && nonDominated == [] && offered == {} && keys == ks
    {
      nonDominated, keys, offered := [], ks, {};
    }

    /** The members that the current solution does not dominate. */
    static method Undominated(members: seq<Solution>, curSol: Solution, ghost keys: set<string>)
      returns (newSolutions: seq<Solution>)
      requires SameMetrics(members, keys) && curSol.metrics.Keys == keys
      ensures newSolutions == Kept(members, curSol, keys)
    {
      newSolutions := [];
      var i := 0;
      while i < |members|
        invariant 0 <= i <= |members|
        invariant newSolutions == Kept(members[..i], curSol, keys)
      {
        assert members[..i + 1][..i] == members[..i];
        if !Dominates(curSol, members[i]) {
          newSolutions := newSolutions + [members[i]];
        }
        i := i + 1;
      }
      assert members[..i] == members;
    }

    /** Offers a solution; it is marked when it enters the set, which holds the best of all that were offered. */
    method UpdateNonDominated(curSol: Solution) returns (marked: Solution)
      requires Valid() && curSol.metrics.Keys == keys
      modifies this
      ensures Valid() && keys == old(keys) && offered == old(offered) + {curSol}
      ensures nonDominated == Offered(old(nonDominated), curSol, keys)
      ensures marked == if Covers(old(nonDominated), curSol, keys) then curSol else curSol.(dominated := true)
      ensures BestOffered(nonDominated, keys, offered)
    {
      hide ValidSet, Dominates, BestOffered;
      SetMetrics(nonDominated, keys, offered);
      OfferedValid(nonDominated, curSol, keys, offered);
      ValidIsBest(Offered(nonDominated, curSol, keys), keys, offered + {curSol});
      offered := offered + {curSol};
      var members := nonDominated;
      var i := 0;
      while i < |members|
        invariant 0 <= i <= |members| && forall j :: 0 <= j < i ==> !Dominates(members[j], curSol)
      {
        if Dominates(members[i], curSol) {
          return curSol;
        }
        i := i + 1;
      }
      var newSolutions := Undominated(members, curSol, keys);
      marked := curSol.(dominated := true);
      nonDominated := newSolutions + [marked];
    }
  }

  lemma SetMetrics(s: seq<Solution>, keys: set<string>, offered: set<Solution>)
    requires ValidSet(s, keys, offered)
    ensures SameMetrics(s, keys)
  {}
}
