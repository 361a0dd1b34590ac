/** The leaf an outcome leads to, and the trees in which every combination of intervals leads to a leaf of its own. */
module OutcomePaths {
  import opened MetricPartition
  import opened ProbabilityTree

  // ----- Following an outcome -----

  /** The interval an outcome has for a metric; a metric it does not name counts as zero. */
  function Value(current: Cell, name: string): (x: Interval) {
    if name in current then current[name] else (0.0, 0.0)
  }

  /** The outcome has a branch at the vertex. */
  ghost predicate HasBranch(t: seq<Node>, v: nat, current: Cell)
    requires WellFormed(t) && v < |t|
  {
    exists c :: c in t[v].children && t[c].arrived == Value(current, t[v].metricName)
  }

  /** The first of some vertices that is arrived at by an interval. */
  ghost function FirstArrived(t: seq<Node>, vs: seq<int>, x: Interval): (c: int)
    requires Vertices(t, vs) && exists c :: c in vs && t[c].arrived == x
    ensures c in vs && t[c].arrived == x
  {
    if t[vs[0]].arrived == x then vs[0] else
    assert forall c :: c in vs && c != vs[0] ==> c in vs[1..];
    FirstArrived(t, vs[1..], x)
  }

  /** The branch that is taken. */
  ghost function Taken(t: seq<Node>, v: nat, current: Cell): (c: nat)
    requires WellFormed(t) && v < |t| && HasBranch(t, v, current)
    ensures v < c < |t| && t[c].father == v && t[c].arrived == Value(current, t[v].metricName)
  {
    ChildrenVertices(t, v);
    FirstArrived(t, t[v].children, Value(current, t[v].metricName))
  }

  lemma ChildrenVertices(t: seq<Node>, v: nat)
    requires WellFormed(t) && v < |t|
    ensures Vertices(t, t[v].children)
  {
    forall i | 0 <= i < |t[v].children|
      ensures 0 <= t[v].children[i] < |t|
    {
      assert t[v].children[i] in t[v].children;
    }
  }

  /** The outcome leads on to a leaf: wherever it gets, it has a branch. */
  ghost predicate Followable(t: seq<Node>, v: nat, current: Cell)
    requires WellFormed(t) && v < |t|
    decreases |t| - v
  {
    t[v].children == [] || (HasBranch(t, v, current) && Followable(t, Taken(t, v, current), current))
  }

  /** That leaf. */
  ghost function Reached(t: seq<Node>, v: nat, current: Cell): (leaf: nat)
    requires WellFormed(t) && v < |t| && Followable(t, v, current)
    ensures leaf < |t| && t[leaf].children == []
    decreases |t| - v
  {
    if t[v].children == [] then v else Reached(t, Taken(t, v, current), current)
  }

  /** All edges on the way to a vertex are those of the outcome. */
  ghost predicate OnPath(t: seq<Node>, v: nat, current: Cell)
    requires WellFormed(t) && v < |t|
    decreases v
  {
    t[v].father >= 0 ==>
      && t[v].arrived == Value(current, t[t[v].father].metricName)
      && OnPath(t, t[v].father, current)
  }

  lemma {:induction false} ReachedOnPath(t: seq<Node>, v: nat, current: Cell)
    requires WellFormed(t) && v < |t| && Followable(t, v, current) && (t[v].father < 0 || OnPath(t, v, current))
    ensures OnPath(t, Reached(t, v, current), current)
    decreases |t| - v
  {
    if t[v].children != [] {
      ReachedOnPath(t, Taken(t, v, current), current);
    }
  }

  /** A vertex on the path of an outcome stands for a part of that outcome. */
  lemma {:induction false} PathCell(t: seq<Node>, v: nat, current: Cell)
    requires WellFormed(t) && v < |t| && OnPath(t, v, current)
    ensures forall k :: k in CellOf(t, v) ==> CellOf(t, v)[k] == Value(current, k)
    decreases v
  {
    if t[v].father >= 0 {
      PathCell(t, t[v].father, current);
    }
  }

  // ----- Regular trees -----

  ghost function Depth(t: seq<Node>, v: nat): (d: nat)
    requires WellFormed(t) && v < |t|
    decreases v
  {
    if t[v].father < 0 then 0 else 1 + Depth(t, t[v].father)
  }

  /** The edges of the vertex are about the metric, and there is one for each of its intervals. */
  ghost predicate Offers(t: seq<Node>, v: nat, m: Metric)
    requires WellFormed(t) && v < |t|
  {
    && t[v].metricName == m.name
    && forall x :: x in m.intervals ==> exists c :: c in t[v].children && t[c].arrived == x
  }

  /** Every vertex offers the metric of its depth; below the last metric are the leaves. */
  ghost predicate Regular(t: seq<Node>, metrics: seq<Metric>) {
    && WellFormed(t)
    && forall v :: 0 <= v < |t| ==>
      if t[v].children == [] then Depth(t, v) == |metrics|
      else Depth(t, v) < |metrics| && Offers(t, v, metrics[Depth(t, v)])
  }

  lemma CombinationBranch(t: seq<Node>, metrics: seq<Metric>, c: Cell, v: nat)
    requires Regular(t, metrics) && Combines(c, metrics) && v < |t| && t[v].children != []
    ensures HasBranch(t, v, c)
  {
    hide WellFormed, Depth;
    var m := metrics[Depth(t, v)];
    assert m.name in c && c[m.name] in m.intervals;
  }

  lemma {:induction false} CombinationFollowable(t: seq<Node>, metrics: seq<Metric>, c: Cell, v: nat)
    requires Regular(t, metrics) && Combines(c, metrics) && v < |t|
    ensures Followable(t, v, c)
    decreases |t| - v
  {
    hide WellFormed, Combines, HasBranch;
    if t[v].children != [] {
      CombinationBranch(t, metrics, c, v);
      CombinationFollowable(t, metrics, c, Taken(t, v, c));
    }
  }

  /** What a vertex hangs on. */
  lemma FatherOffers(t: seq<Node>, metrics: seq<Metric>, v: nat)
    requires Regular(t, metrics) && v < |t| && Depth(t, v) > 0
    ensures WellFormed(t) && 0 <= t[v].father < v && Depth(t, v) == Depth(t, t[v].father) + 1
    ensures Depth(t, t[v].father) < |metrics| && t[t[v].father].metricName == metrics[Depth(t, t[v].father)].name
    ensures CellOf(t, v) == map[t[t[v].father].metricName := t[v].arrived] + CellOf(t, t[v].father)
  {
    FatherBefore(t, v);
    hide WellFormed;
    assert t[t[v].father].children != [];
  }

  lemma FatherBefore(t: seq<Node>, v: nat)
    requires WellFormed(t) && v < |t| && t[v].father >= 0
    ensures t[v].father < v && v in t[t[v].father].children
  {}

  /** The outcome of a vertex has an interval for the metric of each level above it. */
  lemma {:induction false} CellNames(t: seq<Node>, metrics: seq<Metric>, v: nat, i: nat)
    requires Regular(t, metrics) && v < |t| && i < Depth(t, v)
    ensures i < |metrics| && metrics[i].name in CellOf(t, v)
    decreases v
  {
    hide Regular, WellFormed, CellOf, Depth;
    FatherOffers(t, metrics, v);
    var f := t[v].father;
    if i < Depth(t, f) {
      CellNames(t, metrics, f, i);
      InMerged(t[f].metricName, t[v].arrived, CellOf(t, f), metrics[i].name);
    } else {
      InMerged(t[f].metricName, t[v].arrived, CellOf(t, f), metrics[i].name);
    }
  }

  lemma InMerged(name: string, x: Interval, c: Cell, k: string)
    ensures k in map[name := x] + c <==> k == name || k in c
  {}

  lemma RootEmpty(t: seq<Node>, v: nat)
    requires WellFormed(t) && v < |t| && Depth(t, v) == 0
    ensures CellOf(t, v) == map[]
  {}

  /** It has none for anything else. */
  lemma {:induction false} CellNamed(t: seq<Node>, metrics: seq<Metric>, v: nat, k: string)
    requires Regular(t, metrics) && v < |t| && k in CellOf(t, v)
    ensures Named(metrics, k)
    decreases v
  {
    hide Regular, WellFormed, CellOf, Depth, Named;
    RegularWell(t, metrics);
    if Depth(t, v) == 0 {
      RootEmpty(t, v);
    } else {
      FatherOffers(t, metrics, v);
      InMerged(t[t[v].father].metricName, t[v].arrived, CellOf(t, t[v].father), k);
      if k == t[t[v].father].metricName {
        NamedAt(metrics, Depth(t, t[v].father));
      } else {
        CellNamed(t, metrics, t[v].father, k);
      }
    }
  }

  lemma RegularWell(t: seq<Node>, metrics: seq<Metric>)
    requires Regular(t, metrics)
    ensures WellFormed(t)
  {}

  lemma NamedAt(metrics: seq<Metric>, i: nat)
    requires i < |metrics|
    ensures Named(metrics, metrics[i].name)
  {}

  /** The outcome of a leaf of a regular tree has the intervals of exactly the metrics. */
  lemma LeafNames(t: seq<Node>, metrics: seq<Metric>, leaf: nat, k: string)
    requires Regular(t, metrics) && leaf < |t| && t[leaf].children == []
    ensures k in CellOf(t, leaf) <==> Named(metrics, k)
  {
    assert Depth(t, leaf) == |metrics|;
    hide Regular, WellFormed, CellOf, Depth;
    if k in CellOf(t, leaf) {
      CellNamed(t, metrics, leaf, k);
    }
    if i :| 0 <= i < |metrics| && metrics[i].name == k {
      CellNames(t, metrics, leaf, i);
    }
  }

  lemma CombinationNames(metrics: seq<Metric>, c: Cell, k: string)
    requires Combines(c, metrics)
    ensures k in c <==> Named(metrics, k)
  {}

  /** In a regular tree every combination of intervals leads to a leaf, and that leaf stands for exactly it. */
  lemma OutcomeReached(t: seq<Node>, metrics: seq<Metric>, c: Cell)
    requires Regular(t, metrics) && Combines(c, metrics)
    ensures WellFormed(t) && |t| > 0 && Followable(t, 0, c) && CellOf(t, Reached(t, 0, c)) == c
  {
    hide Reached, Followable, CellOf, OnPath, Depth, Combines, Named, Offers, WellFormed;
    RegularRoot(t, metrics);
    CombinationFollowable(t, metrics, c, 0);
    ReachedOnPath(t, 0, c);
    PathCell(t, Reached(t, 0, c), c);
    LeafOutcome(t, metrics, Reached(t, 0, c), c);
  }

  lemma RegularRoot(t: seq<Node>, metrics: seq<Metric>)
    requires Regular(t, metrics)
    ensures WellFormed(t) && |t| > 0 && t[0].father < 0
  {}

  lemma LeafOutcome(t: seq<Node>, metrics: seq<Metric>, leaf: nat, c: Cell)
    requires Regular(t, metrics) && leaf < |t| && t[leaf].children == [] && Combines(c, metrics)
    requires forall k :: k in CellOf(t, leaf) ==> CellOf(t, leaf)[k] == Value(c, k)
    ensures CellOf(t, leaf) == c
  {
    hide CellOf, Depth, Regular, Combines, Named, WellFormed;
    RegularWell(t, metrics);
    forall k: string
      ensures k in CellOf(t, leaf) <==> k in c
    {
      LeafNames(t, metrics, leaf, k);
      CombinationNames(metrics, c, k);
    }
  }

  // ----- Trees that differ in what their vertices carry -----

  lemma {:induction false} DepthKept(t: seq<Node>, u: seq<Node>, v: nat)
    requires WellFormed(t) && WellFormed(u) && SameShape(t, u) && v < |t|
    ensures Depth(u, v) == Depth(t, v)
    decreases v
  {
    if t[v].father >= 0 {
      DepthKept(t, u, t[v].father);
    }
  }

  lemma SameVertex(t: seq<Node>, u: seq<Node>, v: nat)
    requires SameTree(t, u) && v < |t|
    ensures v < |u| && t[v].father == u[v].father && t[v].arrived == u[v].arrived
    ensures t[v].metricName == u[v].metricName && t[v].children == u[v].children
  {
    assert t[v].(probability := 0.0, virtualSamples := 0).father == t[v].father;
    assert u[v].(probability := 0.0, virtualSamples := 0).father == u[v].father;
  }

  lemma OffersKept(t: seq<Node>, u: seq<Node>, v: nat, m: Metric)
    requires WellFormed(t) && WellFormed(u) && SameTree(t, u) && v < |t| && Offers(t, v, m)
    ensures Offers(u, v, m)
  {
    hide SameTree;
    SameVertex(t, u, v);
    forall x | x in m.intervals
      ensures exists c :: c in u[v].children && u[c].arrived == x
    {
      var c :| c in t[v].children && t[c].arrived == x;
      SameVertex(t, u, c);
      assert c in u[v].children && u[c].arrived == x;
    }
  }

  lemma RegularKept(t: seq<Node>, u: seq<Node>, metrics: seq<Metric>)
    requires SameTree(t, u) && Regular(t, metrics)
    ensures Regular(u, metrics)
  {
    SameTreeShape(t, u);
    hide SameTree, SameShape, WellFormed, Offers, Depth;
    forall v | 0 <= v < |u|
      ensures if u[v].children == [] then Depth(u, v) == |metrics|
        else Depth(u, v) < |metrics| && Offers(u, v, metrics[Depth(u, v)])
    {
      SameLength(t, u);
      SameVertex(t, u, v);
      DepthKept(t, u, v);
      if t[v].children != [] {
        OffersKept(t, u, v, metrics[Depth(t, v)]);
      }
    }
  }

  lemma SameLength(t: seq<Node>, u: seq<Node>)
    requires SameTree(t, u)
    ensures |t| == |u|
  {}

  lemma {:induction false} FirstKept(t: seq<Node>, u: seq<Node>, vs: seq<int>, x: Interval)
    requires SameTree(t, u) && Vertices(t, vs) && exists c :: c in vs && t[c].arrived == x
    ensures Vertices(u, vs) && (exists c :: c in vs && u[c].arrived == x)
    ensures FirstArrived(u, vs, x) == FirstArrived(t, vs, x)
  {
    hide SameTree;
    SameLength(t, u);
    var d :| d in vs && t[d].arrived == x;
    SameVertex(t, u, d);
    SameVertex(t, u, vs[0]);
    if t[vs[0]].arrived != x {
      assert d in vs[1..];
      FirstKept(t, u, vs[1..], x);
    }
  }

  lemma TakenKept(t: seq<Node>, u: seq<Node>, v: nat, current: Cell)
    requires WellFormed(t) && WellFormed(u) && SameTree(t, u) && v < |t| && HasBranch(t, v, current)
    ensures v < |u| && HasBranch(u, v, current) && Taken(u, v, current) == Taken(t, v, current)
  {
    hide SameTree, FirstArrived;
    SameVertex(t, u, v);
    ChildrenVertices(t, v);
    FirstKept(t, u, t[v].children, Value(current, t[v].metricName));
  }

  /** An outcome that leads to a leaf leads to the same one when only samples and probabilities have changed. */
  lemma {:induction false} ReachedKept(t: seq<Node>, u: seq<Node>, v: nat, current: Cell)
    requires WellFormed(t) && WellFormed(u) && SameTree(t, u) && v < |t| && Followable(t, v, current)
    ensures v < |u| && Followable(u, v, current) && Reached(u, v, current) == Reached(t, v, current)
    decreases |t| - v
  {
    hide SameTree, HasBranch, Taken, WellFormed;
    SameVertex(t, u, v);
    if t[v].children != [] {
      TakenKept(t, u, v, current);
      ReachedKept(t, u, Taken(t, v, current), current);
    }
  }

  // ----- Growing a regular tree -----

  /** The tree `start` after `leaf` has got its first `n` children, and nothing else has changed. */
  ghost predicate Grown(start: seq<Node>, t: seq<Node>, leaf: nat, metric: Metric, n: nat) {
    && leaf < |start| && n <= |metric.intervals| && |t| == |start| + n
    && (forall v :: 0 <= v < |start| && v != leaf ==> t[v] == start[v])
    && t[leaf] == start[leaf].(metricName := t[leaf].metricName, children := t[leaf].children)
    && (if n == 0 then t[leaf] == start[leaf] else t[leaf].metricName == metric.name)
    && |t[leaf].children| == n
    && (forall j :: 0 <= j < n ==> t[leaf].children[j] == |start| + j)
    && forall j :: 0 <= j < n ==> t[|start| + j] == Node(leaf, metric.intervals[j], "", [], 0.0, 0)
  }

  lemma GrownStep(start: seq<Node>, t: seq<Node>, leaf: nat, metric: Metric, n: nat)
    requires n < |metric.intervals| && Grown(start, t, leaf, metric, n)
    ensures Grown(start, Attached(t, leaf, metric.name, metric.intervals[n]), leaf, metric, n + 1)
  {}

  /** A level under way: what is below the old tree is one level deeper, the leaves still to come are not yet inner. */
  ghost predicate Graded(start: seq<Node>, t: seq<Node>, curLeaves: seq<int>, metrics: seq<Metric>, m: Metric, i: nat) {
    && WellFormed(start) && WellFormed(t) && SameShape(start, t)
    && (forall v :: |start| <= v < |t| ==> t[v].children == [] && Depth(t, v) == |metrics| + 1)
    && (forall v :: 0 <= v < |start| ==> GradedVertex(t, v, metrics, m))
    && i <= |curLeaves| && forall j :: 0 <= j < i ==> 0 <= curLeaves[j] < |t| && t[curLeaves[j]].children != []
  }

  ghost predicate GradedVertex(t: seq<Node>, v: nat, metrics: seq<Metric>, m: Metric)
    requires WellFormed(t) && v < |t|
  {
    if t[v].children == [] then Depth(t, v) == |metrics|
    else Depth(t, v) <= |metrics| && Offers(t, v, (metrics + [m])[Depth(t, v)])
  }

  lemma GradedStart(start: seq<Node>, curLeaves: seq<int>, metrics: seq<Metric>, m: Metric)
    requires Regular(start, metrics)
    ensures Graded(start, start, curLeaves, metrics, m, 0)
  {}

  lemma OffersGrown(t: seq<Node>, u: seq<Node>, v: nat, m: Metric)
    requires WellFormed(t) && WellFormed(u) && SameShape(t, u) && v < |t| && u[v] == t[v] && Offers(t, v, m)
    ensures Offers(u, v, m)
  {
    ChildrenVertices(t, v);
    hide WellFormed;
    forall x | x in m.intervals
      ensures exists c :: c in u[v].children && u[c].arrived == x
    {
      var c :| c in t[v].children && t[c].arrived == x;
      assert c in u[v].children && u[c].arrived == x;
    }
  }

  lemma OffersNew(t: seq<Node>, u: seq<Node>, leaf: nat, m: Metric)
    requires Grown(t, u, leaf, m, |m.intervals|) && |m.intervals| > 0 && WellFormed(u)
    ensures Offers(u, leaf, m)
  {
    hide WellFormed;
    forall x | x in m.intervals
      ensures exists c :: c in u[leaf].children && u[c].arrived == x
    {
      var j :| 0 <= j < |m.intervals| && m.intervals[j] == x;
      assert u[leaf].children[j] in u[leaf].children && u[|t| + j].arrived == x;
    }
  }

  lemma GradedOld(t: seq<Node>, u: seq<Node>, leaf: nat, v: nat, metrics: seq<Metric>, m: Metric)
    requires WellFormed(t) && WellFormed(u) && SameShape(t, u) && |m.intervals| > 0 && v < |t|
    requires Grown(t, u, leaf, m, |m.intervals|) && t[leaf].children == []
    requires GradedVertex(t, v, metrics, m)
    ensures GradedVertex(u, v, metrics, m)
  {
    hide WellFormed, SameShape, Depth, Offers;
    DepthKept(t, u, v);
    if v == leaf {
      OffersNew(t, u, leaf, m);
      assert (metrics + [m])[|metrics|] == m;
    } else if t[v].children != [] {
      OffersGrown(t, u, v, (metrics + [m])[Depth(t, v)]);
    }
  }

  lemma GradedNew(t: seq<Node>, u: seq<Node>, leaf: nat, v: nat, m: Metric)
    requires WellFormed(t) && WellFormed(u) && SameShape(t, u) && |t| <= v < |u|
    requires Grown(t, u, leaf, m, |m.intervals|)
    ensures u[v].children == [] && Depth(u, v) == Depth(t, leaf) + 1
  {
    assert u[|t| + (v - |t|)] == Node(leaf, m.intervals[v - |t|], "", [], 0.0, 0);
    DepthKept(t, u, leaf);
  }

  lemma DepthGrown(start: seq<Node>, t: seq<Node>, u: seq<Node>, leaf: nat, v: nat, m: Metric)
    requires WellFormed(t) && WellFormed(u) && SameShape(t, u) && |start| <= v < |t| && leaf < |start|
    requires Grown(t, u, leaf, m, |m.intervals|)
    ensures u[v] == t[v] && Depth(u, v) == Depth(t, v)
  {
    DepthKept(t, u, v);
  }

  lemma GradedStep(start: seq<Node>, t: seq<Node>, u: seq<Node>, curLeaves: seq<int>, metrics: seq<Metric>, m: Metric,
                   i: nat)
    requires i < |curLeaves| && 0 <= curLeaves[i] < |start| && Graded(start, t, curLeaves, metrics, m, i)
    requires curLeaves[i] < |t| && t[curLeaves[i]].children == [] && |m.intervals| > 0
    requires WellFormed(u) && SameShape(t, u) && SameShape(start, u) && Grown(t, u, curLeaves[i], m, |m.intervals|)
    ensures Graded(start, u, curLeaves, metrics, m, i + 1)
  {
    assert |start| <= |t|;
    hide WellFormed, SameShape, Depth, GradedVertex;
    var leaf: nat := curLeaves[i];
    GradedLeaf(t, leaf, metrics, m);
    forall v | |start| <= v < |u|
      ensures u[v].children == [] && Depth(u, v) == |metrics| + 1
    {
      if v < |t| {
        DepthGrown(start, t, u, leaf, v, m);
      } else {
        GradedNew(t, u, leaf, v, m);
      }
    }
    forall v | 0 <= v < |start|
      ensures GradedVertex(u, v, metrics, m)
    {
      GradedOld(t, u, leaf, v, metrics, m);
    }
    assert |u[leaf].children| > 0;
  }

  lemma GradedLeaf(t: seq<Node>, leaf: nat, metrics: seq<Metric>, m: Metric)
    requires WellFormed(t) && leaf < |t| && GradedVertex(t, leaf, metrics, m) && t[leaf].children == []
    ensures Depth(t, leaf) == |metrics|
  {}

  lemma GradedInner(start: seq<Node>, t: seq<Node>, metrics: seq<Metric>, m: Metric, v: nat)
    requires Graded(start, t, Leaves(start, |start|), metrics, m, |Leaves(start, |start|)|) && v < |start|
    ensures v < |t| && t[v].children != []
  {
    hide WellFormed, SameShape, Leaves, GradedVertex;
    ShapeInner(start, t, v);
    if start[v].children == [] {
      assert v in Leaves(start, |start|);
    }
  }

  /** When every leaf has had its turn the tree is regular with the new metric. */
  lemma GradedDone(start: seq<Node>, t: seq<Node>, metrics: seq<Metric>, m: Metric)
    requires Graded(start, t, Leaves(start, |start|), metrics, m, |Leaves(start, |start|)|)
    ensures Regular(t, metrics + [m])
  {
    hide WellFormed, SameShape, Depth, Offers;
    forall v | 0 <= v < |t|
      ensures if t[v].children == [] then Depth(t, v) == |metrics| + 1
        else Depth(t, v) <= |metrics| && Offers(t, v, (metrics + [m])[Depth(t, v)])
    {
      if v < |start| {
        assert GradedVertex(t, v, metrics, m);
        GradedInner(start, t, metrics, m, v);
      } else {
        assert t[v].children == [];
      }
    }
  }

  /** Inner vertices stay inner. */
  lemma ShapeInner(t: seq<Node>, u: seq<Node>, v: nat)
    requires WellFormed(t) && WellFormed(u) && SameShape(t, u) && v < |t|
    ensures v < |u| && (t[v].children != [] ==> u[v].children != [])
  {
    if t[v].children != [] {
      var c := t[v].children[0];
      assert c in t[v].children && t[c].father == v;
      assert c in u[u[c].father].children;
    }
  }
}
