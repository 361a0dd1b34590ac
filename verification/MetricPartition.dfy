/** How an estimated metric interval is cut into the outcomes of an action. */
module MetricPartition {

  datatype Result<T> = Ok(value: T) | Err(message: string)

  type Interval = (real, real)

  /** The pieces tile the interval from `first` to `last`, each no wider than `width`. */
  ghost predicate Tiles(pieces: seq<Interval>, first: real, last: real, width: real) {
    && |pieces| > 0
    && pieces[0].0 == first && pieces[|pieces| - 1].1 == last
    && (forall i :: 0 <= i < |pieces| - 1 ==> pieces[i].1 == pieces[i + 1].0)
    && (forall i :: 0 <= i < |pieces| ==> pieces[i].0 <= pieces[i].1 <= pieces[i].0 + width)
  }

  function Times(k: nat, w: real): (r: real) { k as real * w }

  /** The widest piece: lambda times the centre of the interval, or what the branch limit asks for. */
  function Width(first: real, last: real, lambda: real, maxBranchWidth: nat): (w: real)
    requires 0.0 <= first <= last && lambda > 0.0 && maxBranchWidth > 0
    ensures w >= 0.0 && (first < last ==> w > 0.0)
    ensures last - first <= Times(maxBranchWidth, w)
  {
    var w := (last + first) / 2.0 * lambda;
    WidthPositive(first, last, lambda);
    if w > 0.0 && (last - first) / w > maxBranchWidth as real then
      (last - first) / maxBranchWidth as real
    else
      QuotientBound(last - first, w, maxBranchWidth as real);
      w
  }

  lemma WidthPositive(first: real, last: real, lambda: real)
    requires 0.0 <= first <= last && lambda > 0.0
    ensures (last + first) / 2.0 * lambda >= 0.0 && (first < last ==> (last + first) / 2.0 * lambda > 0.0)
    ensures (last + first) / 2.0 * lambda == 0.0 ==> first == last
  {}

  lemma QuotientBound(x: real, w: real, n: real)
    requires x >= 0.0 && w >= 0.0 && n > 0.0 && (w == 0.0 ==> x == 0.0)
    requires w > 0.0 ==> x / w <= n
    ensures x <= n * w
  {
    if w > 0.0 {
      assert x == x / w * w;
    }
  }

  /** All pieces are `w` wide, but the last may be narrower. */
  ghost predicate Even(pieces: seq<Interval>, w: real) {
    && (forall i :: 0 <= i < |pieces| - 1 ==> pieces[i].1 - pieces[i].0 == w)
    && (pieces != [] ==> pieces[|pieces| - 1].1 - pieces[|pieces| - 1].0 <= w)
  }

  /**
   * The pieces are lambda times the centre of the interval wide, the last one perhaps less, if so many are allowed;
   * else there are as many as are allowed, all of one width.
   */
  ghost predicate Accurate(pieces: seq<Interval>, first: real, last: real, lambda: real, maxBranchWidth: nat)
    requires pieces != [] && maxBranchWidth > 0
  {
    if last - first <= maxBranchWidth as real * (lambda * (first + last) / 2.0) then
      && (forall i :: 0 <= i < |pieces| - 1 ==> pieces[i].1 - pieces[i].0 == lambda * (first + last) / 2.0)
      && pieces[|pieces| - 1].1 - pieces[|pieces| - 1].0 <= lambda * (first + last) / 2.0
    else
      && |pieces| == maxBranchWidth
      && forall i :: 0 <= i < |pieces| ==> pieces[i].1 - pieces[i].0 == (last - first) / maxBranchWidth as real
  }

  /** Cuts an interval into at most `maxBranchWidth` pieces; refuses intervals that are reversed or negative. */
  method PartitionMetrics(first: real, last: real, lambda: real, maxBranchWidth: nat) returns (r: Result<seq<Interval>>)
    requires lambda > 0.0 && maxBranchWidth > 0
    ensures r.Err? <==> first > last || first < 0.0 || last < 0.0
    ensures r.Ok? ==> Tiles(r.value, first, last, Width(first, last, lambda, maxBranchWidth))
    ensures r.Ok? ==> |r.value| <= maxBranchWidth
    ensures r.Ok? && first < last ==> forall i :: 0 <= i < |r.value| ==> r.value[i].0 < r.value[i].1
    ensures r.Ok? && first == last ==> r.value == [(first, last)]
    ensures r.Ok? ==> Accurate(r.value, first, last, lambda, maxBranchWidth)
  {
    if first > last {
      return Err("the first boundary is expected to be the smaller");
    }
    if first < 0.0 || last < 0.0 {
      return Err("the interval is negative");
    }
    var pieces: seq<Interval> := [];
    var startInter := first;
    var maxInter := Width(first, last, lambda, maxBranchWidth);
    hide Width, Times, Tiles, Even, Full, Accurate;
    MorePieces(maxInter, 0);
    EvenNone(maxInter);
    while startInter < last
      invariant first <= startInter <= last
      invariant if pieces == [] then startInter == first else first < last
      invariant pieces != [] ==> Tiles(pieces, first, startInter, maxInter)
      invariant Even(pieces, maxInter)
      invariant forall i :: 0 <= i < |pieces| ==> pieces[i].0 < pieces[i].1
      invariant startInter < last ==> startInter == first + Times(|pieces|, maxInter) && Full(pieces, maxInter)
      invariant |pieces| <= maxBranchWidth
      decreases maxBranchWidth - |pieces|
    {
      FewerThan(first, last, maxInter, |pieces|, maxBranchWidth);
      var nextInter := startInter + maxInter;
      if nextInter >= last {
        nextInter := last;
      }
      MorePieces(maxInter, |pieces|);
      TilesMore(pieces, first, startInter, nextInter, maxInter);
      EvenMore(pieces, startInter, nextInter, maxInter);
      pieces := pieces + [(startInter, nextInter)];
      startInter := nextInter;
    }
    if |pieces| == 0 {
      pieces := [(first, last)];
      TilesMore([], first, first, last, maxInter);
      EvenMore([], first, last, maxInter);
      assert [] + [(first, last)] == [(first, last)];
      MorePieces(maxInter, 0);
    }
    WidthsKnown(pieces, first, last, lambda, maxBranchWidth);
    return Ok(pieces);
  }

  /** All pieces so far have the whole width. */
  ghost predicate Full(pieces: seq<Interval>, w: real) {
    forall i :: 0 <= i < |pieces| ==> pieces[i].1 - pieces[i].0 == w
  }

  lemma EvenNone(w: real)
    ensures Even([], w) && Full([], w)
  {}

  lemma EvenMore(pieces: seq<Interval>, mid: real, next: real, w: real)
    requires Full(pieces, w) && mid <= next <= mid + w
    ensures Even(pieces + [(mid, next)], w) && (next == mid + w ==> Full(pieces + [(mid, next)], w))
  {}

  lemma {:induction false} PieceStart(pieces: seq<Interval>, first: real, last: real, w: real, i: nat)
    requires Tiles(pieces, first, last, w) && Even(pieces, w) && i < |pieces|
    ensures pieces[i].0 == first + Times(i, w)
  {
    hide Times;
    MorePieces(w, 0);
    if i > 0 {
      PieceStart(pieces, first, last, w, i - 1);
      MorePieces(w, i - 1);
      assert pieces[i - 1].1 == pieces[i].0;
    }
  }

  /** What the width is: lambda times the centre, unless that asks for more pieces than the limit. */
  lemma WidthIs(first: real, last: real, lambda: real, maxBranchWidth: nat)
    requires 0.0 <= first <= last && lambda > 0.0 && maxBranchWidth > 0
    ensures var c, n := lambda * (first + last) / 2.0, maxBranchWidth as real;
      var w := Width(first, last, lambda, maxBranchWidth);
      if last - first <= n * c then w == c else w == (last - first) / n && Times(maxBranchWidth, w) == last - first
  {
    var c, n := (last + first) / 2.0 * lambda, maxBranchWidth as real;
    assert c == lambda * (first + last) / 2.0;
    WidthPositive(first, last, lambda);
    if c > 0.0 {
      QuotientAbove(last - first, c, n);
    }
  }

  lemma QuotientAbove(x: real, w: real, n: real)
    requires w > 0.0 && n > 0.0
    ensures x / w > n <==> x > n * w
    ensures n * (x / n) == x
  {
    var q := x / w;
    assert q * w == x;
    if q > n {
      assert q * w > n * w;
    } else {
      assert q * w <= n * w;
    }
  }

  /** At the branch limit no piece is missing and none is narrower. */
  lemma LimitReached(pieces: seq<Interval>, first: real, last: real, w: real, n: nat)
    requires Tiles(pieces, first, last, w) && Even(pieces, w) && |pieces| <= n && first < last && w > 0.0
    requires Times(n, w) == last - first
    ensures |pieces| == n && Full(pieces, w)
  {
    hide Times;
    var k := |pieces|;
    PieceStart(pieces, first, last, w, k - 1);
    MorePieces(w, k - 1);
    if k < n {
      TimesMonotone(k, n - 1, w);
      MorePieces(w, n - 1);
      assert false;
    }
  }

  lemma WidthsKnown(pieces: seq<Interval>, first: real, last: real, lambda: real, maxBranchWidth: nat)
    requires 0.0 <= first <= last && lambda > 0.0 && 0 < |pieces| <= maxBranchWidth
    requires var w := Width(first, last, lambda, maxBranchWidth); Tiles(pieces, first, last, w) && Even(pieces, w)
    ensures Accurate(pieces, first, last, lambda, maxBranchWidth)
  {
    var w := Width(first, last, lambda, maxBranchWidth);
    WidthIs(first, last, lambda, maxBranchWidth);
    hide Width, Times, Tiles;
    if last - first > maxBranchWidth as real * (lambda * (first + last) / 2.0) {
      CentrePositive(first, last, lambda, maxBranchWidth as real);
      LimitReached(pieces, first, last, w, maxBranchWidth);
    }
  }

  lemma CentrePositive(first: real, last: real, lambda: real, n: real)
    requires 0.0 <= first <= last && lambda > 0.0 && n > 0.0 && last - first > n * (lambda * (first + last) / 2.0)
    ensures first < last
  {
    assert lambda * (first + last) >= 0.0;
    assert n * (lambda * (first + last) / 2.0) >= 0.0;
  }

  lemma TilesMore(pieces: seq<Interval>, first: real, mid: real, next: real, w: real)
    requires if pieces == [] then mid == first else Tiles(pieces, first, mid, w)
    requires mid <= next <= mid + w
    ensures Tiles(pieces + [(mid, next)], first, next, w)
  {}

  lemma TimesMonotone(n: nat, k: nat, w: real)
    requires n <= k && w >= 0.0
    ensures Times(n, w) <= Times(k, w)
  {}

  lemma FewerThan(first: real, last: real, w: real, k: nat, n: nat)
    requires w >= 0.0 && first + Times(k, w) < last && last - first <= Times(n, w)
    ensures k < n
  {
    if k >= n {
      TimesMonotone(n, k, w);
    }
  }

  lemma MorePieces(w: real, k: nat)
    ensures Times(k + 1, w) == Times(k, w) + w && Times(0, w) == 0.0
  {}
}
