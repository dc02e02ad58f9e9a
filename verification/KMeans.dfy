/** Lloyd's k-means over the reals. */
module KMeans {

  type Point = seq<real>

  ghost predicate InSpace(ps: seq<Point>, dim: nat) {
    forall i :: 0 <= i < |ps| ==> |ps[i]| == dim
  }

  // Squared distance over the first `dim` coordinates; its order is that of the distance itself.
  function Dist(a: Point, b: Point, dim: nat): real
    requires dim <= |a| && dim <= |b|
  {
    if dim == 0 then 0.0 else Dist(a, b, dim - 1) + (a[dim - 1] - b[dim - 1]) * (a[dim - 1] - b[dim - 1])
  }

  // ---------------------------------------------------------------- one iteration

  // `argmin`: the first nearest centre among the first `upto`.
  function Nearest(p: Point, centers: seq<Point>, dim: nat, upto: nat): nat
    requires 0 < upto <= |centers| && |p| == dim && InSpace(centers, dim)
    ensures Nearest(p, centers, dim, upto) < upto
  {
    if upto == 1 then 0
    else
      var best := Nearest(p, centers, dim, upto - 1);
      if Dist(p, centers[upto - 1], dim) < Dist(p, centers[best], dim) then upto - 1 else best
  }

  function Labels(x: seq<Point>, centers: seq<Point>, dim: nat): (labels: seq<nat>)
    requires InSpace(x, dim) && InSpace(centers, dim) && centers != []
    ensures |labels| == |x|
    ensures forall i :: 0 <= i < |x| ==> labels[i] == Nearest(x[i], centers, dim, |centers|)
  {
    seq(|x|, i requires 0 <= i < |x| => Nearest(x[i], centers, dim, |centers|))
  }

  // The points with label `j`.
  function Members(x: seq<Point>, labels: seq<nat>, j: nat): seq<Point>
    requires |labels| == |x|
  {
    if x == [] then []
    else Members(x[..|x| - 1], labels[..|x| - 1], j) + if labels[|x| - 1] == j then [x[|x| - 1]] else []
  }

  function Sum(ps: seq<Point>, d: nat): real
    requires forall i :: 0 <= i < |ps| ==> d < |ps[i]|
  {
    if ps == [] then 0.0 else Sum(ps[..|ps| - 1], d) + ps[|ps| - 1][d]
  }

  function Mean(ps: seq<Point>, dim: nat): Point
    requires ps != [] && InSpace(ps, dim)
  {
    seq(dim, d requires 0 <= d < dim => Sum(ps, d) / |ps| as real)
  }

  lemma {:induction false} MembersInSpace(x: seq<Point>, labels: seq<nat>, j: nat, dim: nat)
    requires |labels| == |x| && InSpace(x, dim)
    ensures InSpace(Members(x, labels, j), dim)
  {
    if x != [] {
      assert InSpace(x[..|x| - 1], dim);
      MembersInSpace(x[..|x| - 1], labels[..|x| - 1], j, dim);
    }
  }

  // Centre `j` moves to the mean of its members; a centre without members stays.
  function Update(x: seq<Point>, labels: seq<nat>, centers: seq<Point>, j: nat, dim: nat): (moved: seq<Point>)
    requires |labels| == |x| && InSpace(x, dim) && InSpace(centers, dim) && j < |centers|
    ensures |moved| == |centers| && InSpace(moved, dim)
  {
    MembersInSpace(x, labels, j, dim);
    var ps := Members(x, labels, j);
    if ps == [] then centers else centers[j := Mean(ps, dim)]
  }

  function UpdateUpto(x: seq<Point>, labels: seq<nat>, centers: seq<Point>, n: nat, dim: nat): (moved: seq<Point>)
    requires |labels| == |x| && InSpace(x, dim) && InSpace(centers, dim) && n <= |centers|
    ensures |moved| == |centers| && InSpace(moved, dim)
  {
    if n == 0 then centers else Update(x, labels, UpdateUpto(x, labels, centers, n - 1, dim), n - 1, dim)
  }

  function Step(x: seq<Point>, centers: seq<Point>, dim: nat): (moved: seq<Point>)
    requires InSpace(x, dim) && InSpace(centers, dim) && centers != []
    ensures |moved| == |centers| && InSpace(moved, dim)
  {
    UpdateUpto(x, Labels(x, centers, dim), centers, |centers|, dim)
  }

  function Steps(x: seq<Point>, centers: seq<Point>, dim: nat, n: nat): (moved: seq<Point>)
    requires InSpace(x, dim) && InSpace(centers, dim) && centers != []
    ensures |moved| == |centers| && InSpace(moved, dim)
  {
    if n == 0 then centers else Step(x, Steps(x, centers, dim, n - 1), dim)
  }

  // ---------------------------------------------------------------- cost

  // Total squared distance from the points to the centres their labels name.
  function CostWith(x: seq<Point>, labels: seq<nat>, centers: seq<Point>, dim: nat): real
    requires |labels| == |x| && InSpace(x, dim) && InSpace(centers, dim)
    requires forall i :: 0 <= i < |labels| ==> labels[i] < |centers|
  {
    if x == [] then 0.0
    else
      CostWith(x[..|x| - 1], labels[..|x| - 1], centers, dim) + Dist(x[|x| - 1], centers[labels[|x| - 1]], dim)
  }

  // Total squared distance from the points to their nearest centres.
  function Cost(x: seq<Point>, centers: seq<Point>, dim: nat): real
    requires InSpace(x, dim) && InSpace(centers, dim) && centers != []
  {
    CostWith(x, Labels(x, centers, dim), centers, dim)
  }

  lemma {:induction false} NearestIsNearest(p: Point, centers: seq<Point>, dim: nat, upto: nat, j: nat)
    requires 0 < upto <= |centers| && |p| == dim && InSpace(centers, dim) && j < upto
    ensures Dist(p, centers[Nearest(p, centers, dim, upto)], dim) <= Dist(p, centers[j], dim)
  {
    if upto > 1 {
      if j < upto - 1 { NearestIsNearest(p, centers, dim, upto - 1, j); }
    }
  }

  // The nearest centres cost no more than any other choice of labels.
  lemma {:induction false} ArgminIsCheapest(x: seq<Point>, best: seq<nat>, labels: seq<nat>, centers: seq<Point>, dim: nat)
    requires |labels| == |x| == |best| && InSpace(x, dim) && InSpace(centers, dim) && centers != []
    requires forall i :: 0 <= i < |labels| ==> labels[i] < |centers|
    requires forall i :: 0 <= i < |x| ==> best[i] < |centers| && best[i] == Nearest(x[i], centers, dim, |centers|)
    ensures CostWith(x, best, centers, dim) <= CostWith(x, labels, centers, dim)
  {
    if x != [] {
      var n := |x| - 1;
      ArgminIsCheapest(x[..n], best[..n], labels[..n], centers, dim);
      NearestIsNearest(x[n], centers, dim, |centers|, labels[n]);
    }
  }

  // ---------------------------------------------------------------- the mean is the best centre

  function SumDist(ps: seq<Point>, c: Point, dim: nat): real
    requires dim <= |c| && forall i :: 0 <= i < |ps| ==> dim <= |ps[i]|
  {
    if ps == [] then 0.0 else SumDist(ps[..|ps| - 1], c, dim) + Dist(ps[|ps| - 1], c, dim)
  }

  function Sq(y: real): real {
    y * y
  }

  // One coordinate: squared distances of the points to the value `v`.
  function SumSq(ps: seq<Point>, d: nat, v: real): real
    requires forall i :: 0 <= i < |ps| ==> d < |ps[i]|
  {
    if ps == [] then 0.0 else SumSq(ps[..|ps| - 1], d, v) + Sq(ps[|ps| - 1][d] - v)
  }

  // What moving the value by `t` adds to the squared distances of `n` numbers with sum `total`.
  function Shift(n: real, total: real, v: real, t: real): real {
    2.0 * (t * (total - n * v)) + n * Sq(t)
  }

  lemma SquareOfSum(a: real, b: real)
    ensures Sq(a + b) == Sq(a) + 2.0 * (b * a) + Sq(b)
  {
  }

  lemma Distributes(t: real, a: real, b: real)
    ensures t * (a + b) == t * a + t * b
    ensures (a + b) * t == a * t + b * t
  {
  }

  lemma ShiftOneMore(n: real, total: real, v: real, t: real, y: real)
    ensures Shift(n + 1.0, total + y, v, t) == Shift(n, total, v, t) + 2.0 * (t * (y - v)) + Sq(t)
  {
    hide Sq;
    Distributes(v, n, 1.0);
    Distributes(t, total - n * v, y - v);
    Distributes(Sq(t), n, 1.0);
  }

  lemma {:induction false} SumSqShift(ps: seq<Point>, d: nat, v: real, t: real)
    requires forall i :: 0 <= i < |ps| ==> d < |ps[i]|
    ensures SumSq(ps, d, v - t) == SumSq(ps, d, v) + Shift(|ps| as real, Sum(ps, d), v, t)
  {
    if ps == [] {
      NoShift(v, t);
    } else {
      hide Sq, Shift;
      var init, y := ps[..|ps| - 1], ps[|ps| - 1][d];
      assert SumSq(ps, d, v) == SumSq(init, d, v) + Sq(y - v);
      assert SumSq(ps, d, v - t) == SumSq(init, d, v - t) + Sq(y - (v - t));
      assert Sum(ps, d) == Sum(init, d) + y && |ps| as real == |init| as real + 1.0;
      SumSqShift(init, d, v, t);
      hide SumSq, Sum;
      SquareOfSum(y - v, t);
      assert y - (v - t) == (y - v) + t;
      ShiftOneMore(|init| as real, Sum(init, d), v, t, y);
    }
  }

  lemma NoShift(v: real, t: real)
    ensures Shift(0.0, 0.0, v, t) == 0.0
  {
  }

  lemma ShiftFromMean(n: real, total: real, mean: real, t: real)
    requires n > 0.0 && n * mean == total
    ensures Shift(n, total, mean, t) >= 0.0
  {
    assert t * (total - n * mean) == 0.0;
    assert Sq(t) >= 0.0;
  }

  lemma MeanTimesCount(total: real, n: real)
    requires n > 0.0
    ensures n * (total / n) == total
  {
  }

  lemma MeanMinimisesCoordinate(ps: seq<Point>, d: nat, v: real)
    requires ps != [] && forall i :: 0 <= i < |ps| ==> d < |ps[i]|
    ensures SumSq(ps, d, Sum(ps, d) / |ps| as real) <= SumSq(ps, d, v)
  {
    hide Sq, Shift, SumSq, Sum;
    var mean := Sum(ps, d) / |ps| as real;
    MeanTimesCount(Sum(ps, d), |ps| as real);
    SumSqShift(ps, d, mean, mean - v);
    ShiftFromMean(|ps| as real, Sum(ps, d), mean, mean - v);
  }

  lemma {:induction false} SumDistByCoordinate(ps: seq<Point>, c: Point, dim: nat)
    requires 0 < dim <= |c| && forall i :: 0 <= i < |ps| ==> dim <= |ps[i]|
    ensures SumDist(ps, c, dim) == SumDist(ps, c, dim - 1) + SumSq(ps, dim - 1, c[dim - 1])
  {
    if ps != [] { SumDistByCoordinate(ps[..|ps| - 1], c, dim); }
  }

  lemma {:induction false} CoordinatewiseBetter(ps: seq<Point>, a: Point, b: Point, dim: nat)
    requires dim <= |a| && dim <= |b| && forall i :: 0 <= i < |ps| ==> dim <= |ps[i]|
    requires forall d :: 0 <= d < dim ==> SumSq(ps, d, a[d]) <= SumSq(ps, d, b[d])
    ensures SumDist(ps, a, dim) <= SumDist(ps, b, dim)
    decreases dim
  {
    if dim > 0 {
      CoordinatewiseBetter(ps, a, b, dim - 1);
      SumDistByCoordinate(ps, a, dim);
      SumDistByCoordinate(ps, b, dim);
    } else {
      ZeroDim(ps, a);
      ZeroDim(ps, b);
    }
  }

  lemma {:induction false} ZeroDim(ps: seq<Point>, c: Point)
    ensures SumDist(ps, c, 0) == 0.0
  {
    if ps != [] { ZeroDim(ps[..|ps| - 1], c); }
  }

  /** No point has a smaller total squared distance to the members than their mean. */
  lemma MeanMinimises(ps: seq<Point>, c: Point, dim: nat)
    requires ps != [] && InSpace(ps, dim) && |c| == dim
    ensures SumDist(ps, Mean(ps, dim), dim) <= SumDist(ps, c, dim)
  {
    var mean := Mean(ps, dim);
    forall d | 0 <= d < dim ensures SumSq(ps, d, mean[d]) <= SumSq(ps, d, c[d]) {
      MeanMinimisesCoordinate(ps, d, c[d]);
    }
    CoordinatewiseBetter(ps, mean, c, dim);
  }

  // ---------------------------------------------------------------- cost never rises

  // The part of the cost that centre `j` has nothing to do with.
  function OthersCost(x: seq<Point>, labels: seq<nat>, centers: seq<Point>, j: nat, dim: nat): real
    requires |labels| == |x| && InSpace(x, dim) && InSpace(centers, dim)
    requires forall i :: 0 <= i < |labels| ==> labels[i] < |centers|
  {
    if x == [] then 0.0
    else
      OthersCost(x[..|x| - 1], labels[..|x| - 1], centers, j, dim) +
      if labels[|x| - 1] == j then 0.0 else Dist(x[|x| - 1], centers[labels[|x| - 1]], dim)
  }

  lemma {:induction false} CostSplits(x: seq<Point>, labels: seq<nat>, centers: seq<Point>, j: nat, dim: nat)
    requires |labels| == |x| && InSpace(x, dim) && InSpace(centers, dim) && j < |centers|
    requires forall i :: 0 <= i < |labels| ==> labels[i] < |centers|
    ensures InSpace(Members(x, labels, j), dim)
    ensures CostWith(x, labels, centers, dim)
         == SumDist(Members(x, labels, j), centers[j], dim) + OthersCost(x, labels, centers, j, dim)
  {
    MembersInSpace(x, labels, j, dim);
    if x != [] {
      var n := |x| - 1;
      CostSplits(x[..n], labels[..n], centers, j, dim);
      var before := Members(x[..n], labels[..n], j);
      if labels[n] == j {
        assert (before + [x[n]])[..|before|] == before;
      } else {
        assert Members(x, labels, j) == before;
      }
    }
  }

  lemma {:induction false} OthersUnmoved(x: seq<Point>, labels: seq<nat>, centers: seq<Point>, j: nat, c: Point, dim: nat)
    requires |labels| == |x| && InSpace(x, dim) && InSpace(centers, dim) && j < |centers| && |c| == dim
    requires forall i :: 0 <= i < |labels| ==> labels[i] < |centers|
    ensures InSpace(centers[j := c], dim)
    ensures OthersCost(x, labels, centers[j := c], j, dim) == OthersCost(x, labels, centers, j, dim)
  {
    assert InSpace(centers[j := c], dim);
    if x != [] { OthersUnmoved(x[..|x| - 1], labels[..|x| - 1], centers, j, c, dim); }
  }

  // Moving one centre to the mean of its members, labels kept, does not raise the cost.
  lemma UpdateIsCheaper(x: seq<Point>, labels: seq<nat>, centers: seq<Point>, j: nat, dim: nat)
    requires |labels| == |x| && InSpace(x, dim) && InSpace(centers, dim) && j < |centers|
    requires forall i :: 0 <= i < |labels| ==> labels[i] < |centers|
    ensures CostWith(x, labels, Update(x, labels, centers, j, dim), dim) <= CostWith(x, labels, centers, dim)
  {
    MembersInSpace(x, labels, j, dim);
    var ps := Members(x, labels, j);
    if ps != [] {
      var mean := Mean(ps, dim);
      CostSplits(x, labels, centers, j, dim);
      OthersUnmoved(x, labels, centers, j, mean, dim);
      CostSplits(x, labels, centers[j := mean], j, dim);
      MeanMinimises(ps, centers[j], dim);
    }
  }

  lemma {:induction false} UpdatesAreCheaper(x: seq<Point>, labels: seq<nat>, centers: seq<Point>, n: nat, dim: nat)
    requires |labels| == |x| && InSpace(x, dim) && InSpace(centers, dim) && n <= |centers|
    requires forall i :: 0 <= i < |labels| ==> labels[i] < |centers|
    ensures CostWith(x, labels, UpdateUpto(x, labels, centers, n, dim), dim) <= CostWith(x, labels, centers, dim)
  {
    hide CostWith, Update;
    if n > 0 {
      UpdatesAreCheaper(x, labels, centers, n - 1, dim);
      UpdateIsCheaper(x, labels, UpdateUpto(x, labels, centers, n - 1, dim), n - 1, dim);
    }
  }

  /** An iteration never raises the total squared distance from the points to their nearest centres,
      for any data, any number of centres and any placing of them. */
  lemma IterationNeverRaisesCost(x: seq<Point>, centers: seq<Point>, dim: nat)
    requires InSpace(x, dim) && InSpace(centers, dim) && centers != []
    ensures Cost(x, Step(x, centers, dim), dim) <= Cost(x, centers, dim)
  {
    var labels, moved := Labels(x, centers, dim), Step(x, centers, dim);
    UpdatesAreCheaper(x, labels, centers, |centers|, dim);
    ArgminIsCheapest(x, Labels(x, moved, dim), labels, moved, dim);
  }

  lemma {:induction false} CostNeverRises(x: seq<Point>, centers: seq<Point>, dim: nat, m: nat, n: nat)
    requires InSpace(x, dim) && InSpace(centers, dim) && centers != [] && m <= n
    ensures Cost(x, Steps(x, centers, dim, n), dim) <= Cost(x, Steps(x, centers, dim, m), dim)
    decreases n
  {
    hide Cost, Step;
    if m < n {
      CostNeverRises(x, centers, dim, m, n - 1);
      IterationNeverRaisesCost(x, Steps(x, centers, dim, n - 1), dim);
    }
  }

  // ---------------------------------------------------------------- the program

  function Pick(x: seq<Point>, idx: seq<nat>): (centers: seq<Point>)
    requires forall i :: 0 <= i < |idx| ==> idx[i] < |x|
    ensures |centers| == |idx| && forall i :: 0 <= i < |idx| ==> centers[i] == x[idx[i]]
  {
    seq(|idx|, i requires 0 <= i < |idx| => x[idx[i]])
  }

  /** `idx` is the random choice of starting centres, without repetition. Without points or clusters
      there are no labels and the points come back as centres; otherwise the centres are those of
      `iters` iterations, the labels name the nearest of them, and the cost is at most the initial. */
  method Run(x: seq<Point>, dim: nat, k: int, iters: nat, idx: seq<nat>) returns (labels: seq<nat>, centers: seq<Point>)
    requires InSpace(x, dim) && forall i :: 0 <= i < |idx| ==> idx[i] < |x|
    requires |x| > 0 && k > 0 ==> |idx| == if k < |x| then k else |x|
    ensures |x| == 0 || k <= 0 ==> labels == [] && centers == x
    ensures |x| > 0 && k > 0 ==>
      && InSpace(Pick(x, idx), dim) && Pick(x, idx) != []
      && centers == Steps(x, Pick(x, idx), dim, iters)
      && labels == Labels(x, centers, dim)
      && Cost(x, centers, dim) <= Cost(x, Pick(x, idx), dim)
  {
    if |x| == 0 || k <= 0 { return [], x; }
    var start := Pick(x, idx);
    var c := new Point[|idx|](i requires 0 <= i < |idx| => x[idx[i]]);
    assert c[..] == start;
    for it := 0 to iters
      invariant c[..] == Steps(x, start, dim, it)
    {
      IterateInPlace(x, dim, c);
    }
    centers := c[..];
    labels := Labels(x, centers, dim);
    CostNeverRises(x, start, dim, 0, iters);
  }

  // One iteration: labels first, then every centre overwritten in turn.
  method IterateInPlace(x: seq<Point>, dim: nat, centers: array<Point>)
    requires InSpace(x, dim) && InSpace(centers[..], dim) && centers.Length > 0
    modifies centers
    ensures InSpace(old(centers[..]), dim) && centers[..] == Step(x, old(centers[..]), dim)
  {
    ghost var before := centers[..];
    var labels := Labels(x, centers[..], dim);
    for j := 0 to centers.Length
      invariant InSpace(before, dim) && centers[..] == UpdateUpto(x, labels, before, j, dim)
    {
      var ps := Members(x, labels, j);
      MembersInSpace(x, labels, j, dim);
      if ps != [] {
        ghost var now := centers[..];
        centers[j] := Mean(ps, dim);
        assert centers[..] == now[j := Mean(ps, dim)];
      }
    }
  }
}
