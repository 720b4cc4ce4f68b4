/** What the two steps of Lloyd's algorithm compute, as functions of the data,
    the centroids and the stored labels: the nearest centroid of a point, the
    label the assignment step stores for it, the points carrying one label,
    and their component-wise mean. */
module Clustering {
  import opened VectorMath

  // ---------------------------------------------------------------- assignment

  /** Every centroid has the dimension of point `p`. */
  predicate SameDimension(p: seq<real>, cs: seq<seq<real>>) {
    forall k :: 0 <= k < |cs| ==> |cs[k]| == |p|
  }

  /** The index the argmin scan ends on: the first centroid at the least
      distance from `p`, later centroids winning only when strictly closer. */
  function Nearest(p: seq<real>, cs: seq<seq<real>>): (c: nat)
    requires |cs| > 0 && SameDimension(p, cs)
    ensures c < |cs|
  {
    if |cs| == 1 then 0
    else
      var c := Nearest(p, cs[..|cs| - 1]);
      if SquaredDistance(p, cs[|cs| - 1]) < SquaredDistance(p, cs[c]) then |cs| - 1 else c
  }

  /** No centroid is closer to `p` than the nearest one, and every centroid
      before it is strictly farther. */
  lemma {:induction false} NearestIsClosest(p: seq<real>, cs: seq<seq<real>>)
    requires |cs| > 0 && SameDimension(p, cs)
    ensures forall k :: 0 <= k < |cs| ==> SquaredDistance(p, cs[Nearest(p, cs)]) <= SquaredDistance(p, cs[k])
    ensures forall k :: 0 <= k < Nearest(p, cs) ==> SquaredDistance(p, cs[Nearest(p, cs)]) < SquaredDistance(p, cs[k])
  {
    if |cs| > 1 {
      var init := cs[..|cs| - 1];
      NearestIsClosest(p, init);
      assert forall k :: 0 <= k < |init| ==> init[k] == cs[k];
    }
  }

  /** Extending the scan by centroid `n` moves the result there exactly when
      that centroid is strictly closer than the best so far. */
  lemma NearestStep(p: seq<real>, cs: seq<seq<real>>, n: nat)
    requires 0 < n < |cs| && SameDimension(p, cs)
    ensures Nearest(p, cs[..n + 1]) ==
      var best := Nearest(p, cs[..n]);
      if SquaredDistance(p, cs[n]) < SquaredDistance(p, cs[best]) then n else best
  {
    assert cs[..n + 1][..n] == cs[..n];
  }

  /** The two properties of Nearest single out one index. */
  lemma NearestIsUnique(p: seq<real>, cs: seq<seq<real>>, c: nat)
    requires |cs| > 0 && SameDimension(p, cs) && c < |cs|
    requires forall k :: 0 <= k < |cs| ==> SquaredDistance(p, cs[c]) <= SquaredDistance(p, cs[k])
    requires forall k :: 0 <= k < c ==> SquaredDistance(p, cs[c]) < SquaredDistance(p, cs[k])
    ensures c == Nearest(p, cs)
  {
    NearestIsClosest(p, cs);
  }

  /** The label stored for nearest centroid `c`. The scan runs over
      centroids[1:] and records its position there, so centroid c > 0 is
      stored as c - 1, and centroids 0 and 1 share label 0. */
  function StoredLabel(c: nat): (l: nat)
    ensures l == 0 <==> c <= 1
    ensures c > 0 ==> l < c
  {
    if c == 0 then 0 else c - 1
  }

  /** Data and centroids the assignment step can scan without a panic. */
  predicate Assignable(data: seq<seq<real>>, cs: seq<seq<real>>) {
    Rectangular(data) && (|cs| > 0 || |data| == 0) &&
    forall k :: 0 <= k < |cs| ==> |cs[k]| == Width(data)
  }

  /** The assignment vector: for every point, the stored label of its
      nearest centroid. */
  function Labels(data: seq<seq<real>>, cs: seq<seq<real>>): (labels: seq<int>)
    requires Assignable(data, cs)
    ensures |labels| == |data|
    ensures forall i :: 0 <= i < |data| ==> 0 <= labels[i] < |cs|
    ensures |cs| >= 2 ==> forall i :: 0 <= i < |data| ==> labels[i] < |cs| - 1
  {
    LabelsUpTo(data, cs, |data|)
  }

  /** The labels of the first `n` points, built one point at a time. */
  function LabelsUpTo(data: seq<seq<real>>, cs: seq<seq<real>>, n: nat): (labels: seq<int>)
    requires Assignable(data, cs) && n <= |data|
    ensures |labels| == n
    ensures forall i :: 0 <= i < n ==> 0 <= labels[i] < |cs|
    ensures |cs| >= 2 ==> forall i :: 0 <= i < n ==> labels[i] < |cs| - 1
  {
    if n == 0 then [] else LabelsUpTo(data, cs, n - 1) + [StoredLabel(Nearest(data[n - 1], cs))]
  }

  /** The label of point `i` is the stored label of its nearest centroid. */
  lemma {:induction false} LabelAt(data: seq<seq<real>>, cs: seq<seq<real>>, i: nat)
    requires Assignable(data, cs) && i < |data|
    ensures Labels(data, cs)[i] == StoredLabel(Nearest(data[i], cs))
  {
    LabelUpToAt(data, cs, |data|, i);
  }

  /** The same for the labels of the first `n` points. */
  lemma {:induction false} LabelUpToAt(data: seq<seq<real>>, cs: seq<seq<real>>, n: nat, i: nat)
    requires Assignable(data, cs) && i < n <= |data|
    ensures LabelsUpTo(data, cs, n)[i] == StoredLabel(Nearest(data[i], cs))
  {
    if i < n - 1 {
      LabelUpToAt(data, cs, n - 1, i);
    }
  }

  /** Every stored label is 0 or names the centroid one place before the
      nearest one. */
  lemma LabelIsShiftedNearest(data: seq<seq<real>>, cs: seq<seq<real>>, i: nat)
    requires Assignable(data, cs) && i < |data|
    ensures Labels(data, cs)[i] == 0 <==> Nearest(data[i], cs) <= 1
    ensures Nearest(data[i], cs) >= 1 ==> Labels(data, cs)[i] + 1 == Nearest(data[i], cs)
  {
    LabelAt(data, cs, i);
  }

  /** Two centroids: whichever is nearer, every point is labelled 0. */
  lemma TwoCentroidsLabelEverythingZero(data: seq<seq<real>>, cs: seq<seq<real>>)
    requires Assignable(data, cs) && |cs| == 2
    ensures Labels(data, cs) == seq(|data|, _ => 0)
  {
  }

  /** A point strictly nearest to the third of three centroids is stored with
      the second centroid's label. */
  lemma MislabelledPoint()
    ensures Nearest([2.0], [[0.0], [1.0], [2.0]]) == 2
    ensures Labels([[2.0]], [[0.0], [1.0], [2.0]]) == [1]
  {
    var cs := [[0.0], [1.0], [2.0]];
    assert SquaredDistance([2.0], [0.0]) == 4.0 by {
      assert [2.0][..0] == [] && [0.0][..0] == [];
    }
    assert SquaredDistance([2.0], [1.0]) == 1.0 by {
      assert [2.0][..0] == [] && [1.0][..0] == [];
    }
    assert SquaredDistance([2.0], [2.0]) == 0.0 by {
      assert [2.0][..0] == [];
    }
    NearestIsUnique([2.0], cs, 2);
    LabelAt([[2.0]], cs, 0);
  }

  // ---------------------------------------------------------------- grouping

  /** The points whose label is `c`, in data order. */
  function Cluster(points: seq<seq<real>>, labels: seq<int>, c: int): (members: seq<seq<real>>)
    requires |points| == |labels|
    ensures |members| <= |points|
    ensures forall q :: 0 <= q < |members| ==> members[q] in points
    ensures Rectangular(points) ==>
      Rectangular(members) && (|members| > 0 ==> Width(members) == Width(points))
  {
    if |points| == 0 then []
    else
      var n := |points| - 1;
      Cluster(points[..n], labels[..n], c) + if labels[n] == c then [points[n]] else []
  }

  /** Every point whose label is `c` belongs to cluster `c`. */
  lemma {:induction false} ClusterHasMember(points: seq<seq<real>>, labels: seq<int>, c: int, i: nat)
    requires |points| == |labels| && i < |points| && labels[i] == c
    ensures points[i] in Cluster(points, labels, c)
  {
    var n := |points| - 1;
    if i < n {
      ClusterHasMember(points[..n], labels[..n], c, i);
    }
  }

  /** Every member of cluster `c` is a data point whose label is `c`. */
  lemma {:induction false} ClusterMembersLabelled(points: seq<seq<real>>, labels: seq<int>, c: int, q: nat)
    requires |points| == |labels| && q < |Cluster(points, labels, c)|
    ensures exists i :: 0 <= i < |points| && labels[i] == c && Cluster(points, labels, c)[q] == points[i]
  {
    var n := |points| - 1;
    var front := Cluster(points[..n], labels[..n], c);
    if q < |front| {
      ClusterMembersLabelled(points[..n], labels[..n], c, q);
      var i :| 0 <= i < n && labels[..n][i] == c && front[q] == points[..n][i];
      assert Cluster(points, labels, c)[q] == points[i];
    } else {
      assert labels[n] == c && Cluster(points, labels, c)[q] == points[n];
    }
  }

  /** A cluster is empty exactly when no point carries its label. */
  lemma {:induction false} ClusterEmptyIffUnused(points: seq<seq<real>>, labels: seq<int>, c: int)
    requires |points| == |labels|
    ensures |Cluster(points, labels, c)| == 0 <==> forall i :: 0 <= i < |labels| ==> labels[i] != c
  {
    if |points| > 0 {
      var n := |points| - 1;
      ClusterEmptyIffUnused(points[..n], labels[..n], c);
      assert forall i :: 0 <= i < n ==> labels[..n][i] == labels[i];
    }
  }

  /** When every point carries label `c`, cluster `c` is the whole data. */
  lemma {:induction false} ClusterOfAll(points: seq<seq<real>>, labels: seq<int>, c: int)
    requires |points| == |labels| && forall i :: 0 <= i < |labels| ==> labels[i] == c
    ensures Cluster(points, labels, c) == points
  {
    if |points| > 0 {
      var n := |points| - 1;
      ClusterOfAll(points[..n], labels[..n], c);
      assert points == points[..n] + [points[n]];
    }
  }

  /** With at least two centroids no point is stored with the last label, so
      the last centroid's cluster is always empty. */
  lemma LastClusterEmpty(data: seq<seq<real>>, cs: seq<seq<real>>)
    requires Assignable(data, cs) && |cs| >= 2
    ensures Cluster(data, Labels(data, cs), |cs| - 1) == []
  {
    ClusterEmptyIffUnused(data, Labels(data, cs), |cs| - 1);
  }

  // ---------------------------------------------------------------- means

  /** The component-wise mean of a non-empty set of points of one width. */
  function MeanVector(points: seq<seq<real>>): (mean: seq<real>)
    requires |points| > 0 && Rectangular(points)
    ensures |mean| == Width(points)
  {
    seq(Width(points), j requires 0 <= j < Width(points) => Sum(Column(points, j)) / (|points| as real))
  }

  /** Each component of the mean lies between the least and the greatest
      value of that component over the points. */
  lemma MeanWithinRange(points: seq<seq<real>>)
    requires |points| > 0 && Rectangular(points)
    ensures forall j :: 0 <= j < Width(points) ==>
      SeqMin(Column(points, j)) <= MeanVector(points)[j] <= SeqMax(Column(points, j))
  {
    forall j | 0 <= j < Width(points) {
      AverageWithinRange(Column(points, j));
    }
  }

  /** Where the update step puts centroid `c`: at the mean of its members,
      or where it was when it has none. */
  ghost function Updated(data: seq<seq<real>>, labels: seq<int>, c: int, centroid: seq<real>): (u: seq<real>)
    requires Rectangular(data) && |labels| == |data|
    ensures |centroid| == Width(data) ==> |u| == Width(data)
    ensures |Cluster(data, labels, c)| > 0 ==> |u| == Width(data)
    ensures |Cluster(data, labels, c)| > 0 ==>
      forall j :: 0 <= j < Width(data) ==>
        SeqMin(Column(Cluster(data, labels, c), j)) <= u[j] <= SeqMax(Column(Cluster(data, labels, c), j))
  {
    var members := Cluster(data, labels, c);
    if |members| == 0 then centroid
    else
      MeanWithinRange(members);
      MeanVector(members)
  }

  /** Cluster `c` is settled when it is empty or its centroid already sits
      at the mean of its members. */
  ghost predicate Settled(data: seq<seq<real>>, labels: seq<int>, c: int, centroid: seq<real>)
    requires Rectangular(data) && |labels| == |data|
  {
    var members := Cluster(data, labels, c);
    |members| == 0 || centroid == MeanVector(members)
  }

  /** A cluster is settled exactly when the update step leaves its centroid
      where it is. */
  lemma SettledIffUnmoved(data: seq<seq<real>>, labels: seq<int>, c: int, centroid: seq<real>)
    requires Rectangular(data) && |labels| == |data|
    ensures Settled(data, labels, c, centroid) <==> Updated(data, labels, c, centroid) == centroid
  {
  }

  /** No centroid would move: the update step reports no change. */
  ghost predicate IsFixedPoint(data: seq<seq<real>>, labels: seq<int>, cs: seq<seq<real>>)
    requires Rectangular(data) && |labels| == |data|
  {
    forall c :: 0 <= c < |cs| ==> Settled(data, labels, c, cs[c])
  }

  /** One centroid: every point is labelled 0 and the centroid at the mean of
      all the data is a fixed point. */
  lemma SingleCentroidFixedPoint(data: seq<seq<real>>)
    requires Rectangular(data) && |data| > 0
    ensures Assignable(data, [MeanVector(data)])
    ensures Labels(data, [MeanVector(data)]) == seq(|data|, _ => 0)
    ensures IsFixedPoint(data, Labels(data, [MeanVector(data)]), [MeanVector(data)])
  {
    var cs := [MeanVector(data)];
    var labels := Labels(data, cs);
    ClusterOfAll(data, labels, 0);
    assert Settled(data, labels, 0, cs[0]);
  }

  /** One whole update step: each centroid put where the update step puts
      it, the labels being those of the centroids themselves. Centroids the
      assignment step cannot scan are left as they are. */
  ghost function Step(data: seq<seq<real>>, cs: seq<seq<real>>): (next: seq<seq<real>>)
    ensures |next| == |cs|
    ensures Assignable(data, cs) ==> Assignable(data, next)
  {
    if Assignable(data, cs) then
      seq(|cs|, c requires 0 <= c < |cs| => Updated(data, Labels(data, cs), c, cs[c]))
    else cs
  }

  /** The centroids after `n` update steps. */
  ghost function Rounds(data: seq<seq<real>>, cs: seq<seq<real>>, n: nat): seq<seq<real>> {
    Iterate(x => Step(data, x), cs, n)
  }

  /** `n` applications of `f`, starting from `x`. */
  ghost function Iterate(f: seq<seq<real>> -> seq<seq<real>>, x: seq<seq<real>>, n: nat): seq<seq<real>> {
    if n == 0 then x else f(Iterate(f, x, n - 1))
  }

  /** `m` applications followed by `n` more are `m + n` applications. */
  lemma {:induction false} IterateAdd(f: seq<seq<real>> -> seq<seq<real>>, x: seq<seq<real>>, m: nat, n: nat)
    ensures Iterate(f, Iterate(f, x, m), n) == Iterate(f, x, m + n)
  {
    if n > 0 {
      IterateAdd(f, x, m, n - 1);
    }
  }

  /** A value `f` leaves in place stays in place however often `f` is applied. */
  lemma {:induction false} IterateAtFixedPoint(f: seq<seq<real>> -> seq<seq<real>>, x: seq<seq<real>>, n: nat)
    requires f(x) == x
    ensures Iterate(f, x, n) == x
  {
    if n > 0 {
      IterateAtFixedPoint(f, x, n - 1);
    }
  }

  /** When the first application of `f` lands on a fixed point, every later
      one stays there. */
  lemma {:induction false} IterateSettles(f: seq<seq<real>> -> seq<seq<real>>, x: seq<seq<real>>, n: nat)
    requires f(f(x)) == f(x) && n >= 1
    ensures Iterate(f, x, n) == f(x)
  {
    if n > 1 {
      IterateSettles(f, x, n - 1);
    }
  }

  /** A property every application of `f` preserves holds after any number of them. */
  lemma {:induction false} IterateKeeps(f: seq<seq<real>> -> seq<seq<real>>, inv: seq<seq<real>> -> bool, x: seq<seq<real>>, n: nat)
    requires inv(x) && forall y :: inv(y) ==> inv(f(y))
    ensures inv(Iterate(f, x, n))
  {
    if n > 0 {
      IterateKeeps(f, inv, x, n - 1);
    }
  }

  /** `m` update steps followed by `n` more are `m + n` steps. */
  lemma RoundsAdd(data: seq<seq<real>>, cs: seq<seq<real>>, m: nat, n: nat)
    ensures Rounds(data, Rounds(data, cs, m), n) == Rounds(data, cs, m + n)
  {
    IterateAdd(x => Step(data, x), cs, m, n);
  }

  /** One more round is one more update step. */
  lemma RoundsThenStep(data: seq<seq<real>>, cs: seq<seq<real>>, n: nat)
    ensures Rounds(data, cs, n + 1) == Step(data, Rounds(data, cs, n))
    ensures Rounds(data, cs, 0) == cs
  {
    IterateAdd(x => Step(data, x), cs, n, 1);
  }

  /** `next` holds each centroid of `cs` where the update step puts it under
      the given labels. */
  ghost predicate Moves(data: seq<seq<real>>, labels: seq<int>, cs: seq<seq<real>>, next: seq<seq<real>>) {
    Rectangular(data) && |labels| == |data| && |next| == |cs| &&
    forall c :: 0 <= c < |cs| ==> next[c] == Updated(data, labels, c, cs[c])
  }

  /** A move changes the centroids exactly when they were not a fixed point. */
  lemma MovesIffNotFixed(data: seq<seq<real>>, labels: seq<int>, cs: seq<seq<real>>, next: seq<seq<real>>)
    requires Moves(data, labels, cs, next)
    ensures next != cs <==> !IsFixedPoint(data, labels, cs)
  {
    forall c | 0 <= c < |cs| {
      SettledIffUnmoved(data, labels, c, cs[c]);
    }
    if next != cs {
      var c :| 0 <= c < |cs| && next[c] != cs[c];
      assert !Settled(data, labels, c, cs[c]);
    }
  }

  /** Under the centroids' own labels, the update step is the one successor
      `Moves` allows. */
  lemma MovesIffStep(data: seq<seq<real>>, cs: seq<seq<real>>, next: seq<seq<real>>)
    requires Assignable(data, cs)
    ensures Moves(data, Labels(data, cs), cs, next) <==> next == Step(data, cs)
  {
    if Moves(data, Labels(data, cs), cs, next) {
      assert forall c :: 0 <= c < |cs| ==> next[c] == Step(data, cs)[c];
    }
  }

  /** Moving the centroids `n` update steps from `start` with their own
      labels lands `n + 1` update steps from `start`. */
  lemma RoundsExtend(data: seq<seq<real>>, start: seq<seq<real>>, n: nat, labels: seq<int>, next: seq<seq<real>>)
    requires Assignable(data, Rounds(data, start, n)) && labels == Labels(data, Rounds(data, start, n))
    requires Moves(data, labels, Rounds(data, start, n), next)
    ensures next == Rounds(data, start, n + 1)
  {
    MovesIffStep(data, Rounds(data, start, n), next);
    RoundsThenStep(data, start, n);
  }

  /** When update step `n` leaves the centroids in place, they are at a
      fixed point. */
  lemma RoundsSettled(data: seq<seq<real>>, start: seq<seq<real>>, n: nat)
    requires n > 0 && Assignable(data, Rounds(data, start, n))
    requires Rounds(data, start, n) == Rounds(data, start, n - 1)
    ensures IsFixedPoint(data, Labels(data, Rounds(data, start, n)), Rounds(data, start, n))
  {
    RoundsThenStep(data, start, n - 1);
    FixedPointIffStepUnchanged(data, Rounds(data, start, n));
  }

  /** A fixed point is exactly a state the update step leaves unchanged. */
  lemma FixedPointIffStepUnchanged(data: seq<seq<real>>, cs: seq<seq<real>>)
    requires Assignable(data, cs)
    ensures IsFixedPoint(data, Labels(data, cs), cs) <==> Step(data, cs) == cs
  {
    var labels := Labels(data, cs);
    forall c | 0 <= c < |cs| {
      SettledIffUnmoved(data, labels, c, cs[c]);
    }
    if Step(data, cs) == cs {
      forall c | 0 <= c < |cs|
        ensures Settled(data, labels, c, cs[c])
      {
        assert Step(data, cs)[c] == cs[c];
      }
    }
  }

  /** From a fixed point, any number of further steps changes nothing. */
  lemma RoundsAtFixedPoint(data: seq<seq<real>>, cs: seq<seq<real>>, n: nat)
    requires Assignable(data, cs) && IsFixedPoint(data, Labels(data, cs), cs)
    ensures Rounds(data, cs, n) == cs
  {
    FixedPointIffStepUnchanged(data, cs);
    IterateAtFixedPoint(x => Step(data, x), cs, n);
  }

  /** With two or more centroids the update step never moves the last one:
      no point carries its label. */
  lemma StepKeepsLast(data: seq<seq<real>>, cs: seq<seq<real>>)
    requires Assignable(data, cs) && |cs| >= 2
    ensures Step(data, cs)[|cs| - 1] == cs[|cs| - 1]
  {
    LastClusterEmpty(data, cs);
  }

  /** With two or more centroids no number of update steps moves the last one. */
  lemma RoundsKeepLast(data: seq<seq<real>>, cs: seq<seq<real>>, n: nat)
    requires Assignable(data, cs) && |cs| >= 2
    ensures |Rounds(data, cs, n)| == |cs| && Rounds(data, cs, n)[|cs| - 1] == cs[|cs| - 1]
  {
    var last := cs[|cs| - 1];
    var inv := (y: seq<seq<real>>) => Assignable(data, y) && |y| == |cs| && y[|cs| - 1] == last;
    forall y | inv(y)
      ensures inv(Step(data, y))
    {
      StepKeepsLast(data, y);
    }
    IterateKeeps(x => Step(data, x), inv, cs, n);
  }

  /** One centroid at the mean of all the data (anywhere, when there is no
      data) is a fixed point of its own labels. */
  lemma SingleCentroidSettled(data: seq<seq<real>>, cs: seq<seq<real>>)
    requires Assignable(data, cs) && |cs| == 1
    requires |data| > 0 ==> cs[0] == MeanVector(data)
    ensures IsFixedPoint(data, Labels(data, cs), cs)
  {
    if |data| > 0 {
      assert cs == [MeanVector(data)];
      SingleCentroidFixedPoint(data);
    } else {
      assert Settled(data, Labels(data, cs), 0, cs[0]);
    }
  }

  /** One centroid, anywhere: one update step puts it at the mean of all the data. */
  lemma SingleCentroidStep(data: seq<seq<real>>, labels: seq<int>, cs: seq<seq<real>>, next: seq<seq<real>>)
    requires Assignable(data, cs) && labels == Labels(data, cs) && Moves(data, labels, cs, next)
    requires |cs| == 1 && |data| > 0
    ensures next == [MeanVector(data)]
  {
    SingleCentroidClusterIsAll(data, cs);
  }

  /** One centroid, any position: cluster 0 is the whole data. */
  lemma SingleCentroidClusterIsAll(data: seq<seq<real>>, cs: seq<seq<real>>)
    requires Assignable(data, cs) && |cs| == 1
    ensures Cluster(data, Labels(data, cs), 0) == data
  {
    ClusterOfAll(data, Labels(data, cs), 0);
  }

  /** With one centroid, the first update step lands on a fixed point of the
      update step, at the mean of all points when there are any. */
  lemma SingleCentroidStepSettles(data: seq<seq<real>>, cs: seq<seq<real>>)
    requires Assignable(data, cs) && |cs| == 1
    ensures Step(data, Step(data, cs)) == Step(data, cs)
    ensures |data| > 0 ==> Step(data, cs) == [MeanVector(data)]
  {
    var first := Step(data, cs);
    MovesIffStep(data, cs, first);
    if |data| > 0 {
      SingleCentroidStep(data, Labels(data, cs), cs, first);
    }
    SingleCentroidSettled(data, first);
    FixedPointIffStepUnchanged(data, first);
  }

  /** With one centroid, every update step after the first leaves it in
      place, and with data that place is the mean of all points. */
  lemma SingleCentroidRounds(data: seq<seq<real>>, cs: seq<seq<real>>, n: nat)
    requires Assignable(data, cs) && |cs| == 1 && n >= 1
    ensures Rounds(data, cs, n + 1) == Rounds(data, cs, n)
    ensures |data| > 0 ==> Rounds(data, cs, n) == [MeanVector(data)]
  {
    SingleCentroidStepSettles(data, cs);
    IterateSettles(x => Step(data, x), cs, n);
    IterateSettles(x => Step(data, x), cs, n + 1);
  }
}
