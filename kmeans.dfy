/** The k-means model object and its steps: random initialisation within the
    data's range, the argmin assignment step, the in-place centroid update,
    and the fit loop that alternates them. */
module KMeans {
  import opened VectorMath
  import opened Clustering

  /** `draws[i][j]` is the random value in [0, 1) drawn for component `j` of
      centroid `i`: one per centroid of `k`, `d` per centroid. */
  predicate DrawsFit(draws: seq<seq<real>>, k: nat, d: nat) {
    |draws| == k &&
    forall i :: 0 <= i < k ==> |draws[i]| == d && forall j :: 0 <= j < d ==> 0.0 <= draws[i][j] < 1.0
  }

  /** The centroid initialisation makes from one row of draws: each component
      scaled into the [min, max] range of that feature over the data. */
  function DrawnCentroid(data: seq<seq<real>>, draw: seq<real>): (c: seq<real>)
    requires Rectangular(data) && |draw| == Width(data)
    requires forall j :: 0 <= j < |draw| ==> 0.0 <= draw[j] < 1.0
    ensures |c| == Width(data)
    ensures forall j :: 0 <= j < |c| ==> SeqMin(Column(data, j)) <= c[j] <= SeqMax(Column(data, j))
  {
    seq(Width(data), j requires 0 <= j < Width(data) =>
      ScaledDraw(draw[j], SeqMin(Column(data, j)), SeqMax(Column(data, j))))
  }

  /** A draw in [0, 1) scaled into [lo, hi]. */
  function ScaledDraw(r: real, lo: real, hi: real): (x: real)
    requires 0.0 <= r < 1.0 && lo <= hi
    ensures lo <= x <= hi
    ensures lo < hi ==> x < hi
  {
    Scale(r, hi - lo) + lo
  }

  /** A fraction in [0, 1) of a width. */
  function Scale(r: real, w: real): (p: real)
    requires 0.0 <= r < 1.0 && w >= 0.0
    ensures 0.0 <= p <= w
    ensures w > 0.0 ==> p < w
  {
    ScaleBounds(r, w);
    r * w
  }

  lemma ScaleBounds(r: real, w: real)
    requires 0.0 <= r < 1.0 && w >= 0.0
    ensures 0.0 <= r * w <= w
    ensures w > 0.0 ==> r * w < w
  {
    var s := 1.0 - r;
    assert s > 0.0;
    assert s * w >= 0.0 by {
      if w > 0.0 { assert s * w > 0.0 * w; }
    }
    assert w - r * w == s * w;
    if w > 0.0 {
      assert s * w > 0.0;
    }
  }

  /** The least and the greatest value of every feature, read off the rows
      of the transposed data. */
  method FeatureRanges(data: seq<seq<real>>) returns (mins: seq<real>, maxs: seq<real>)
    requires Rectangular(data)
    ensures |mins| == Width(data) && |maxs| == Width(data)
    ensures forall j :: 0 <= j < Width(data) ==>
      mins[j] == SeqMin(Column(data, j)) && maxs[j] == SeqMax(Column(data, j))
  {
    var t := Transpose(data);
    mins := [];
    maxs := [];
    for r := 0 to |t|
      invariant |mins| == r && |maxs| == r
      invariant forall j :: 0 <= j < r ==> mins[j] == SeqMin(Column(data, j)) && maxs[j] == SeqMax(Column(data, j))
    {
      TransposedColumn(data, r);
      var lo := ArrayMin(t[r]);
      var hi := ArrayMax(t[r]);
      mins := mins + [lo];
      maxs := maxs + [hi];
    }
  }

  /** One centroid filled component by component from its row of draws and
      the feature ranges. */
  method RandomCentroid(data: seq<seq<real>>, draw: seq<real>, mins: seq<real>, maxs: seq<real>)
    returns (centroid: seq<real>)
    requires Rectangular(data) && |draw| == Width(data)
    requires forall j :: 0 <= j < |draw| ==> 0.0 <= draw[j] < 1.0
    requires |mins| == Width(data) && |maxs| == Width(data)
    requires forall j :: 0 <= j < Width(data) ==>
      mins[j] == SeqMin(Column(data, j)) && maxs[j] == SeqMax(Column(data, j))
    ensures centroid == DrawnCentroid(data, draw)
  {
    var c := new real[|mins|];
    for j := 0 to c.Length
      invariant forall k :: 0 <= k < j ==> c[k] == DrawnCentroid(data, draw)[k]
    {
      var x := draw[j] * (maxs[j] - mins[j]) + mins[j];
      assert x == ScaledDraw(draw[j], mins[j], maxs[j]);
      assert DrawnCentroid(data, draw)[j] == ScaledDraw(draw[j], mins[j], maxs[j]);
      c[j] := x;
    }
    centroid := c[..];
  }

  /** Walks the components of `centroid`, overwriting every one that differs
      from the mean of that component over `members`; `moved` reports whether
      any component was overwritten. */
  method Recentred(centroid: seq<real>, members: seq<seq<real>>) returns (updated: seq<real>, moved: bool)
    requires |members| > 0 && Rectangular(members) && |centroid| == Width(members)
    ensures updated == MeanVector(members)
    ensures moved <==> centroid != MeanVector(members)
  {
    ghost var mean := MeanVector(members);
    updated := centroid;
    moved := false;
    var points := Transpose(members);
    for j := 0 to |updated|
      invariant |updated| == |mean|
      invariant forall k :: 0 <= k < j ==> updated[k] == mean[k]
      invariant forall k :: j <= k < |mean| ==> updated[k] == centroid[k]
      invariant moved <==> exists k :: 0 <= k < j && centroid[k] != mean[k]
    {
      TransposedColumn(members, j);
      var newCent := ArrayAverage(points[j]);
      if newCent != updated[j] {
        updated := updated[j := newCent];
        moved := true;
      }
    }
    assert updated == mean;
    assert (centroid != mean) <==> exists k :: 0 <= k < |mean| && centroid[k] != mean[k];
  }

  class Kmeans {
    /** The observations, one row per point, all of one width. */
    const data: seq<seq<real>>
    /** One centroid per cluster; the slots are updated in place. */
    const centroids: array<seq<real>>
    /** The label of every point, replaced by a fresh array at each assignment. */
    var assignment: array<int>

    ghost predicate Valid()
      reads this
    {
      Rectangular(data) && (centroids.Length > 0 || |data| == 0)
    }

    /** Every centroid has the dimension of the data. */
    ghost predicate Shaped()
      reads this, centroids
    {
      forall c :: 0 <= c < centroids.Length ==> |centroids[c]| == Width(data)
    }

    /** Initialised and consistent: the labels are those of the current centroids. */
    ghost predicate Assigned()
      reads this, centroids, assignment
    {
      Valid() && Shaped() && Assignable(data, centroids[..]) &&
      assignment[..] == Labels(data, centroids[..])
    }

    /** Recalculating the centroids would move none of them: every cluster
        is empty or has its centroid at the mean of its members. */
    ghost predicate Converged()
      reads this, centroids, assignment
    {
      Rectangular(data) && assignment.Length == |data| && IsFixedPoint(data, assignment[..], centroids[..])
    }

    /** The model object before fitting: `clusters` centroids not yet drawn. */
    constructor (data: seq<seq<real>>, clusters: nat)
      requires Rectangular(data) && (clusters > 0 || |data| == 0)
      ensures Valid() && this.data == data
      ensures fresh(centroids) && centroids.Length == clusters
      ensures forall c :: 0 <= c < clusters ==> centroids[c] == []
      ensures assignment.Length == 0
    {
      this.data := data;
      centroids := new seq<real>[clusters](_ => []);
      assignment := new int[0];
    }

    /** Draws every centroid inside the per-feature range of the data, then
        assigns the points. */
    method InitializeCentroids(draws: seq<seq<real>>)
      requires Valid() && DrawsFit(draws, centroids.Length, Width(data))
      modifies this, centroids
      ensures Assigned() && fresh(assignment)
      ensures forall c :: 0 <= c < centroids.Length ==> centroids[c] == DrawnCentroid(data, draws[c])
    {
      var mins, maxs := FeatureRanges(data);
      for i := 0 to centroids.Length
        invariant forall c :: 0 <= c < i ==> centroids[c] == DrawnCentroid(data, draws[c])
      {
        var c := RandomCentroid(data, draws[i], mins, maxs);
        centroids[i] := c;
      }
      GenerateClusterAssignments();
    }

    /** Labels every point with the stored label of its nearest centroid. */
    method GenerateClusterAssignments()
      requires Valid() && Shaped()
      modifies this
      ensures Assigned() && fresh(assignment)
      ensures forall i :: 0 <= i < assignment.Length ==> 0 <= assignment[i] < centroids.Length
      ensures centroids.Length >= 2 ==> forall i :: 0 <= i < assignment.Length ==> assignment[i] != centroids.Length - 1
    {
      ghost var cs := centroids[..];
      assert Assignable(data, cs);
      var labels := new int[|data|];
      for i := 0 to |data|
        invariant forall r :: 0 <= r < i ==> labels[r] == Labels(data, cs)[r]
      {
        var stored := NearestLabel(data[i]);
        labels[i] := stored;
        LabelAt(data, cs, i);
      }
      assignment := labels;
      assert assignment[..] == Labels(data, cs);
    }

    /** The argmin scan for one point: centroid 0 first, then centroids[1:],
        a later centroid winning only when strictly closer; the position it
        records is its index within centroids[1:]. */
    method NearestLabel(dv: seq<real>) returns (stored: int)
      requires centroids.Length > 0 && SameDimension(dv, centroids[..])
      ensures stored == StoredLabel(Nearest(dv, centroids[..]))
    {
      ghost var cs := centroids[..];
      stored := 0;
      var dist := EuclideanDistance(dv, centroids[0]);
      var minDist := dist.value;
      ghost var best := 0;
      for j := 0 to centroids.Length - 1
        invariant best == Nearest(dv, cs[..j + 1])
        invariant stored == StoredLabel(best)
        invariant minDist == SquaredDistance(dv, cs[best])
      {
        NearestStep(dv, cs, j + 1);
        var cv := centroids[j + 1];
        dist := EuclideanDistance(dv, cv);
        if dist.value < minDist {
          stored := j;
          minDist := dist.value;
          best := j + 1;
        }
      }
      assert cs[..centroids.Length] == cs;
    }

    /** Moves every centroid with at least one point to the mean of its
        points, leaves the others in place, reports whether any component
        changed, then assigns the points again. */
    method RecalculateCentroids() returns (changed: bool)
      requires Valid() && Shaped() && assignment.Length == |data|
      modifies this, centroids
      ensures Assigned() && fresh(assignment)
      ensures forall c :: 0 <= c < centroids.Length ==>
        var members := Cluster(data, old(assignment[..]), c);
        |members| == 0 ==> centroids[c] == old(centroids[c])
      ensures forall c :: 0 <= c < centroids.Length ==>
        var members := Cluster(data, old(assignment[..]), c);
        |members| > 0 ==> centroids[c] == MeanVector(members)
      ensures forall c :: 0 <= c < centroids.Length ==>
        centroids[c] == Updated(data, old(assignment[..]), c, old(centroids[c]))
      ensures changed <==> !IsFixedPoint(data, old(assignment[..]), old(centroids[..]))
      ensures !changed ==> centroids[..] == old(centroids[..])
    {
      ghost var labels := assignment[..];
      changed := UpdateCentroids();
      GenerateClusterAssignments();
      assert old(assignment[..]) == labels;
    }

    /** The update loop on its own: every centroid in turn is put where the
        update step puts it; the flag reports whether any of them moved. */
    method UpdateCentroids() returns (changed: bool)
      requires Valid() && Shaped() && assignment.Length == |data|
      modifies centroids
      ensures Shaped()
      ensures forall c :: 0 <= c < centroids.Length ==>
        centroids[c] == Updated(data, assignment[..], c, old(centroids[c]))
      ensures changed <==> !IsFixedPoint(data, assignment[..], old(centroids[..]))
      ensures !changed ==> centroids[..] == old(centroids[..])
    {
      changed := false;
      ghost var labels := assignment[..];
      ghost var before := centroids[..];
      for i := 0 to centroids.Length
        invariant assignment[..] == labels
        invariant Shaped()
        invariant forall c :: 0 <= c < i ==> centroids[c] == Updated(data, labels, c, before[c])
        invariant forall c :: i <= c < centroids.Length ==> centroids[c] == before[c]
        invariant changed <==> exists c :: 0 <= c < i && !Settled(data, labels, c, before[c])
      {
        var moved := UpdateCentroid(i);
        assert moved <==> !Settled(data, labels, i, before[i]);
        changed := changed || moved;
      }
      assert changed <==> !IsFixedPoint(data, labels, before);
      if !changed {
        forall c | 0 <= c < centroids.Length
          ensures centroids[c] == before[c]
        {
          SettledIffUnmoved(data, labels, c, before[c]);
        }
        assert centroids[..] == before;
      }
    }

    /** One pass of the update loop: gathers the points labelled `i` and, when
        there are any, moves centroid `i` to their mean. */
    method UpdateCentroid(i: nat) returns (moved: bool)
      requires Valid() && Shaped() && assignment.Length == |data| && i < centroids.Length
      modifies centroids
      ensures Shaped()
      ensures centroids[i] == Updated(data, assignment[..], i, old(centroids[i]))
      ensures forall c :: 0 <= c < centroids.Length && c != i ==> centroids[c] == old(centroids[c])
      ensures moved <==> !Settled(data, assignment[..], i, old(centroids[i]))
    {
      var points := ClusterPoints(i);
      moved := false;
      if |points| > 0 {
        centroids[i], moved := Recentred(centroids[i], points);
      }
    }

    /** The points currently labelled `c`, in data order. */
    method ClusterPoints(c: int) returns (points: seq<seq<real>>)
      requires assignment.Length == |data|
      ensures points == Cluster(data, assignment[..], c)
    {
      ghost var labels := assignment[..];
      points := [];
      for j := 0 to assignment.Length
        invariant points == Cluster(data[..j], labels[..j], c)
      {
        assert data[..j + 1][..j] == data[..j] && labels[..j + 1][..j] == labels[..j];
        if c == assignment[j] {
          points := points + [data[j]];
        }
      }
      assert data[..|data|] == data && labels[..|labels|] == labels;
    }

    /** One update step from a consistent state: every centroid goes where
        the update step puts it, and the flag reports whether any moved. */
    method UpdateRound() returns (changed: bool)
      requires Assigned()
      modifies this, centroids
      ensures Assigned() && fresh(assignment)
      ensures Moves(data, old(assignment[..]), old(centroids[..]), centroids[..])
      ensures changed <==> !IsFixedPoint(data, old(assignment[..]), old(centroids[..]))
      ensures changed <==> centroids[..] != old(centroids[..])
    {
      ghost var before, labels := centroids[..], assignment[..];
      changed := RecalculateCentroids();
      MovesIffNotFixed(data, labels, before, centroids[..]);
    }

    /** Initialises, updates once, then keeps updating until an update reports
        no change or `maxRounds` further updates have run. The centroids end
        `1 + rounds` update steps from the drawn ones, and only the last of
        those steps may leave them where they were. */
    method Fit(draws: seq<seq<real>>, maxRounds: nat) returns (converged: bool, ghost rounds: nat)
      requires Valid() && DrawsFit(draws, centroids.Length, Width(data))
      modifies this, centroids
      ensures Assigned() && fresh(assignment)
      ensures rounds <= maxRounds && (!converged ==> rounds == maxRounds)
      ensures centroids[..] == Rounds(data, DrawnCentroids(data, draws), 1 + rounds)
      ensures forall k :: 1 <= k < rounds ==>
        Rounds(data, DrawnCentroids(data, draws), k + 1) != Rounds(data, DrawnCentroids(data, draws), k)
      ensures converged <==> (rounds > 0 &&
        Rounds(data, DrawnCentroids(data, draws), 1 + rounds) == Rounds(data, DrawnCentroids(data, draws), rounds))
      ensures converged ==> Converged()
    {
      InitializeCentroids(draws);
      ghost var drawn := centroids[..];
      ghost var drawnLabels := assignment[..];
      assert drawn == DrawnCentroids(data, draws);
      RoundsThenStep(data, drawn, 0);
      var _ := UpdateRound();
      RoundsExtend(data, drawn, 0, drawnLabels, centroids[..]);
      ghost var first := centroids[..];
      converged, rounds := Refine(maxRounds);
      forall k | 0 <= k <= rounds
        ensures Rounds(data, first, k) == Rounds(data, drawn, k + 1)
      {
        RoundsAdd(data, drawn, 1, k);
      }
      forall k | 1 <= k < rounds
        ensures Rounds(data, drawn, k + 1) != Rounds(data, drawn, k)
      {
        assert Rounds(data, first, k) != Rounds(data, first, k - 1);
      }
    }

    /** The loop of the fit: further update steps until one reports no change,
        at most `maxRounds` of them. The centroids end `rounds` update steps
        from where they were, and only the last step may leave them in place. */
    method Refine(maxRounds: nat) returns (converged: bool, ghost rounds: nat)
      requires Assigned()
      modifies this, centroids
      ensures Assigned() && (assignment == old(assignment) || fresh(assignment))
      ensures rounds <= maxRounds && (!converged ==> rounds == maxRounds)
      ensures centroids[..] == Rounds(data, old(centroids[..]), rounds)
      ensures forall k :: 0 <= k < rounds - 1 ==>
        Rounds(data, old(centroids[..]), k + 1) != Rounds(data, old(centroids[..]), k)
      ensures converged <==> (rounds > 0 &&
        Rounds(data, old(centroids[..]), rounds) == Rounds(data, old(centroids[..]), rounds - 1))
      ensures converged ==> Converged()
    {
      ghost var start := centroids[..];
      RoundsThenStep(data, start, 0);
      converged := false;
      var done := 0;
      while !converged && done < maxRounds
        invariant Assigned() && (assignment == old(assignment) || fresh(assignment))
        invariant done <= maxRounds
        invariant centroids[..] == Rounds(data, start, done)
        invariant forall k :: 0 <= k < done - 1 ==> Rounds(data, start, k + 1) != Rounds(data, start, k)
        invariant converged <==> (done > 0 && Rounds(data, start, done) == Rounds(data, start, done - 1))
      {
        ghost var labels := assignment[..];
        var changed := UpdateRound();
        RoundsExtend(data, start, done, labels, centroids[..]);
        done := done + 1;
        converged := !changed;
      }
      rounds := done;
      if converged {
        RoundsSettled(data, start, rounds);
      }
    }
  }

  /** The centroids initialisation draws, one per row of draws. */
  function DrawnCentroids(data: seq<seq<real>>, draws: seq<seq<real>>): (cs: seq<seq<real>>)
    requires DrawsFit(draws, |draws|, Width(data)) && Rectangular(data)
    ensures |cs| == |draws| && forall c :: 0 <= c < |cs| ==> |cs[c]| == Width(data)
  {
    seq(|draws|, i requires 0 <= i < |draws| => DrawnCentroid(data, draws[i]))
  }

  /** Builds the model object for `clusters` clusters and fits it. The fitted
      centroids are `1 + rounds` update steps from the drawn ones. */
  method FitKmeans(data: seq<seq<real>>, clusters: nat, draws: seq<seq<real>>, maxRounds: nat)
    returns (km: Kmeans, converged: bool, ghost rounds: nat)
    requires Rectangular(data) && (clusters > 0 || |data| == 0)
    requires DrawsFit(draws, clusters, Width(data))
    ensures fresh(km) && km.data == data && km.centroids.Length == clusters
    ensures km.Assigned() && km.assignment.Length == |data|
    ensures rounds <= maxRounds && (!converged ==> rounds == maxRounds)
    ensures km.centroids[..] == Rounds(data, DrawnCentroids(data, draws), 1 + rounds)
    ensures forall k :: 1 <= k < rounds ==>
      Rounds(data, DrawnCentroids(data, draws), k + 1) != Rounds(data, DrawnCentroids(data, draws), k)
    ensures converged <==> (rounds > 0 &&
      Rounds(data, DrawnCentroids(data, draws), 1 + rounds) == Rounds(data, DrawnCentroids(data, draws), rounds))
    ensures converged ==> km.Converged()
    ensures clusters == 1 && maxRounds > 0 ==> converged
    ensures clusters == 1 && |data| > 0 ==> km.centroids[0] == MeanVector(data)
    ensures clusters >= 2 ==> km.centroids[clusters - 1] == DrawnCentroid(data, draws[clusters - 1])
  {
    km := new Kmeans(data, clusters);
    converged, rounds := km.Fit(draws, maxRounds);
    ghost var drawn := DrawnCentroids(data, draws);
    ghost var fitted := km.centroids[..];
    FitOutcome(data, drawn, maxRounds, converged, rounds);
    assert fitted == Rounds(data, drawn, 1 + rounds);
    if clusters >= 2 {
      assert km.centroids[clusters - 1] == fitted[clusters - 1] == drawn[clusters - 1];
    }
    if clusters == 1 && |data| > 0 {
      assert km.centroids[0] == fitted[0];
    }
  }

  /** What the stopping rule of the fit implies for one centroid and for the
      last centroid. */
  lemma FitOutcome(data: seq<seq<real>>, drawn: seq<seq<real>>, maxRounds: nat, converged: bool, rounds: nat)
    requires Assignable(data, drawn)
    requires rounds <= maxRounds && (!converged ==> rounds == maxRounds)
    requires converged <==> rounds > 0 && Rounds(data, drawn, 1 + rounds) == Rounds(data, drawn, rounds)
    ensures |drawn| == 1 && maxRounds > 0 ==> converged
    ensures |drawn| == 1 && |data| > 0 ==> Rounds(data, drawn, 1 + rounds) == [MeanVector(data)]
    ensures |drawn| >= 2 ==>
      |Rounds(data, drawn, 1 + rounds)| == |drawn| &&
      Rounds(data, drawn, 1 + rounds)[|drawn| - 1] == drawn[|drawn| - 1]
  {
    if |drawn| == 1 {
      SingleCentroidRounds(data, drawn, 1 + rounds);
      if rounds > 0 {
        SingleCentroidRounds(data, drawn, rounds);
      }
    }
    if |drawn| >= 2 {
      RoundsKeepLast(data, drawn, 1 + rounds);
    }
  }
}
