# k-means clustering (golearn) in Dafny

This project models the k-means clusterer of `src/golearn/kmeans.go` and proves properties of the model. The clusterer runs Lloyd's algorithm on a matrix of float64 observations:

- **Initialisation** draws every centroid uniformly inside the per-feature `[min, max]` range of the data.
- **Assignment step** labels every point with its nearest centroid.
- **Update step** moves every centroid that has at least one point to the mean of its points, in place. It reports whether any component changed.
- **Fit** runs one initialisation and one update, then repeats the update until it reports no change.

The model has three modules:

- `VectorMath` (`vector_math.dfy`) holds the slice and matrix helpers:
  - `Transpose`, specified by the function `Transposed`;
  - `ArrayMin` and `ArrayMax`, specified by `SeqMin` and `SeqMax`;
  - `ArrayAverage`, specified by `Sum`;
  - `EuclideanDistance`, whose length-mismatch panic is modelled as `Err("dim")`.
- `Clustering` (`clustering.dfy`) says what the two steps compute, as pure functions:
  - `Nearest` is the argmin the scan ends on.
  - `Labels` is the label vector the assignment step stores.
  - `Cluster` is the points carrying one label.
  - `MeanVector` is the component-wise mean.
  - `Updated` is where the update step puts one centroid.
  - `Settled` and `IsFixedPoint` describe when no centroid moves.
  - `Step` is one whole update step, and `Rounds` is `n` of them in a row. The fit's result is stated in terms of `Rounds`.
- `KMeans` (`kmeans.dfy`) holds the `Kmeans` object as a class:
  - `data` is immutable.
  - `centroids` is an array whose slots the steps overwrite in place.
  - `assignment` is replaced by a freshly allocated array at every assignment step.
  - Its methods follow the Go functions loop for loop. Each method is proved against the functions of `Clustering`.

Feature values are `real` numbers. A distance is the sum of squared differences, with no square root taken. The square root is monotone and distances are only compared with each other, so the labels come out the same.

The assignment step's label quirk is reproduced exactly as written. The inner scan ranges over `centroids[1:]` and stores the position `j` within that sub-slice. So a point nearest to centroid `c ≥ 1` is labelled `c - 1`. The consequences are proved:

- With two or more centroids, label `K - 1` is never stored.
- So the update step never moves the last centroid away from its random initial position.
- With exactly two centroids, every point is labelled 0.

## Model

| member | source | states |
|---|---|---|
| VectorMath.Transpose | src/golearn/kmeans.go:10-24 | Returns an empty input unchanged. Otherwise it returns one row per column of the first row, each as long as the input. Entry `[j][i]` is input entry `[i][j]`, and zero where row `i` is shorter. |
| VectorMath.Transposed | src/golearn/kmeans.go:10-24 | The result shape: no rows gives the input itself; otherwise `Width` rows of length `|m|`. |
| VectorMath.TransposeRoundTrip | src/golearn/kmeans.go:10-24 | Transposing a rectangular matrix with at least one row and one column twice gives the matrix back. |
| VectorMath.TransposeRoundTripWithoutColumns | src/golearn/kmeans.go:11-14 | With rows but no columns, the first transpose is empty and the round trip does not give the input back. |
| VectorMath.TransposedColumn | src/golearn/kmeans.go:14-22 | Row `j` of the transpose of a rectangular matrix is column `j` of the matrix. |
| VectorMath.SeqMin | src/golearn/kmeans.go:25-33 | The minimum of a non-empty slice is one of its elements and is at most every element. |
| VectorMath.SeqMax | src/golearn/kmeans.go:34-42 | The maximum of a non-empty slice is one of its elements and is at least every element. |
| VectorMath.ArrayMin | src/golearn/kmeans.go:25-33 | The running-minimum loop returns an element of the slice that bounds every element from below, equal to `SeqMin`. |
| VectorMath.ArrayMax | src/golearn/kmeans.go:34-42 | The running-maximum loop returns an element of the slice that bounds every element from above, equal to `SeqMax`. |
| VectorMath.ArrayAverage | src/golearn/kmeans.go:43-50 | The accumulate-then-divide loop returns the sum divided by the count, which lies between the minimum and the maximum of the slice. |
| VectorMath.SumAtLeast | src/golearn/kmeans.go:44-47 | A lower bound on every element bounds the accumulated sum by the count times that bound. |
| VectorMath.SumAtMost | src/golearn/kmeans.go:44-47 | An upper bound on every element bounds the accumulated sum by the count times that bound. |
| VectorMath.AverageWithinRange | src/golearn/kmeans.go:43-50 | The average of a non-empty slice is at least its minimum and at most its maximum. |
| VectorMath.SquaredDistance | src/golearn/kmeans.go:56-59 | The sum of squared component differences is never negative. |
| VectorMath.EuclideanDistance | src/golearn/kmeans.go:52-61 | Fails with "dim" if and only if the lengths differ; otherwise it returns the accumulated sum of squared differences. |
| VectorMath.SquaredDistanceSymmetric | src/golearn/kmeans.go:56-59 | The distance does not depend on the order of the two vectors. |
| VectorMath.SquaredDistanceToSelf | src/golearn/kmeans.go:56-59 | A vector is at distance zero from itself. |
| Clustering.Nearest | src/golearn/kmeans.go:101-110 | The scan ends on the index of one of the centroids. |
| Clustering.NearestIsClosest | src/golearn/kmeans.go:103-110 | The scanned index is a centroid at minimum distance from the point. Every earlier centroid is strictly farther, so ties go to the first. |
| Clustering.NearestStep | src/golearn/kmeans.go:104-109 | Extending the scan by one centroid moves the result there exactly when that centroid is strictly closer than the best so far. |
| Clustering.NearestIsUnique | src/golearn/kmeans.go:101-110 | Any index that is at minimum distance and strictly closer than every earlier centroid is the scan's result. |
| Clustering.StoredLabel | src/golearn/kmeans.go:102-107 | The stored label is 0 exactly when the nearest centroid is 0 or 1, and is below the nearest centroid otherwise: the position within `centroids[1:]` is stored, not the index. |
| Clustering.Labels | src/golearn/kmeans.go:98-113 | One label per point, each in `[0, K)`; with `K ≥ 2` never `K - 1`. |
| Clustering.LabelsUpTo | src/golearn/kmeans.go:100-111 | The labels of the first `n` points: one per point, each in `[0, K)`, and with `K ≥ 2` never `K - 1`. |
| Clustering.LabelAt | src/golearn/kmeans.go:101-107 | The label of point `i` is the stored label of its nearest centroid. |
| Clustering.LabelUpToAt | src/golearn/kmeans.go:100-111 | The same, for the labels of the first `n` points, by induction on `n`. |
| Clustering.LabelIsShiftedNearest | src/golearn/kmeans.go:104-107 | A point's label is 0 exactly when its nearest centroid is 0 or 1; otherwise the label is one less than the nearest centroid. |
| Clustering.TwoCentroidsLabelEverythingZero | src/golearn/kmeans.go:104-107 | With two centroids every point is labelled 0, whichever centroid is nearer. |
| Clustering.MislabelledPoint | src/golearn/kmeans.go:104-107 | Take three centroids at 0, 1 and 2. The point 2 is strictly nearest to centroid 2 but is stored with label 1. |
| Clustering.Cluster | src/golearn/kmeans.go:120-125 | The gathered points are data points, at most as many as the data. For rectangular data they keep its width. |
| Clustering.ClusterHasMember | src/golearn/kmeans.go:121-124 | Every point whose label is `c` is gathered into cluster `c`. |
| Clustering.ClusterMembersLabelled | src/golearn/kmeans.go:121-124 | Every gathered point is a data point whose label is `c`, the converse of `ClusterHasMember`. |
| Clustering.ClusterEmptyIffUnused | src/golearn/kmeans.go:120-129 | A cluster is empty if and only if no point carries its label. |
| Clustering.ClusterOfAll | src/golearn/kmeans.go:120-125 | When every point carries label `c`, cluster `c` is the whole data. |
| Clustering.LastClusterEmpty | src/golearn/kmeans.go:104-129 | With two or more centroids, the last centroid's cluster is empty after an assignment, so the update skips it. |
| Clustering.MeanVector | src/golearn/kmeans.go:130-137 | The mean of a non-empty cluster has one component per feature. |
| Clustering.MeanWithinRange | src/golearn/kmeans.go:130-137 | Every component of the mean lies between that feature's minimum and maximum over the cluster. |
| Clustering.Updated | src/golearn/kmeans.go:127-137 | Where one pass of the update loop puts a centroid: kept when its cluster is empty, otherwise at the mean, which has one component per feature, each within that feature's range over the cluster. |
| Clustering.SettledIffUnmoved | src/golearn/kmeans.go:127-137 | `Settled` (the cluster is empty or its centroid is at the mean) holds exactly when the update step leaves the centroid where it is, so the flag set at lines 133-135 stays false for it. |
| Clustering.SingleCentroidFixedPoint | src/golearn/kmeans.go:116-141 | With one centroid at the mean of all the data, every point is labelled 0, and the state is a fixed point. |
| Clustering.SingleCentroidSettled | src/golearn/kmeans.go:116-141 | With one centroid at the mean of the data (or any centroid, when there is no data), the state is a fixed point of its own labels. |
| Clustering.SingleCentroidClusterIsAll | src/golearn/kmeans.go:118-125 | With one centroid, cluster 0 is the whole data. |
| Clustering.Step | src/golearn/kmeans.go:116-139 | One call of the update: same number of centroids, and centroids the assignment step can scan stay scannable. |
| Clustering.RoundsAdd | src/golearn/kmeans.go:146-152 | `m` update steps followed by `n` more are `m + n` steps. |
| Clustering.RoundsThenStep | src/golearn/kmeans.go:147-148 | Zero rounds leave the centroids as they are; one more round is one more update step. |
| Clustering.MovesIffNotFixed | src/golearn/kmeans.go:127-137 | Putting every centroid where the update step puts it changes the centroids exactly when they were not a fixed point (`IsFixedPoint`: every cluster settled). |
| Clustering.MovesIffStep | src/golearn/kmeans.go:116-139 | Under the labels of the centroids themselves, moving every centroid is exactly one update step. |
| Clustering.RoundsExtend | src/golearn/kmeans.go:147-148 | Moving the centroids reached after `n` rounds, under their own labels, gives the centroids after `n + 1` rounds. |
| Clustering.RoundsSettled | src/golearn/kmeans.go:148-151 | When round `n` leaves the centroids where round `n - 1` left them, they are a fixed point of their labels: stopping on "no change" stops at a fixed point. |
| Clustering.FixedPointIffStepUnchanged | src/golearn/kmeans.go:127-137 | The centroids are a fixed point of their labels exactly when the update step leaves them unchanged. |
| Clustering.RoundsAtFixedPoint | src/golearn/kmeans.go:147-152 | From a fixed point, any number of further rounds changes nothing. |
| Clustering.StepKeepsLast | src/golearn/kmeans.go:104-129 | With two or more centroids, an update step leaves the last centroid where it is. |
| Clustering.RoundsKeepLast | src/golearn/kmeans.go:146-152 | With two or more centroids, no number of rounds moves the last centroid. |
| Clustering.SingleCentroidStep | src/golearn/kmeans.go:116-138 | With one centroid and some data, one update step puts the centroid at the mean of all the data. |
| Clustering.SingleCentroidStepSettles | src/golearn/kmeans.go:146-151 | With one centroid, the state after the first update step is left unchanged by the next, and is the mean of the data when there is data. |
| Clustering.SingleCentroidRounds | src/golearn/kmeans.go:146-152 | With one centroid, every round after the first changes nothing, and after any positive number of rounds the centroid is the mean of the data. |
| KMeans.DrawnCentroid | src/golearn/kmeans.go:88-93 | A centroid built from one row of draws has one component per feature, each within that feature's `[min, max]` over the data. |
| KMeans.ScaledDraw | src/golearn/kmeans.go:91 | A draw in `[0, 1)` scaled into `[lo, hi]` lies in `[lo, hi]`, strictly below `hi` when `lo < hi`. |
| KMeans.Scale | src/golearn/kmeans.go:91 | A fraction in `[0, 1)` of a width `w ≥ 0` lies in `[0, w]`, strictly below `w` when `w > 0`. |
| KMeans.FeatureRanges | src/golearn/kmeans.go:79-86 | Reading the rows of the transposed data gives, for every feature, its minimum and its maximum over the data. |
| KMeans.RandomCentroid | src/golearn/kmeans.go:89-92 | The component loop over a fresh slice builds exactly `DrawnCentroid` of its draws. |
| KMeans.DrawnCentroids | src/golearn/kmeans.go:88-94 | One drawn centroid per row of draws, each with one component per feature. |
| KMeans.Recentred | src/golearn/kmeans.go:130-137 | The component loop leaves the centroid at the cluster mean. It reports a change if and only if the old centroid differed from the mean. |
| KMeans.Kmeans.constructor | src/golearn/kmeans.go:70-73 | `K` centroid slots, all empty, over the given data. |
| KMeans.Kmeans.InitializeCentroids | src/golearn/kmeans.go:78-96 | Every centroid becomes `DrawnCentroid` of its draws, and the assignment then matches the new centroids. |
| KMeans.Kmeans.GenerateClusterAssignments | src/golearn/kmeans.go:98-113 | Installs a fresh assignment equal to `Labels` of the current centroids. Every label is in `[0, K)`, and with `K ≥ 2` none is `K - 1`. |
| KMeans.Kmeans.NearestLabel | src/golearn/kmeans.go:101-110 | The per-point scan returns the stored label of the `Nearest` centroid. |
| KMeans.Kmeans.RecalculateCentroids | src/golearn/kmeans.go:116-141 | An empty cluster's centroid is kept, and any other moves to the mean of exactly its points. The result is true if and only if the old state was not a fixed point; if false, nothing moved. The points are then assigned again. |
| KMeans.Kmeans.UpdateCentroids | src/golearn/kmeans.go:118-138 | Every centroid ends at `Updated` of its old value. The flag is true if and only if the old state was not a fixed point; if false, the centroids are unchanged. |
| KMeans.Kmeans.UpdateCentroid | src/golearn/kmeans.go:119-137 | One pass of the update loop sets centroid `i` to `Updated` of its old value and leaves the other slots alone. It reports a move if and only if the centroid was not settled. |
| KMeans.Kmeans.ClusterPoints | src/golearn/kmeans.go:120-125 | The gathering loop returns exactly `Cluster` of the current labels. |
| KMeans.Kmeans.UpdateRound | src/golearn/kmeans.go:146-149 | One update step from a consistent state: every centroid goes where `Updated` puts it under the old labels, and the labels then match again. The flag is true exactly when the old state was not a fixed point, and exactly when the centroids changed. |
| KMeans.Kmeans.Fit | src/golearn/kmeans.go:143-153 | Draws the centroids, runs one update step, then the loop. The centroids end `1 + rounds` steps from the drawn ones, with `rounds ≤ maxRounds` and `rounds = maxRounds` unless converged. Every step of the loop but the last moved them; converging means the last step did not, and a fixed point. |
| KMeans.Kmeans.Refine | src/golearn/kmeans.go:147-152 | The repeat-until-unchanged loop with a budget: it runs `rounds ≤ maxRounds` update steps, exactly `maxRounds` unless it converged. The centroids end `rounds` steps from where they were, every step but the last moved them, and it converged exactly when the last step did not. Converging means a fixed point. |
| KMeans.FitKmeans | src/golearn/kmeans.go:70-76 | A fresh object over the data with `K` centroids and one label per point matching the centroids, `1 + rounds` update steps from the drawn ones, as for `Fit`. One centroid converges within one round of the loop and ends at the mean of the data. With `K ≥ 2` the last centroid keeps its random initial value. |
| KMeans.FitOutcome | src/golearn/kmeans.go:143-153 | What the stopping rule implies: one centroid converges in a positive budget and sits at the mean of the data; with two or more, the last centroid is the drawn one. |

## Left out

- `main` and the printing of the fitted centroids are not modelled (output only).
- **Random draws:** the time-based seed and `rand.Float64` are not modelled. The random values are a parameter, `draws[i][j]` in `[0, 1)`, one per component of every centroid, consumed in the Go loop order.
- **Floating point:** IEEE float64 semantics (rounding, NaN, infinities) are replaced by exact `real` arithmetic.
- `EuclideanDistance` returns the sum of squares without `math.Sqrt`. The square root is monotone, so every comparison the clusterer makes has the same outcome.
- `Fit` / `Refine`: the unbounded `for {}` loop is modelled with a round budget `maxRounds`, because its termination is not proved. When the budget runs out without convergence, the model states where the centroids are after `maxRounds` rounds, but not the further rounds Go would run. The round count `rounds` is a ghost result that Go does not return.
- `RecalculateCentroids`: the always-empty `err` result is not modelled.
- **Ragged data:** the model requires rectangular data (every row as long as the first). In Go, `Transpose` gives a row shorter than the first zeros in its missing columns (kmeans.go:14-17), and a longer row indexes past the end of the result at line 20. `Transpose` models the zero padding and requires no row longer than the first.
- `Fit`, `FitKmeans`: in the fit the zero padding only feeds the feature ranges. Centroids get `len(data[0])` components (kmeans.go:89-92), so a shorter row makes `EuclideanDistance` panic with "dim" (line 54) when the assignment step measures it (line 103). This panic is not modelled, because both require rectangular data.
- `ArrayMin`, `ArrayMax`, `ArrayAverage`: these require a non-empty slice. Go panics on the empty slice for the first two and returns NaN for the third. The callers never pass one.
- **Clusters:** the number of clusters is a `nat`, since Go's `make` panics on a negative count. With data and zero clusters Go panics at `centroids[0]`; the model requires at least one cluster when there is data.
- `RecalculateCentroids` requires an assignment with one entry per point, which every call from `fit` satisfies. It is not given the initial empty assignment.
- `SquaredDistanceToSelf`: only one direction is proved. The converse (distance zero only between equal vectors) is left out because of the non-linear real arithmetic it needs.
- `Recentred`: the Go loop writes `centroid[j]` through a slice that shares storage with `k.centroids[i]`. The model updates a local copy of the centroid and stores it into the slot when the loop ends. The final state is the same; what is not modelled is the aliasing during the loop.
