/** Vector and matrix helpers of the k-means core: transpose of a matrix,
    minimum, maximum and average of a slice, and the distance between two
    feature vectors. Feature values are modelled as `real`. */
module VectorMath {

  /** Outcome of an operation that can panic. */
  datatype Result<T> = Ok(value: T) | Err(message: string)

  /** Number of columns of a matrix: the length of its first row, 0 for no rows. */
  function Width(m: seq<seq<real>>): nat {
    if |m| == 0 then 0 else |m[0]|
  }

  /** Every row is as long as the first one. */
  predicate Rectangular(m: seq<seq<real>>) {
    forall i :: 0 <= i < |m| ==> |m[i]| == Width(m)
  }

  /** Entry `j` of every row, top to bottom. */
  function Column(m: seq<seq<real>>, j: nat): seq<real>
    requires forall i :: 0 <= i < |m| ==> j < |m[i]|
  {
    seq(|m|, i requires 0 <= i < |m| => m[i][j])
  }

  // ---------------------------------------------------------------- Transpose

  /** Entry `k` of row `r`, or the zero a fresh Go slice holds where row `r`
      is too short to have one. */
  function Entry(m: seq<seq<real>>, r: nat, k: nat): real
    requires r < |m|
  {
    if k < |m[r]| then m[r][k] else 0.0
  }

  /** The matrix Transpose builds: one row per entry of the first input row,
      row `k` holding entry `k` of every input row. No rows: the input itself. */
  function Transposed(m: seq<seq<real>>): (t: seq<seq<real>>)
    ensures |m| == 0 ==> t == m
    ensures |m| > 0 ==> |t| == Width(m) && forall k :: 0 <= k < |t| ==> |t[k]| == |m|
  {
    if |m| == 0 then m
    else
      seq(|m[0]|, k requires 0 <= k < |m[0]| =>
        seq(|m|, r requires 0 <= r < |m| => Entry(m, r, k)))
  }

  /** Swaps rows and columns. A row longer than the first would index past the
      end of the result, so no such row is allowed. */
  method Transpose(matrix: seq<seq<real>>) returns (transposed: seq<seq<real>>)
    requires forall i :: 0 <= i < |matrix| ==> |matrix[i]| <= Width(matrix)
    ensures transposed == Transposed(matrix)
    ensures Rectangular(matrix) && |matrix| > 0 ==>
      forall i, j :: 0 <= i < |matrix| && 0 <= j < Width(matrix) ==> transposed[j][i] == matrix[i][j]
  {
    if |matrix| == 0 {
      return matrix;
    }
    var rows := new seq<real>[|matrix[0]|];
    for j := 0 to rows.Length
      invariant forall k :: 0 <= k < j ==> rows[k] == seq(|matrix|, _ => 0.0)
    {
      rows[j] := seq(|matrix|, _ => 0.0);
    }
    for i := 0 to |matrix|
      invariant forall k :: 0 <= k < rows.Length ==> |rows[k]| == |matrix|
      invariant forall k, r :: 0 <= k < rows.Length && 0 <= r < i ==> rows[k][r] == Entry(matrix, r, k)
      invariant forall k, r :: 0 <= k < rows.Length && i <= r < |matrix| ==> rows[k][r] == 0.0
    {
      for j := 0 to |matrix[i]|
        invariant forall k :: 0 <= k < rows.Length ==> |rows[k]| == |matrix|
        invariant forall k, r :: 0 <= k < rows.Length && 0 <= r < i ==> rows[k][r] == Entry(matrix, r, k)
        invariant forall k :: 0 <= k < j ==> rows[k][i] == matrix[i][k]
        invariant forall k :: j <= k < rows.Length ==> rows[k][i] == 0.0
        invariant forall k, r :: 0 <= k < rows.Length && i < r < |matrix| ==> rows[k][r] == 0.0
      {
        rows[j] := rows[j][i := matrix[i][j]];
      }
    }
    transposed := rows[..];
    forall k | 0 <= k < rows.Length
      ensures transposed[k] == Transposed(matrix)[k]
    {
      forall r | 0 <= r < |matrix|
        ensures transposed[k][r] == Transposed(matrix)[k][r]
      {
        assert transposed[k][r] == Entry(matrix, r, k);
      }
    }
  }

  /** Transposing twice gives back a matrix with at least one row and one column. */
  lemma {:induction false} TransposeRoundTrip(m: seq<seq<real>>)
    requires Rectangular(m) && |m| > 0 && Width(m) > 0
    ensures Transposed(Transposed(m)) == m
  {
    var t := Transposed(m);
    assert |t| == Width(m) && |t[0]| == |m|;
    var tt := Transposed(t);
    assert |tt| == |m|;
    forall i | 0 <= i < |m|
      ensures tt[i] == m[i]
    {
      assert |tt[i]| == |m[i]|;
      forall j | 0 <= j < |m[i]|
        ensures tt[i][j] == m[i][j]
      {
        assert tt[i][j] == t[j][i];
      }
    }
  }

  /** With rows but no columns the round trip loses the rows: the first
      transpose is empty and is then returned unchanged. */
  lemma TransposeRoundTripWithoutColumns(m: seq<seq<real>>)
    requires |m| > 0 && forall i :: 0 <= i < |m| ==> m[i] == []
    ensures Transposed(m) == [] && Transposed(Transposed(m)) != m
  {
  }

  /** Row `j` of the transpose of a rectangular matrix is column `j` of the input. */
  lemma TransposedColumn(m: seq<seq<real>>, j: nat)
    requires Rectangular(m) && |m| > 0 && j < Width(m)
    ensures |Transposed(m)| == Width(m) && Transposed(m)[j] == Column(m, j)
  {
  }

  // ---------------------------------------------------------------- reductions

  /** The least element of a non-empty slice. */
  function SeqMin(s: seq<real>): (m: real)
    requires |s| > 0
    ensures m in s
    ensures forall k :: 0 <= k < |s| ==> m <= s[k]
  {
    if |s| == 1 then s[0]
    else
      var m' := SeqMin(s[..|s| - 1]);
      if s[|s| - 1] < m' then s[|s| - 1] else m'
  }

  /** The greatest element of a non-empty slice. */
  function SeqMax(s: seq<real>): (m: real)
    requires |s| > 0
    ensures m in s
    ensures forall k :: 0 <= k < |s| ==> s[k] <= m
  {
    if |s| == 1 then s[0]
    else
      var m' := SeqMax(s[..|s| - 1]);
      if s[|s| - 1] > m' then s[|s| - 1] else m'
  }

  /** The running minimum; reading the first element needs a non-empty slice. */
  method ArrayMin(values: seq<real>) returns (min: real)
    requires |values| > 0
    ensures min in values && forall k :: 0 <= k < |values| ==> min <= values[k]
    ensures min == SeqMin(values)
  {
    min := values[0];
    for i := 1 to |values|
      invariant min in values[..i]
      invariant forall k :: 0 <= k < i ==> min <= values[k]
    {
      if values[i] < min {
        min := values[i];
      }
    }
    assert values[..|values|] == values;
  }

  /** The running maximum; reading the first element needs a non-empty slice. */
  method ArrayMax(values: seq<real>) returns (max: real)
    requires |values| > 0
    ensures max in values && forall k :: 0 <= k < |values| ==> values[k] <= max
    ensures max == SeqMax(values)
  {
    max := values[0];
    for i := 1 to |values|
      invariant max in values[..i]
      invariant forall k :: 0 <= k < i ==> values[k] <= max
    {
      if values[i] > max {
        max := values[i];
      }
    }
    assert values[..|values|] == values;
  }

  /** Sum of the elements, added left to right. */
  function Sum(s: seq<real>): real {
    if |s| == 0 then 0.0 else Sum(s[..|s| - 1]) + s[|s| - 1]
  }

  /** The running sum divided by the count. */
  method ArrayAverage(values: seq<real>) returns (average: real)
    requires |values| > 0
    ensures average == Sum(values) / (|values| as real)
    ensures SeqMin(values) <= average <= SeqMax(values)
  {
    average := 0.0;
    for i := 0 to |values|
      invariant average == Sum(values[..i])
    {
      assert values[..i + 1][..i] == values[..i];
      average := average + values[i];
    }
    assert values[..|values|] == values;
    AverageWithinRange(values);
    average := average / (|values| as real);
  }

  /** A lower bound on every element bounds the sum by the count times the bound. */
  lemma {:induction false} SumAtLeast(s: seq<real>, lo: real)
    requires forall k :: 0 <= k < |s| ==> lo <= s[k]
    ensures (|s| as real) * lo <= Sum(s)
  {
    if |s| > 0 {
      SumAtLeast(s[..|s| - 1], lo);
      assert ((|s| - 1) as real) * lo + lo == (|s| as real) * lo;
    }
  }

  /** An upper bound on every element bounds the sum by the count times the bound. */
  lemma {:induction false} SumAtMost(s: seq<real>, hi: real)
    requires forall k :: 0 <= k < |s| ==> s[k] <= hi
    ensures Sum(s) <= (|s| as real) * hi
  {
    if |s| > 0 {
      SumAtMost(s[..|s| - 1], hi);
      assert ((|s| - 1) as real) * hi + hi == (|s| as real) * hi;
    }
  }

  /** The average of a non-empty slice lies between its minimum and its maximum. */
  lemma {:induction false} AverageWithinRange(s: seq<real>)
    requires |s| > 0
    ensures SeqMin(s) <= Sum(s) / (|s| as real) <= SeqMax(s)
  {
    var lo, hi, total, n := SeqMin(s), SeqMax(s), Sum(s), |s| as real;
    SumAtLeast(s, lo);
    SumAtMost(s, hi);
    QuotientAtLeast(total, n, lo);
    QuotientAtMost(total, n, hi);
  }

  lemma QuotientAtLeast(x: real, n: real, lo: real)
    requires n > 0.0 && n * lo <= x
    ensures lo <= x / n
  {
    var q := x / n;
    assert q * n == x;
    assert n * (q - lo) >= 0.0;
  }

  lemma QuotientAtMost(x: real, n: real, hi: real)
    requires n > 0.0 && x <= n * hi
    ensures x / n <= hi
  {
    var q := x / n;
    assert q * n == x;
    assert n * (hi - q) >= 0.0;
  }

  // ---------------------------------------------------------------- distance

  /** Sum of squared component differences, for vectors of one length. */
  function SquaredDistance(v1: seq<real>, v2: seq<real>): (d: real)
    requires |v1| == |v2|
    ensures d >= 0.0
  {
    if |v1| == 0 then 0.0
    else
      var d := v1[|v1| - 1] - v2[|v2| - 1];
      SquaredDistance(v1[..|v1| - 1], v2[..|v2| - 1]) + d * d
  }

  /** Panics with "dim" on vectors of different lengths; otherwise the sum of
      squared differences. The square root is not taken: it is monotone and
      distances are only ever compared with each other. */
  method EuclideanDistance(v1: seq<real>, v2: seq<real>) returns (dist: Result<real>)
    ensures dist.Err? <==> |v1| != |v2|
    ensures dist.Err? ==> dist.message == "dim"
    ensures dist.Ok? ==> dist.value == SquaredDistance(v1, v2)
  {
    if |v1| != |v2| {
      return Err("dim");
    }
    var sum := 0.0;
    for i := 0 to |v1|
      invariant sum == SquaredDistance(v1[..i], v2[..i])
    {
      assert v1[..i + 1][..i] == v1[..i] && v2[..i + 1][..i] == v2[..i];
      var d := v1[i] - v2[i];
      sum := sum + d * d;
    }
    assert v1[..|v1|] == v1 && v2[..|v2|] == v2;
    dist := Ok(sum);
  }

  /** The distance does not depend on the order of its arguments. */
  lemma {:induction false} SquaredDistanceSymmetric(v1: seq<real>, v2: seq<real>)
    requires |v1| == |v2|
    ensures SquaredDistance(v1, v2) == SquaredDistance(v2, v1)
  {
    if |v1| > 0 {
      var n := |v1| - 1;
      SquaredDistanceSymmetric(v1[..n], v2[..n]);
      var d := v1[n] - v2[n];
      assert d * d == (-d) * (-d);
    }
  }

  /** A vector is at distance zero from itself. */
  lemma {:induction false} SquaredDistanceToSelf(v: seq<real>)
    ensures SquaredDistance(v, v) == 0.0
  {
    if |v| > 0 {
      SquaredDistanceToSelf(v[..|v| - 1]);
    }
  }
}
