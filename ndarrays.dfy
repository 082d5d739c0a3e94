/**
 * The numpy behaviour the data cube relies on: building an array from nested lists,
 * its shape, transposing a 3-D array by an axis order, and taking a 2-D slice.
 */
module NdArrays {
  import opened Wrappers
  import opened Texts

  /** A value np.array accepts: a number, or a list of such values. */
  datatype Nested = Num(v: real) | List(items: seq<Nested>)

  /**
   * The shape `np.array(x, dtype=np.float64)` gives `x`, or None when the nesting is
   * ragged (numpy then raises ValueError: the requested array has an inhomogeneous shape).
   */
  function Shape(x: Nested): Option<seq<nat>> {
    match x
    case Num(_) => Some([])
    case List(items) =>
      if |items| == 0 then Some([0])
      else
        var s := Shape(items[0]);
        if s.Some? && forall i :: 0 <= i < |items| ==> Shape(items[i]) == s
        then Some([|items|] + s.value)
        else None
  }

  /** A grid of values indexed [row][column]. */
  type Grid = seq<seq<real>>

  /** A 3-D array indexed [i][j][k]. */
  type Cube = seq<seq<seq<real>>>

  predicate IsBox(c: Cube, n0: nat, n1: nat, n2: nat) {
    && |c| == n0
    && (forall i :: 0 <= i < n0 ==> |c[i]| == n1)
    && (forall i, j :: 0 <= i < n0 && 0 <= j < n1 ==> |c[i][j]| == n2)
  }

  /** `data.shape` of a 3-D array (0 where an empty outer level hides the inner length). */
  function Dims(c: Cube): (d: seq<nat>)
    ensures |d| == 3 && d[0] == |c|
  {
    [|c|, if |c| > 0 then |c[0]| else 0, if |c| > 0 && |c[0]| > 0 then |c[0][0]| else 0]
  }

  /** A cube whose every dimension is at least one and whose rows all have the same length. */
  predicate Solid(c: Cube) {
    var d := Dims(c);
    d[0] > 0 && d[1] > 0 && d[2] > 0 && IsBox(c, d[0], d[1], d[2])
  }

  /** `c[i, j, k]`, or 0 outside the cube. */
  function At(c: Cube, i: int, j: int, k: int): real {
    if 0 <= i < |c| && 0 <= j < |c[i]| && 0 <= k < |c[i][j]| then c[i][j][k] else 0.0
  }

  function Items(x: Nested): seq<Nested> {
    if x.List? then x.items else []
  }

  function NumOf(x: Nested): real {
    if x.Num? then x.v else 0.0
  }

  function ToRow(x: Nested): seq<real> {
    seq(|Items(x)|, k requires 0 <= k < |Items(x)| => NumOf(Items(x)[k]))
  }

  function ToGrid(x: Nested): Grid {
    seq(|Items(x)|, j requires 0 <= j < |Items(x)| => ToRow(Items(x)[j]))
  }

  /** The cells of an array whose shape has three dimensions. */
  function ToCube(x: Nested): Cube {
    seq(|Items(x)|, i requires 0 <= i < |Items(x)| => ToGrid(Items(x)[i]))
  }

  function FromRow(r: seq<real>): Nested {
    List(seq(|r|, k requires 0 <= k < |r| => Num(r[k])))
  }

  function FromGrid(g: Grid): Nested {
    List(seq(|g|, j requires 0 <= j < |g| => FromRow(g[j])))
  }

  /** The float64 array holding a cube, as written to an HDF5 dataset. */
  function FromCube(c: Cube): Nested {
    List(seq(|c|, i requires 0 <= i < |c| => FromGrid(c[i])))
  }

  lemma ShapeOfList(x: Nested, s: seq<nat>)
    requires Shape(x) == Some(s) && |s| > 0
    ensures x.List? && |x.items| == s[0]
    ensures forall i :: 0 <= i < |x.items| ==> Shape(x.items[i]) == Some(s[1..])
  {
  }

  /**
   * Nested lists hold no array with an empty axis other than the last one: an empty
   * list ends the nesting.
   */
  lemma {:induction false} InnerAxesNonEmpty(x: Nested, s: seq<nat>)
    requires Shape(x) == Some(s)
    ensures forall k :: 0 <= k < |s| - 1 ==> s[k] > 0
  {
    if |s| > 1 {
      ShapeOfList(x, s);
      InnerAxesNonEmpty(x.items[0], s[1..]);
      assert forall k :: 1 <= k < |s| - 1 ==> s[k] == s[1..][k - 1];
    }
  }

  /** Reading back the array written for a cube gives the cube. */
  lemma {:induction false} CubeRoundTrip(c: Cube)
    ensures ToCube(FromCube(c)) == c
  {
    forall i | 0 <= i < |c| ensures ToGrid(FromGrid(c[i])) == c[i] {
      forall j | 0 <= j < |c[i]| ensures ToRow(FromRow(c[i][j])) == c[i][j] {
      }
    }
  }

  lemma ShapeOfUniform(items: seq<Nested>, s: seq<nat>)
    requires |items| > 0 && forall i :: 0 <= i < |items| ==> Shape(items[i]) == Some(s)
    ensures Shape(List(items)) == Some([|items|] + s)
  {
    assert Shape(items[0]) == Some(s);
  }

  /** The array written for a solid cube is 3-D with the cube's dimensions. */
  lemma {:induction false} ShapeOfCube(c: Cube)
    requires Solid(c)
    ensures Shape(FromCube(c)) == Some(Dims(c))
  {
    var d := Dims(c);
    forall i, j | 0 <= i < d[0] && 0 <= j < d[1] ensures Shape(FromRow(c[i][j])) == Some([d[2]]) {
      var row := FromRow(c[i][j]);
      forall k | 0 <= k < |row.items| ensures Shape(row.items[k]) == Some([]) {
        assert row.items[k] == Num(c[i][j][k]);
      }
      ShapeOfUniform(row.items, []);
      assert [|row.items|] + [] == [d[2]];
    }
    forall i | 0 <= i < d[0] ensures Shape(FromGrid(c[i])) == Some([d[1], d[2]]) {
      var g := FromGrid(c[i]);
      forall j | 0 <= j < |g.items| ensures Shape(g.items[j]) == Some([d[2]]) {
        assert g.items[j] == FromRow(c[i][j]);
      }
      ShapeOfUniform(g.items, [d[2]]);
      assert [|g.items|] + [d[2]] == [d[1], d[2]];
    }
    var x := FromCube(c);
    forall i | 0 <= i < |x.items| ensures Shape(x.items[i]) == Some([d[1], d[2]]) {
      assert x.items[i] == FromGrid(c[i]);
    }
    ShapeOfUniform(x.items, [d[1], d[2]]);
    assert [|x.items|] + [d[1], d[2]] == d;
  }

  lemma GridOfShape(g: Nested, n1: nat, n2: nat)
    requires Shape(g) == Some([n1, n2])
    ensures |ToGrid(g)| == n1 && forall j :: 0 <= j < n1 ==> |ToGrid(g)[j]| == n2
  {
    ShapeOfList(g, [n1, n2]);
    forall j | 0 <= j < n1 ensures |ToGrid(g)[j]| == n2 {
      ShapeOfList(g.items[j], [n2]);
    }
  }

  /** An array of shape [n0, n1, n2] yields a cube of those dimensions. */
  lemma {:induction false} CubeOfShape(x: Nested, n0: nat, n1: nat, n2: nat)
    requires Shape(x) == Some([n0, n1, n2])
    ensures IsBox(ToCube(x), n0, n1, n2)
  {
    ShapeOfList(x, [n0, n1, n2]);
    var c := ToCube(x);
    forall i | 0 <= i < n0 ensures |c[i]| == n1 && forall j :: 0 <= j < n1 ==> |c[i][j]| == n2 {
      GridOfShape(x.items[i], n1, n2);
    }
  }

  /** Two cubes of the same dimensions with the same cells are equal. */
  lemma SameCube(u: Cube, c: Cube, n0: nat, n1: nat, n2: nat)
    requires IsBox(u, n0, n1, n2) && IsBox(c, n0, n1, n2)
    requires forall i, j, k :: 0 <= i < n0 && 0 <= j < n1 && 0 <= k < n2 ==> u[i][j][k] == c[i][j][k]
    ensures u == c
  {
    forall i | 0 <= i < n0 ensures u[i] == c[i] {
      forall j | 0 <= j < n1 ensures u[i][j] == c[i][j] {
      }
    }
  }

  // ---------------------------------------------------------------- transpose

  /** A normalised axis order of a 3-D array: a permutation of 0, 1, 2. */
  predicate IsPerm3(p: seq<nat>) {
    |p| == 3 && p[0] < 3 && p[1] < 3 && p[2] < 3 && p[0] != p[1] && p[0] != p[2] && p[1] != p[2]
  }

  function Inverse(p: seq<nat>): (q: seq<nat>)
    requires IsPerm3(p)
    ensures IsPerm3(q)
    ensures forall k :: 0 <= k < 3 ==> q[p[k]] == k && p[q[k]] == k
  {
    seq(3, m requires 0 <= m < 3 => if p[0] == m then 0 else if p[1] == m then 1 else 2)
  }

  lemma InverseInverse(p: seq<nat>)
    requires IsPerm3(p)
    ensures Inverse(Inverse(p)) == p
  {
    var r := Inverse(Inverse(p));
    assert forall k :: 0 <= k < 3 ==> r[k] == p[k];
  }

  /** The index along axis m of `c` of the cell the transpose by `p` puts at (a, b, e). */
  function Source(p: seq<nat>, a: int, b: int, e: int, m: nat): int
    requires |p| == 3
  {
    if p[0] == m then a else if p[1] == m then b else e
  }

  /** `c.transpose(p)` for a normalised order `p`. */
  function Transposed(c: Cube, p: seq<nat>): Cube
    requires IsPerm3(p)
  {
    var d := Dims(c);
    seq(d[p[0]], a => seq(d[p[1]], b => seq(d[p[2]], e =>
      At(c, Source(p, a, b, e, 0), Source(p, a, b, e, 1), Source(p, a, b, e, 2)))))
  }

  /** Component m of the index (i0, i1, i2). */
  function Sel(i0: int, i1: int, i2: int, m: nat): int {
    if m == 0 then i0 else if m == 1 then i1 else i2
  }

  lemma TransposedShape(c: Cube, p: seq<nat>)
    requires Solid(c) && IsPerm3(p)
    ensures var d := Dims(c); Solid(Transposed(c, p)) && Dims(Transposed(c, p)) == [d[p[0]], d[p[1]], d[p[2]]]
  {
    var d := Dims(c);
    assert IsBox(Transposed(c, p), d[p[0]], d[p[1]], d[p[2]]);
  }

  lemma TransposedAt(c: Cube, p: seq<nat>, i0: int, i1: int, i2: int)
    requires Solid(c) && IsPerm3(p)
    requires 0 <= i0 < Dims(c)[0] && 0 <= i1 < Dims(c)[1] && 0 <= i2 < Dims(c)[2]
    ensures Transposed(c, p)[Sel(i0, i1, i2, p[0])][Sel(i0, i1, i2, p[1])][Sel(i0, i1, i2, p[2])] == c[i0][i1][i2]
  {
    var a, b, e := Sel(i0, i1, i2, p[0]), Sel(i0, i1, i2, p[1]), Sel(i0, i1, i2, p[2]);
    assert Source(p, a, b, e, 0) == i0 && Source(p, a, b, e, 1) == i1 && Source(p, a, b, e, 2) == i2;
  }

  /**
   * numpy's definition of the transpose: dimension k of the result is dimension p[k] of `c`,
   * and the cell of `c` at index j sits in the result at index (j[p[0]], j[p[1]], j[p[2]]).
   */
  lemma TransposedCells(c: Cube, p: seq<nat>)
    requires Solid(c) && IsPerm3(p)
    ensures var d := Dims(c);
      && Solid(Transposed(c, p))
      && Dims(Transposed(c, p)) == [d[p[0]], d[p[1]], d[p[2]]]
      && forall i0, i1, i2 :: 0 <= i0 < d[0] && 0 <= i1 < d[1] && 0 <= i2 < d[2] ==>
           Transposed(c, p)[Sel(i0, i1, i2, p[0])][Sel(i0, i1, i2, p[1])][Sel(i0, i1, i2, p[2])] == c[i0][i1][i2]
  {
    TransposedShape(c, p);
    var d := Dims(c);
    forall i0, i1, i2 | 0 <= i0 < d[0] && 0 <= i1 < d[1] && 0 <= i2 < d[2]
      ensures Transposed(c, p)[Sel(i0, i1, i2, p[0])][Sel(i0, i1, i2, p[1])][Sel(i0, i1, i2, p[2])] == c[i0][i1][i2]
    {
      TransposedAt(c, p, i0, i1, i2);
    }
  }

  /** Transposing by the identity order changes nothing. */
  lemma TransposeIdentity(c: Cube)
    requires Solid(c)
    ensures Transposed(c, [0, 1, 2]) == c
  {
    var d := Dims(c);
    TransposedCells(c, [0, 1, 2]);
    SameCube(Transposed(c, [0, 1, 2]), c, d[0], d[1], d[2]);
  }

  /** Transposing by an order and then by its inverse restores the cube. */
  lemma {:induction false} TransposeRoundTrip(c: Cube, p: seq<nat>)
    requires Solid(c) && IsPerm3(p)
    ensures Transposed(Transposed(c, p), Inverse(p)) == c
  {
    var d := Dims(c);
    var q := Inverse(p);
    var t := Transposed(c, p);
    TransposedShape(c, p);
    TransposedShape(t, q);
    var u := Transposed(t, q);
    assert Dims(u) == d;
    forall i0, i1, i2 | 0 <= i0 < d[0] && 0 <= i1 < d[1] && 0 <= i2 < d[2]
      ensures u[i0][i1][i2] == c[i0][i1][i2]
    {
      var a, b, e := Sel(i0, i1, i2, p[0]), Sel(i0, i1, i2, p[1]), Sel(i0, i1, i2, p[2]);
      TransposedAt(c, p, i0, i1, i2);
      TransposedAt(t, q, a, b, e);
      assert Sel(a, b, e, q[0]) == i0 && Sel(a, b, e, q[1]) == i1 && Sel(a, b, e, q[2]) == i2;
    }
    SameCube(u, c, d[0], d[1], d[2]);
  }

  /** `[s[k] for k in p]`. */
  function Permuted<T>(s: seq<T>, p: seq<nat>): (r: seq<T>)
    requires forall k :: 0 <= k < |p| ==> p[k] < |s|
    ensures |r| == |p| && forall k :: 0 <= k < |p| ==> r[k] == s[p[k]]
  {
    seq(|p|, k requires 0 <= k < |p| => s[p[k]])
  }

  /** Permuting a three-element list by an order and then by its inverse restores it. */
  lemma PermuteRoundTrip<T>(s: seq<T>, p: seq<nat>)
    requires |s| == 3 && IsPerm3(p)
    ensures Permuted(Permuted(s, p), Inverse(p)) == s
  {
    var r := Permuted(Permuted(s, p), Inverse(p));
    assert forall k :: 0 <= k < 3 ==> r[k] == s[p[Inverse(p)[k]]] == s[k];
  }

  /** A Python index into a list or axis of length n: a negative index counts from the end. */
  function Normalized(a: int, n: nat): int {
    if a < 0 then a + n else a
  }

  /**
   * The check numpy's transpose makes of each entry of an axis order, left to right:
   * in [-ndim, ndim) (else AxisError), and not naming an axis already named (else ValueError).
   */
  function NormalizeAxes(order: seq<int>, ndim: nat, seen: set<nat>): Result<seq<nat>, Error>
    decreases |order|
  {
    if order == [] then Success([])
    else if order[0] + ndim < 0 || order[0] >= ndim then
      Failure(AxisError("axis " + IntToString(order[0]) + " is out of bounds for array of dimension " + NatToString(ndim)))
    else
      var n: nat := Normalized(order[0], ndim);
      if n in seen then Failure(ValueError("repeated axis in transpose"))
      else match NormalizeAxes(order[1..], ndim, seen + {n})
        case Success(rest) => Success([n] + rest)
        case Failure(e) => Failure(e)
  }

  /** `a.transpose(order)` for an array of `ndim` dimensions: the order it uses, or its error. */
  function TransposeOrder(order: seq<int>, ndim: nat): Result<seq<nat>, Error> {
    if |order| != ndim then Failure(ValueError("axes don't match array"))
    else NormalizeAxes(order, ndim, {})
  }

  lemma {:induction false} NormalizeAxesSpec(order: seq<int>, ndim: nat, seen: set<nat>)
    ensures NormalizeAxes(order, ndim, seen).Success? <==>
      && (forall k :: 0 <= k < |order| ==> 0 <= order[k] + ndim && order[k] < ndim)
      && (forall k :: 0 <= k < |order| ==> Normalized(order[k], ndim) !in seen)
      && (forall k, l :: 0 <= k < l < |order| ==> Normalized(order[k], ndim) != Normalized(order[l], ndim))
    ensures NormalizeAxes(order, ndim, seen).Success? ==>
      var r := NormalizeAxes(order, ndim, seen).value;
      |r| == |order| && forall k :: 0 <= k < |order| ==> r[k] == Normalized(order[k], ndim)
    decreases |order|
  {
    if order != [] && 0 <= order[0] + ndim && order[0] < ndim {
      var n := Normalized(order[0], ndim);
      NormalizeAxesSpec(order[1..], ndim, seen + {n});
      assert forall k :: 0 < k < |order| ==> order[k] == order[1..][k - 1];
    }
  }

  /**
   * numpy accepts an axis order for a 3-D array exactly when it has three entries, each in
   * [-3, 3), naming three different axes; the order it then uses is a permutation of 0, 1, 2.
   */
  lemma TransposeOrderAccepted(order: seq<int>)
    ensures TransposeOrder(order, 3).Success? <==>
      && |order| == 3
      && (forall k :: 0 <= k < 3 ==> -3 <= order[k] < 3)
      && Normalized(order[0], 3) != Normalized(order[1], 3)
      && Normalized(order[0], 3) != Normalized(order[2], 3)
      && Normalized(order[1], 3) != Normalized(order[2], 3)
    ensures TransposeOrder(order, 3).Success? ==>
      var p := TransposeOrder(order, 3).value;
      IsPerm3(p) && forall k :: 0 <= k < 3 ==> p[k] == Normalized(order[k], 3)
  {
    if |order| == 3 {
      NormalizeAxesSpec(order, 3, {});
    }
  }

  // ---------------------------------------------------------------- slicing

  /** `c[i, :, :]`, `c[:, i, :]` or `c[:, :, i]` for axis 0, 1 or 2. */
  function SliceAt(c: Cube, axis: nat, i: nat): Grid
    requires axis < 3
  {
    var d := Dims(c);
    if axis == 0 then seq(d[1], b => seq(d[2], e => At(c, i, b, e)))
    else if axis == 1 then seq(d[0], a => seq(d[2], e => At(c, a, i, e)))
    else seq(d[0], a => seq(d[1], b => At(c, a, b, i)))
  }

  /** `g` is `c` with index `i` fixed on `axis`: the two remaining axes, in their order. */
  predicate IsSliceOf(g: Grid, c: Cube, axis: nat, i: nat)
    requires Solid(c) && axis < 3 && i < Dims(c)[axis]
  {
    var d := Dims(c);
    if axis == 0 then
      && |g| == d[1] && (forall a :: 0 <= a < d[1] ==> |g[a]| == d[2])
      && forall a, b :: 0 <= a < d[1] && 0 <= b < d[2] ==> g[a][b] == c[i][a][b]
    else if axis == 1 then
      && |g| == d[0] && (forall a :: 0 <= a < d[0] ==> |g[a]| == d[2])
      && forall a, b :: 0 <= a < d[0] && 0 <= b < d[2] ==> g[a][b] == c[a][i][b]
    else
      && |g| == d[0] && (forall a :: 0 <= a < d[0] ==> |g[a]| == d[1])
      && forall a, b :: 0 <= a < d[0] && 0 <= b < d[1] ==> g[a][b] == c[a][b][i]
  }

  lemma SliceAtSpec(c: Cube, axis: nat, i: nat)
    requires Solid(c) && axis < 3 && i < Dims(c)[axis]
    ensures IsSliceOf(SliceAt(c, axis, i), c, axis, i)
  {
  }
}
