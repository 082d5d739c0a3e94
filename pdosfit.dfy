/**
 * The per-slice decomposition of example/example5.py: a parameter template with one
 * weight per simulated orbital map and a constant background, the residual the
 * minimiser is given, and the loop that fits every energy slice and fills the pDOS table.
 * The minimiser, the orbital maps and the interpolation are parameters.
 */
module PdosFit {
  import opened Wrappers
  import opened PyDicts
  import opened NdArrays
  import opened Sliced
  import opened Texts

  /** An lmfit parameter as the script adds it: its value and its lower bound. */
  datatype Param = Param(value: real, min: real)

  /** `value=1, min=0`. */
  const Initial: Param := Param(1.0, 0.0)

  predicate Distinct(names: seq<string>) {
    forall i, j :: 0 <= i < j < |names| ==> names[i] != names[j]
  }

  // ---------------------------------------------------------------- template

  /** The parameters after `params.add(name, value=1, min=0)` for each name in turn. */
  function Weights(names: seq<string>): Dict<Param>
    decreases |names|
  {
    if names == [] then [] else Update(Weights(names[..|names| - 1]), names[|names| - 1], Initial)
  }

  /** Every weight starts at 1 with lower bound 0, names a given orbital, and appears once. */
  lemma {:induction false} WeightsEntries(names: seq<string>)
    ensures var r := Weights(names);
      && UniqueKeys(r) && |r| <= |names|
      && forall j :: 0 <= j < |r| ==> r[j].1 == Initial && r[j].0 in names
    decreases |names|
  {
    if names != [] {
      var prev := names[..|names| - 1];
      WeightsEntries(prev);
      assert forall n :: n in prev ==> n in names;
    }
  }

  /** Every orbital name gets a weight. */
  lemma {:induction false} WeightsCover(names: seq<string>)
    ensures forall n :: n in names ==> HasKey(Weights(names), n)
    decreases |names|
  {
    if names != [] {
      var prev := names[..|names| - 1];
      WeightsCover(prev);
      assert forall n :: n in names ==> n in prev || n == names[|names| - 1];
    }
  }

  /** With distinct names, weight j belongs to orbital j. */
  lemma {:induction false} WeightsInOrder(names: seq<string>)
    ensures Distinct(names) ==> |Weights(names)| == |names| && forall j :: 0 <= j < |names| ==> Weights(names)[j] == (names[j], Initial)
    decreases |names|
  {
    if names != [] && Distinct(names) {
      var prev := names[..|names| - 1];
      var last := names[|names| - 1];
      assert Distinct(prev) && last !in prev;
      WeightsInOrder(prev);
      WeightsEntries(prev);
      var d := Weights(prev);
      KeysFrom(d, prev, last);
      assert Weights(names) == d + [(last, Initial)];
    }
  }

  /** A dict whose keys all come from `names` has no other key. */
  lemma KeysFrom<V>(d: Dict<V>, names: seq<string>, k: string)
    requires forall j :: 0 <= j < |d| ==> d[j].0 in names
    ensures k !in names ==> !HasKey(d, k)
  {
    if HasKey(d, k) {
      assert d[Find(d, k).value].0 == k;
    }
  }

  /** After `d[k] = v` every key is one of `names` or `k`. */
  lemma UpdateKeys<V>(d: Dict<V>, k: string, v: V, names: seq<string>)
    requires forall j :: 0 <= j < |d| ==> d[j].0 in names
    ensures forall n :: HasKey(Update(d, k, v), n) ==> n in names || n == k
  {
    var r := Update(d, k, v);
    forall n | HasKey(r, n) ensures n in names || n == k {
      var j := Find(r, n).value;
      assert (j < |d| && r[j] == d[j]) || r[j] == (k, v);
    }
  }

  /** The template: the weights, then `params.add('background', value=1, min=0)`. */
  function Template(names: seq<string>): Dict<Param> {
    Update(Weights(names), "background", Initial)
  }

  /** Every parameter of the template starts at 1 with lower bound 0; its names are the orbitals' and 'background'. */
  lemma TemplateEntries(names: seq<string>)
    ensures var r := Template(names);
      && UniqueKeys(r)
      && (forall j :: 0 <= j < |r| ==> r[j].1 == Initial)
      && (forall n :: HasKey(r, n) <==> n in names || n == "background")
  {
    var w := Weights(names);
    WeightsEntries(names);
    WeightsCover(names);
    UpdateKeys(w, "background", Initial, names);
  }

  /**
   * The background is added last, so every other parameter sits at a position below the
   * number of orbitals (and hence has a simulated map); a fresh name 'background' is the last entry.
   */
  lemma TemplatePositions(names: seq<string>)
    ensures var r := Template(names);
      forall j :: 0 <= j < |r| && r[j].0 != "background" ==> j < |names|
    ensures "background" !in names ==> |Template(names)| > 0 && Template(names)[|Template(names)| - 1] == ("background", Initial)
  {
    var w := Weights(names);
    WeightsEntries(names);
    KeysFrom(w, names, "background");
    if "background" in names {
      WeightsCover(names);
    }
  }

  /** With distinct orbital names none of which is 'background': one weight per orbital in order, then the background. */
  lemma TemplateInOrder(names: seq<string>)
    requires Distinct(names) && "background" !in names
    ensures var r := Template(names);
      && |r| == |names| + 1
      && (forall j :: 0 <= j < |names| ==> r[j] == (names[j], Initial))
      && r[|names|] == ("background", Initial)
  {
    var w := Weights(names);
    WeightsEntries(names);
    WeightsInOrder(names);
    KeysFrom(w, names, "background");
    assert Template(names) == w + [("background", Initial)];
  }

  lemma WeightsStep(names: seq<string>, i: nat)
    requires i < |names|
    ensures Weights(names[..i + 1]) == Update(Weights(names[..i]), names[i], Initial)
  {
    assert names[..i + 1][..i] == names[..i];
  }

  /**
   * Lines 21-37: the loop that adds one weight per orbital name and appends the orbital's
   * simulated map to `sim_kmaps`, then the background. `kmapOf(name)` is the interpolated map
   * the script computes from the orbital's cube file.
   */
  method BuildTemplate(names: seq<string>, kmapOf: string -> Grid) returns (params: Dict<Param>, simKmaps: seq<Grid>)
    ensures params == Template(names)
    ensures |simKmaps| == |names| && forall i :: 0 <= i < |names| ==> simKmaps[i] == kmapOf(names[i])
  {
    params := [];
    simKmaps := [];
    for i := 0 to |names|
      invariant params == Weights(names[..i])
      invariant |simKmaps| == i && forall k :: 0 <= k < i ==> simKmaps[k] == kmapOf(names[k])
    {
      simKmaps := simKmaps + [kmapOf(names[i])];
      assert forall k :: 0 <= k < i + 1 ==> simKmaps[k] == kmapOf(names[k]);
      WeightsStep(names, i);
      params := Update(params, names[i], Initial);
    }
    assert names[..|names|] == names;
    params := Update(params, "background", Initial);
  }

  // ---------------------------------------------------------------- residual

  /** `params.valuesdict()`. */
  function ValuesDict(params: Dict<Param>): (p: Dict<real>)
    ensures |p| == |params| && forall j :: 0 <= j < |p| ==> p[j] == (params[j].0, params[j].1.value)
  {
    seq(|params|, j requires 0 <= j < |params| => (params[j].0, params[j].1.value))
  }

  predicate SameShape(g: Grid, h: Grid) {
    |g| == |h| && forall a :: 0 <= a < |g| ==> |g[a]| == |h[a]|
  }

  /** `g[a, b]`, or 0 outside the grid. */
  function Cell(g: Grid, a: int, b: int): real {
    if 0 <= a < |g| && 0 <= b < |g[a]| then g[a][b] else 0.0
  }

  /** Every weight at position j has a simulated map `sims[j]` to scale. */
  predicate WeightsIndexed(p: Dict<real>, sims: seq<Grid>) {
    forall j :: 0 <= j < |p| && p[j].0 != "background" ==> j < |sims|
  }

  /** The sum over the first n entries of p, background excluded, of the weight times its map at (a, b). */
  function WeightedSum(p: Dict<real>, sims: seq<Grid>, n: nat, a: int, b: int): real
    requires n <= |p|
  {
    if n == 0 then 0.0
    else
      var k := n - 1;
      WeightedSum(p, sims, k, a, b) + if p[k].0 != "background" && k < |sims| then p[k].1 * Cell(sims[k], a, b) else 0.0
  }

  /**
   * What `chi2_function` returns for parameter values `p`: at every grid point the weighted
   * sum of the simulated maps minus (the data minus the background).
   */
  function Residual(p: Dict<real>, data: Grid, sims: seq<Grid>): (r: Result<Grid, Error>)
    ensures r.Success? <==> WeightsIndexed(p, sims) && HasKey(p, "background")
    ensures !WeightsIndexed(p, sims) ==> r == Failure(IndexError("list index out of range"))
    ensures WeightsIndexed(p, sims) && !HasKey(p, "background") ==> r == Failure(KeyError("background"))
    ensures r.Success? ==> SameShape(r.value, data)
  {
    if !WeightsIndexed(p, sims) then Failure(IndexError("list index out of range"))
    else match Get(p, "background")
      case None => Failure(KeyError("background"))
      case Some(bg) =>
        Success(seq(|data|, a requires 0 <= a < |data| =>
          seq(|data[a]|, b requires 0 <= b < |data[a]| => WeightedSum(p, sims, |p|, a, b) - (data[a][b] - bg))))
  }

  /** The residual at each grid point is Σ wᵢ·Kᵢ − (E − background). */
  lemma ResidualAt(p: Dict<real>, data: Grid, sims: seq<Grid>, a: nat, b: nat)
    requires Residual(p, data, sims).Success? && a < |data| && b < |data[a]|
    ensures Residual(p, data, sims).value[a][b] ==
      WeightedSum(p, sims, |p|, a, b) - (data[a][b] - Get(p, "background").value)
  {
  }

  /** Data that is exactly the weighted maps plus the background leaves a residual of zero everywhere. */
  lemma ExactFitIsZero(p: Dict<real>, data: Grid, sims: seq<Grid>)
    requires Residual(p, data, sims).Success?
    requires forall a, b :: 0 <= a < |data| && 0 <= b < |data[a]| ==>
      data[a][b] == WeightedSum(p, sims, |p|, a, b) + Get(p, "background").value
    ensures forall a, b :: 0 <= a < |data| && 0 <= b < |data[a]| ==> Residual(p, data, sims).value[a][b] == 0.0
  {
    var bg := Get(p, "background").value;
    forall a, b | 0 <= a < |data| && 0 <= b < |data[a]| ensures Residual(p, data, sims).value[a][b] == 0.0 {
      ResidualAt(p, data, sims, a, b);
    }
  }

  /**
   * During a fit the minimiser keeps the template's names, so the residual never raises:
   * every weight indexes a simulated map, and the background is there.
   */
  lemma TemplateResidualDefined(names: seq<string>, params: Dict<Param>, data: Grid, sims: seq<Grid>)
    requires Keys(params) == Keys(Template(names)) && |sims| == |names|
    ensures Residual(ValuesDict(params), data, sims).Success?
  {
    var t := Template(names);
    TemplateEntries(names);
    TemplatePositions(names);
    var p := ValuesDict(params);
    assert |params| == |Keys(params)| == |t|;
    assert forall j :: 0 <= j < |p| ==> p[j].0 == t[j].0 by {
      forall j | 0 <= j < |p| ensures p[j].0 == t[j].0 {
        assert Keys(params)[j] == Keys(t)[j];
      }
    }
    assert HasKey(t, "background");
    var i := Find(t, "background").value;
    assert p[i].0 == "background";
  }

  function Zeros(data: Grid): (z: Grid)
    ensures SameShape(z, data) && forall a, b :: 0 <= a < |z| && 0 <= b < |z[a]| ==> z[a][b] == 0.0
  {
    seq(|data|, a requires 0 <= a < |data| => seq(|data[a]|, b => 0.0))
  }

  /** `s += w * g`. */
  function AddScaled(s: Grid, w: real, g: Grid): (r: Grid)
    requires SameShape(g, s)
    ensures SameShape(r, s) && forall a, b :: 0 <= a < |s| && 0 <= b < |s[a]| ==> r[a][b] == s[a][b] + w * g[a][b]
  {
    seq(|s|, a requires 0 <= a < |s| => seq(|s[a]|, b requires 0 <= b < |s[a]| => s[a][b] + w * g[a][b]))
  }

  /** `s - (data - bg)`. */
  function Difference(s: Grid, data: Grid, bg: real): (r: Grid)
    requires SameShape(s, data)
    ensures SameShape(r, data) && forall a, b :: 0 <= a < |s| && 0 <= b < |s[a]| ==> r[a][b] == s[a][b] - (data[a][b] - bg)
  {
    seq(|s|, a requires 0 <= a < |s| => seq(|s[a]|, b requires 0 <= b < |s[a]| => s[a][b] - (data[a][b] - bg)))
  }

  /**
   * `chi2_function(params, data)`, with `sim_kmaps` as `sims` (the script interpolates every
   * map and every slice onto the same grid, so they all have the shape of `data`).
   */
  method Chi2(params: Dict<Param>, data: Grid, sims: seq<Grid>) returns (r: Result<Grid, Error>)
    requires forall k :: 0 <= k < |sims| ==> SameShape(sims[k], data)
    ensures r == Residual(ValuesDict(params), data, sims)
  {
    var p := ValuesDict(params);
    var sum := Zeros(data);
    var i := 0;
    while i < |p|
      invariant 0 <= i <= |p|
      invariant forall k :: 0 <= k < i && p[k].0 != "background" ==> k < |sims|
      invariant SameShape(sum, data)
      invariant forall a, b :: 0 <= a < |data| && 0 <= b < |data[a]| ==> sum[a][b] == WeightedSum(p, sims, i, a, b)
    {
      if p[i].0 != "background" {
        if i >= |sims| {
          assert !WeightsIndexed(p, sims);
          return Failure(IndexError("list index out of range"));
        }
        sum := AddScaled(sum, p[i].1, sims[i]);
      }
      i := i + 1;
    }
    var bg := Get(p, "background");
    assert WeightsIndexed(p, sims);
    if bg.None? {
      return Failure(KeyError("background"));
    }
    r := Success(Difference(sum, data, bg.value));
    ghost var expected := Residual(p, data, sims).value;
    forall a | 0 <= a < |data| ensures r.value[a] == expected[a] {
      assert forall b :: 0 <= b < |data[a]| ==> r.value[a][b] == expected[a][b];
    }
    assert r.value == expected;
  }

  // ---------------------------------------------------------------- slice loop

  /**
   * The parameter values the minimiser returns for slice i of the data cube: built from the
   * template and the slice `exp_data.slice_from_index(i)` after interpolation.
   */
  function SliceFit(data: Cube, template: Dict<Param>, interp: Grid -> Grid,
                    minimize: (Dict<Param>, Grid) -> Dict<Param>, i: nat): Dict<real>
    requires Solid(data) && i < |data|
  {
    ValuesDict(minimize(template, interp(SliceAt(data, 0, i))))
  }

  /**
   * Lines 61-62: `pDOS[i, j] = pdir[p]` for the parameters in order, stopped (`complete` false)
   * by the first column beyond the table.
   */
  method WriteRow(pdos: array2<real>, i: nat, pdir: Dict<real>) returns (complete: bool)
    requires i < pdos.Length0
    modifies pdos
    ensures complete <==> |pdir| <= pdos.Length1
    ensures forall a, b :: 0 <= a < pdos.Length0 && 0 <= b < pdos.Length1 ==>
      pdos[a, b] == if a == i && b < |pdir| then pdir[b].1 else old(pdos[a, b])
  {
    var j := 0;
    while j < |pdir|
      invariant 0 <= j <= |pdir| && j <= pdos.Length1
      invariant forall a, b :: 0 <= a < pdos.Length0 && 0 <= b < pdos.Length1 ==>
        pdos[a, b] == if a == i && b < j then pdir[b].1 else old(pdos[a, b])
    {
      if j == pdos.Length1 {
        return false;
      }
      pdos[i, j] := pdir[j].1;
      j := j + 1;
    }
    return true;
  }

  /**
   * Lines 53-62: one fit per slice, in index order, each from the same template; row i of
   * pDOS holds the values of fit i in parameter order, and a fit with more values than the
   * table has columns stops the script with numpy's IndexError. `fits` lists the fits made.
   */
  method FitSlices(exp: SlicedData, names: seq<string>, template: Dict<Param>, interp: Grid -> Grid,
                   minimize: (Dict<Param>, Grid) -> Dict<Param>)
    returns (pdos: array2<real>, r: Outcome<Error>, ghost fits: seq<Dict<real>>)
    requires exp.Valid()
    ensures fresh(pdos) && pdos.Length0 == |exp.data| && pdos.Length1 == |names| + 1
    ensures |fits| <= |exp.data|
    ensures forall i :: 0 <= i < |fits| ==> fits[i] == SliceFit(exp.data, template, interp, minimize, i)
    ensures r.Pass? <==> |fits| == |exp.data| && forall i :: 0 <= i < |fits| ==> |fits[i]| <= |names| + 1
    ensures r.Fail? ==>
      && 0 < |fits| && |fits[|fits| - 1]| > |names| + 1
      && (forall i :: 0 <= i < |fits| - 1 ==> |fits[i]| <= |names| + 1)
      && r.error == IndexOutOfBounds(|names| + 1, 1, |names| + 1)
    ensures forall i, j :: 0 <= i < pdos.Length0 && 0 <= j < pdos.Length1 ==>
      pdos[i, j] == if i < |fits| && j < |fits[i]| then fits[i][j].1 else 0.0
  {
    var nslice := |exp.data|;
    var cols := |names| + 1;
    pdos := new real[nslice, cols]((_, _) => 0.0);
    fits := [];
    var i := 0;
    while i < nslice
      invariant 0 <= i <= nslice && |fits| == i
      invariant forall k :: 0 <= k < i ==> fits[k] == SliceFit(exp.data, template, interp, minimize, k) && |fits[k]| <= cols
      invariant forall a, b :: 0 <= a < nslice && 0 <= b < cols ==>
        pdos[a, b] == if a < i && b < |fits[a]| then fits[a][b].1 else 0.0
    {
      var expKmap := exp.SliceFromIndex(i, 0).value;
      assert expKmap.data == SliceAt(exp.data, 0, i);
      var pdir := ValuesDict(minimize(template, interp(expKmap.data)));
      fits := fits + [pdir];
      var complete := WriteRow(pdos, i, pdir);
      if !complete {
        return pdos, Fail(IndexOutOfBounds(cols, 1, cols)), fits;
      }
      i := i + 1;
    }
    r := Pass;
  }

  /**
   * With distinct orbital names and a minimiser that keeps the template's names, column j of
   * pDOS is the weight of orbital j and the last column is the background.
   */
  lemma PdosColumns(names: seq<string>, fit: Dict<Param>)
    requires Distinct(names) && "background" !in names
    requires Keys(fit) == Keys(Template(names))
    ensures |ValuesDict(fit)| == |names| + 1
    ensures forall j :: 0 <= j < |names| ==> ValuesDict(fit)[j].0 == names[j]
    ensures ValuesDict(fit)[|names|].0 == "background"
  {
    var t := Template(names);
    TemplateInOrder(names);
    assert |Keys(fit)| == |t|;
    assert forall j :: 0 <= j < |t| ==> fit[j].0 == Keys(t)[j] == t[j].0;
  }
}
