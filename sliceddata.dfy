/**
 * The SlicedData object of kmap/library/sliceddata.py: a 3-D data cube with three axes,
 * a name and a meta-data dict, and the methods that change or read it in place.
 */
module Sliced {
  import opened Wrappers
  import opened PyDicts
  import opened NdArrays
  import opened SlicedValues
  import opened Hdf5Io
  import opened Texts

  /**
   * A Python dict object holding meta-data. Every call of `init_from_hdf5` that omits
   * `meta_data` receives the same default dict, so it is an object here, shared by reference.
   */
  class MetaDict {
    var entries: Dict<MetaValue>

    constructor (entries0: Dict<MetaValue>)
      ensures entries == entries0
    {
      entries := entries0;
    }

    /** `d.update({key: value})`. */
    method Put(key: string, value: MetaValue)
      modifies this
      ensures entries == Update(old(entries), key, value)
    {
      entries := Update(entries, key, value);
    }
  }

  /** `PlotData(data, range_)`: a 2-D slice and the ranges of its two axes. */
  datatype Plot = Plot(data: Grid, range: seq<Value>)

  /** numpy's error for an integer index outside an axis. */
  function IndexOutOfBounds(index: int, axis: nat, size: nat): Error {
    IndexError("index " + IntToString(index) + " is out of bounds for axis " + NatToString(axis) + " with size " + NatToString(size))
  }

  /** What `transpose(order)` makes of the fields, or the error numpy raises before anything changes. */
  function TransposeResult(f: Fields, order: seq<int>): (r: Result<Fields, Error>)
    requires WellFormed(f)
    ensures r.Success? <==> TransposeOrder(order, 3).Success?
    ensures r.Failure? ==> r.error == TransposeOrder(order, 3).error
    ensures r.Success? ==>
      var p := TransposeOrder(order, 3).value;
      && IsPerm3(p)
      && WellFormed(r.value)
      && r.value.name == f.name
      && (forall k :: 0 <= k < 3 ==> r.value.axes[k] == f.axes[p[k]] && Dims(r.value.data)[k] == Dims(f.data)[p[k]])
  {
    match TransposeOrder(order, 3)
    case Failure(e) => Failure(e)
    case Success(p) =>
      TransposeOrderAccepted(order);
      TransposedShape(f.data, p);
      Success(Fields(f.name, Transposed(f.data, p), Permuted(f.axes, p)))
  }

  /** The identity order changes nothing. */
  lemma TransposeIdentityOrder(f: Fields)
    requires WellFormed(f)
    ensures TransposeResult(f, [0, 1, 2]) == Success(f)
  {
    TransposeOrderAccepted([0, 1, 2]);
    assert TransposeOrder([0, 1, 2], 3).value == [0, 1, 2];
    TransposeIdentity(f.data);
    assert Permuted(f.axes, [0, 1, 2]) == f.axes;
  }

  /** Transposing by an accepted order and then by its inverse restores the fields. */
  lemma TransposeInverseOrder(f: Fields, order: seq<int>)
    requires WellFormed(f) && TransposeResult(f, order).Success?
    ensures var p := TransposeOrder(order, 3).value;
      TransposeResult(TransposeResult(f, order).value, Inverse(p)) == Success(f)
  {
    var p := TransposeOrder(order, 3).value;
    var q := Inverse(p);
    var g := TransposeResult(f, order).value;
    TransposeOrderAccepted(order);
    assert forall k :: 0 <= k < 3 ==> Normalized(q[k], 3) == q[k];
    TransposeOrderAccepted(q);
    assert TransposeOrder(q, 3).value == q;
    TransposeRoundTrip(f.data, p);
    PermuteRoundTrip(f.axes, p);
  }

  /** One block of `__str__`: the axis number and the axis' own text. */
  function AxisBlock(index: nat, text: string): string {
    "\n\nAxis " + NatToString(index) + "\n" + text
  }

  /** The blocks of the first `n` axes, in axis order. */
  function Blocks(axes: seq<Axis>, render: Axis -> string, n: nat): string
    requires n <= |axes|
  {
    if n == 0 then "" else Blocks(axes, render, n - 1) + AxisBlock(n - 1, render(axes[n - 1]))
  }

  /** The blocks of the first `m` axes open the blocks of the first `n`: earlier axes come first. */
  lemma {:induction false} BlocksPrefix(axes: seq<Axis>, render: Axis -> string, m: nat, n: nat)
    requires m <= n <= |axes|
    ensures Blocks(axes, render, m) <= Blocks(axes, render, n)
    decreases n
  {
    if m < n {
      BlocksPrefix(axes, render, m, n - 1);
    }
  }

  /** With three axes the text is the base, then `Axis 0`, `Axis 1` and `Axis 2` with their texts. */
  lemma ThreeBlocks(axes: seq<Axis>, render: Axis -> string)
    requires |axes| == 3
    ensures Blocks(axes, render, 3) ==
      "\n\nAxis 0\n" + render(axes[0]) + "\n\nAxis 1\n" + render(axes[1]) + "\n\nAxis 2\n" + render(axes[2])
  {
    assert NatToString(0) == "0" && NatToString(1) == "1" && NatToString(2) == "2";
    assert Blocks(axes, render, 1) == "\n\nAxis 0\n" + render(axes[0]);
    assert Blocks(axes, render, 2) == Blocks(axes, render, 1) + "\n\nAxis 1\n" + render(axes[1]);
  }

  class SlicedData {
    var name: string
    var data: Cube
    var axes: seq<Axis>
    /** The dict given to the constructor, held by reference. */
    const metaData: MetaDict

    /** The object's fields as a value. */
    function State(): Fields
      reads this
    {
      Fields(name, data, axes)
    }

    predicate Valid()
      reads this
    {
      WellFormed(State())
    }

    /** Field initialisation once the arguments have been validated. */
    constructor (f: Fields, meta: MetaDict)
      requires WellFormed(f)
      ensures State() == f && metaData == meta && Valid()
    {
      name, data, axes := f.name, f.data, f.axes;
      metaData := meta;
    }

    /** `SlicedData(name, axis_1, axis_2, axis_3, data, meta_data)`: a new object, or the exception. */
    static method Create(name: Value, axis1: AxisSpec, axis2: AxisSpec, axis3: AxisSpec, data: Value, meta: MetaDict)
      returns (r: Result<SlicedData, Error>)
      ensures Construct(name, axis1, axis2, axis3, data).Failure? ==>
        r == Failure(Construct(name, axis1, axis2, axis3, data).error)
      ensures Construct(name, axis1, axis2, axis3, data).Success? ==>
        && r.Success? && fresh(r.value) && r.value.Valid() && r.value.metaData == meta
        && r.value.State() == Construct(name, axis1, axis2, axis3, data).value
    {
      var c := Construct(name, axis1, axis2, axis3, data);
      if c.Failure? {
        return Failure(c.error);
      }
      var obj := new SlicedData(c.value, meta);
      return Success(obj);
    }

    /** `transpose(axes_order)`: data and axes permuted by the same order; nothing changes on error. */
    method Transpose(order: seq<int>) returns (r: Outcome<Error>)
      requires Valid()
      modifies this
      ensures Valid()
      ensures TransposeResult(old(State()), order).Failure? ==>
        r == Fail(TransposeResult(old(State()), order).error) && State() == old(State())
      ensures TransposeResult(old(State()), order).Success? ==>
        r == Pass && State() == TransposeResult(old(State()), order).value
    {
      var t := TransposeResult(State(), order);
      if t.Failure? {
        return Fail(t.error);
      }
      var p := TransposeOrder(order, 3).value;
      data := Transposed(data, p);
      axes := Permuted(axes, p);
      return Pass;
    }

    /**
     * `slice_from_index(index, axis)`: the 2-D slice at `index` along `axis` (negative
     * indices count from the end) with the ranges of the remaining axes, last one first.
     */
    function SliceFromIndex(index: int, axis: int): (r: Result<Plot, Error>)
      reads this
      requires Valid()
      ensures !(0 <= axis < 3) ==> r == Failure(ValueError("axis has to be between 1 and 3"))
      ensures 0 <= axis < 3 ==> (r.Success? <==> -Dims(data)[axis] <= index < Dims(data)[axis])
      ensures 0 <= axis < 3 && r.Failure? ==> r == Failure(IndexOutOfBounds(index, axis, Dims(data)[axis]))
      ensures r.Success? ==> 0 <= axis < 3 && IsSliceOf(r.value.data, data, axis, Normalized(index, Dims(data)[axis]))
      ensures r.Success? && axis == 0 ==> r.value.range == [axes[2].range, axes[1].range]
      ensures r.Success? && axis == 1 ==> r.value.range == [axes[2].range, axes[0].range]
      ensures r.Success? && axis == 2 ==> r.value.range == [axes[1].range, axes[0].range]
    {
      if !(0 <= axis < 3) then Failure(ValueError("axis has to be between 1 and 3"))
      else
        var n := Dims(data)[axis];
        if index < -n || n <= index then Failure(IndexOutOfBounds(index, axis, n))
        else
          var i := Normalized(index, n);
          SliceAtSpec(data, axis, i);
          var range := if axis == 0 then [axes[2].range, axes[1].range]
                       else if axis == 1 then [axes[2].range, axes[0].range]
                       else [axes[1].range, axes[0].range];
          Success(Plot(SliceAt(data, axis, i), range))
    }

    /**
     * `__str__`, given the base class' text and `str()` of an axis: one block per axis,
     * in order; the two newlines appended after the loop are cut off again.
     */
    method Str(base: string, render: Axis -> string) returns (rep: string)
      ensures rep == base + Blocks(axes, render, |axes|)
    {
      rep := base;
      var index := 0;
      while index < |axes|
        invariant 0 <= index <= |axes|
        invariant rep == base + Blocks(axes, render, index)
      {
        rep := rep + AxisBlock(index, render(axes[index]));
        index := index + 1;
      }
      var body := rep;
      rep := rep + "\n\n";
      assert rep[..|rep| - 2] == body;
      rep := rep[..|rep| - 2];
    }
  }

  /** One pass of the dispatch loop, seen from position `k` of `order`. */
  lemma ReadLoopStep(fk: Dict<string>, file: H5File, order: seq<string>, k: nat, st: Reading)
    requires forall n :: n in order ==> n in file
    requires k < |order| && st.error.None?
    ensures ReadLoop(fk, file, order[k..], st) == ReadLoop(fk, file, order[k + 1..], ReadStep(fk, file, st, order[k]))
  {
    assert order[k..][0] == order[k] && order[k..][1..] == order[k + 1..];
  }

  /** Once an exception is raised the loop reads nothing more. */
  lemma ReadLoopStops(fk: Dict<string>, file: H5File, order: seq<string>, st: Reading)
    requires forall n :: n in order ==> n in file
    requires st.error.Some?
    ensures ReadLoop(fk, file, order, st) == st
  {
  }

  /**
   * `SlicedData.init_from_hdf5(file, keys, meta_data)`: merges the keys, checks that every
   * dataset they name exists, dispatches the datasets of the file in `order`, and builds the
   * object. The result and the meta-data dict afterwards are those of `ReadHdf5`.
   */
  method InitFromHdf5(file: H5File, keys: Dict<string>, order: seq<string>, meta: MetaDict)
    returns (r: Result<SlicedData, Error>)
    requires Lists(order, file)
    modifies meta
    ensures meta.entries == ReadHdf5(file, keys, order, old(meta.entries)).1
    ensures r.Failure? <==> ReadHdf5(file, keys, order, old(meta.entries)).0.Failure?
    ensures r.Failure? ==> r.error == ReadHdf5(file, keys, order, old(meta.entries)).0.error
    ensures r.Success? ==>
      && fresh(r.value) && r.value.Valid() && r.value.metaData == meta
      && r.value.State() == ReadHdf5(file, keys, order, old(meta.entries)).0.value
  {
    var fileKeys := FileKeys(keys);
    r := ReadDatasets(file, fileKeys, order, meta);
  }

  /** The body of `init_from_hdf5` after `file_keys.update(keys)`. */
  method ReadDatasets(file: H5File, fileKeys: Dict<string>, order: seq<string>, meta: MetaDict)
    returns (r: Result<SlicedData, Error>)
    requires Lists(order, file)
    modifies meta
    ensures meta.entries == ReadWithKeys(file, fileKeys, order, old(meta.entries)).1
    ensures r.Failure? <==> ReadWithKeys(file, fileKeys, order, old(meta.entries)).0.Failure?
    ensures r.Failure? ==> r.error == ReadWithKeys(file, fileKeys, order, old(meta.entries)).0.error
    ensures r.Success? ==>
      && fresh(r.value) && r.value.Valid() && r.value.metaData == meta
      && r.value.State() == ReadWithKeys(file, fileKeys, order, old(meta.entries)).0.value
  {
    // first check that every dataset the keys name exists
    var j := 0;
    while j < |fileKeys|
      invariant 0 <= j <= |fileKeys|
      invariant forall i :: 0 <= i < j ==> fileKeys[i].1 in file
    {
      if fileKeys[j].1 !in file {
        assert FirstMissing(fileKeys, file) == Some(j);
        return Failure(AttributeError("Dataset is missing " + fileKeys[j].1));
      }
      j := j + 1;
    }
    assert FirstMissing(fileKeys, file).None?;
    // then read every dataset
    ghost var final := ReadLoop(fileKeys, file, order, Reading(map[], meta.entries, None));
    assert order[0..] == order;
    var bound: map<string, Value> := map[];
    var k := 0;
    while k < |order|
      invariant 0 <= k <= |order|
      invariant ReadLoop(fileKeys, file, order[k..], Reading(bound, meta.entries, None)) == final
    {
      var key := order[k];
      ReadLoopStep(fileKeys, file, order, k, Reading(bound, meta.entries, None));
      match RoleIndex(fileKeys, key, 0) {
        case Some(i) =>
          if i < 7 && !file[key].Text? {
            ReadLoopStops(fileKeys, file, order[k + 1..], Reading(bound, meta.entries, Some(NotAString)));
            return Failure(NotAString);
          }
          bound := bound[Roles[i] := file[key]];
        case None =>
          meta.Put(key, Item(file[key]));
      }
      k := k + 1;
    }
    assert order[k..] == [];
    assert final == Reading(bound, meta.entries, None);
    match FirstUnbound(bound, AccessOrder)
    case Some(v) =>
      return Failure(UnboundLocalError(v));
    case None =>
      r := SlicedData.Create(Var(bound, "name"),
        AxisSpec(TextOf(Var(bound, "axis_1_label")), TextOf(Var(bound, "axis_1_units")), Var(bound, "axis_1_range")),
        AxisSpec(TextOf(Var(bound, "axis_2_label")), TextOf(Var(bound, "axis_2_units")), Var(bound, "axis_2_range")),
        AxisSpec(TextOf(Var(bound, "axis_3_label")), TextOf(Var(bound, "axis_3_units")), Var(bound, "axis_3_range")),
        Var(bound, "data"), meta);
  }
}
