/**
 * The values a SlicedData object is built from and the validation its constructor
 * performs (`SlicedData.__init__` in kmap/library/sliceddata.py).
 */
module SlicedValues {
  import opened Wrappers
  import opened NdArrays

  /** A Python value handed to the constructor or held by an HDF5 dataset: a string or a numeric array. */
  datatype Value = Text(s: string) | Numeric(a: Nested)

  /** The list `[label, units, range]` the constructor receives for each axis (`label` is a keyword here, hence `caption`). */
  datatype AxisSpec = AxisSpec(caption: string, units: string, range: Value)

  /** An axis as `Axis.init_from_hdf_list` builds it: the list it was given and its number of points. */
  datatype Axis = Axis(caption: string, units: string, range: Value, num: nat)

  /** The state of a SlicedData object apart from its meta-data and its ID. */
  datatype Fields = Fields(name: string, data: Cube, axes: seq<Axis>)

  /** What every constructed object satisfies: axis k has as many points as dimension k of the data. */
  predicate WellFormed(f: Fields) {
    && f.name != ""
    && Solid(f.data)
    && |f.axes| == 3
    && forall k :: 0 <= k < 3 ==> f.axes[k].num == Dims(f.data)[k]
  }

  function Digit(k: nat): string
    requires k < 3
  {
    if k == 0 then "0" else if k == 1 then "1" else "2"
  }

  /** numpy's error for `data[:, 0, 0]`, `data[0, :, 0]` or `data[0, 0, :]` on an empty axis. */
  function EmptyAxisError(axis: nat): Error
    requires axis < 3
  {
    IndexError("index 0 is out of bounds for axis " + Digit(axis) + " with size 0")
  }

  /** `SlicedData(name, axis_1, axis_2, axis_3, data)`: the fields it sets, or the exception it raises. */
  function Construct(name: Value, axis1: AxisSpec, axis2: AxisSpec, axis3: AxisSpec, data: Value): (r: Result<Fields, Error>)
    ensures r.Success? <==>
      && name.Text? && name.s != ""
      && data.Numeric? && Shape(data.a).Some?
      && var s := Shape(data.a).value; |s| == 3 && s[0] > 0 && s[1] > 0 && s[2] > 0
    ensures !(name.Text? && name.s != "") ==> r == Failure(ValueError("name has to be string and not empty"))
    ensures name.Text? && name.s != "" && data.Numeric? && Shape(data.a).Some? && |Shape(data.a).value| != 3 ==>
      r == Failure(ValueError("data has to be 3D"))
    ensures r.Success? ==>
      && WellFormed(r.value)
      && r.value.name == name.s
      && FromCube(r.value.data) == data.a
      && Dims(r.value.data) == Shape(data.a).value
      && r.value.axes[0] == Axis(axis1.caption, axis1.units, axis1.range, Dims(r.value.data)[0])
      && r.value.axes[1] == Axis(axis2.caption, axis2.units, axis2.range, Dims(r.value.data)[1])
      && r.value.axes[2] == Axis(axis3.caption, axis3.units, axis3.range, Dims(r.value.data)[2])
  {
    if !(name.Text? && name.s != "") then Failure(ValueError("name has to be string and not empty"))
    else if data.Text? then Failure(ValueError("could not convert string to float"))
    else match Shape(data.a)
      case None => Failure(ValueError("setting an array element with a sequence: inhomogeneous shape"))
      case Some(s) =>
        if |s| != 3 then Failure(ValueError("data has to be 3D"))
        // `data[:, 0, 0]` fails on the last axis only: the other two are never empty here
        else if s[2] == 0 then Failure(EmptyAxisError(2))
        else
          InnerAxesNonEmpty(data.a, s);
          var c := ToCube(data.a);
          assert s == [s[0], s[1], s[2]];
          CubeOfShape(data.a, s[0], s[1], s[2]);
          CubeFromShape(data.a, s[0], s[1], s[2]);
          Success(Fields(name.s, c, [
            Axis(axis1.caption, axis1.units, axis1.range, s[0]),
            Axis(axis2.caption, axis2.units, axis2.range, s[1]),
            Axis(axis3.caption, axis3.units, axis3.range, s[2])]))
  }

  /** A 3-D array is exactly the array written back for the cube read from it. */
  lemma CubeFromShape(x: Nested, n0: nat, n1: nat, n2: nat)
    requires Shape(x) == Some([n0, n1, n2])
    ensures FromCube(ToCube(x)) == x
  {
    ShapeOfList(x, [n0, n1, n2]);
    var c := ToCube(x);
    forall i | 0 <= i < n0 ensures FromGrid(c[i]) == x.items[i] {
      var g := x.items[i];
      ShapeOfList(g, [n1, n2]);
      forall j | 0 <= j < n1 ensures FromRow(c[i][j]) == g.items[j] {
        var row := g.items[j];
        ShapeOfList(row, [n2]);
        forall k | 0 <= k < n2 ensures Num(c[i][j][k]) == row.items[k] {
          assert Shape(row.items[k]) == Some([]);
        }
        assert FromRow(c[i][j]).items == row.items;
      }
      assert FromGrid(c[i]).items == g.items;
    }
    assert FromCube(c).items == x.items;
  }
}
