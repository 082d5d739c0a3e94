/**
 * What `SlicedData.init_from_hdf5` reads from an HDF5 file and what `write_hdf5`
 * writes to one (kmap/library/sliceddata.py). A file is a map from top-level dataset
 * name to dataset value; the order h5py lists the datasets in is a parameter.
 */
module Hdf5Io {
  import opened Wrappers
  import opened PyDicts
  import opened NdArrays
  import opened SlicedValues

  /** The top-level datasets of an HDF5 file, by name. */
  type H5File = map<string, Value>

  /** `order` is what `file.items()` yields: every dataset of `file` exactly once. */
  predicate Lists(order: seq<string>, file: H5File) {
    && (forall i, j :: 0 <= i < j < |order| ==> order[i] != order[j])
    && (forall n :: n in order ==> n in file)
    && (forall n :: n in file ==> n in order)
  }

  /** A meta-data entry: a single value, or (under 'Orbital Info') a dict of values. */
  datatype MetaValue = Item(v: Value) | Group(members: Dict<Value>)

  /** The eleven roles in the order the dispatch in `init_from_hdf5` tests them. */
  const Roles: seq<string> := [
    "name", "axis_1_label", "axis_2_label", "axis_3_label",
    "axis_1_units", "axis_2_units", "axis_3_units",
    "axis_1_range", "axis_2_range", "axis_3_range", "data"]

  lemma RolesDistinct()
    ensures forall i, j :: 0 <= i < j < |Roles| ==> Roles[i] != Roles[j]
  {
  }

  /** The default `file_keys`: every role is looked up under its own name. */
  const DefaultKeys: Dict<string> := [
    ("name", "name"),
    ("axis_1_label", "axis_1_label"), ("axis_1_units", "axis_1_units"), ("axis_1_range", "axis_1_range"),
    ("axis_2_label", "axis_2_label"), ("axis_2_units", "axis_2_units"), ("axis_2_range", "axis_2_range"),
    ("axis_3_label", "axis_3_label"), ("axis_3_units", "axis_3_units"), ("axis_3_range", "axis_3_range"),
    ("data", "data")]

  /** `file_keys.update(keys)`. */
  function FileKeys(keys: Dict<string>): Dict<string> {
    UpdateAll(DefaultKeys, keys)
  }

  lemma DefaultKeysUnique()
    ensures UniqueKeys(DefaultKeys)
  {
  }

  /** Under the default keys every role is looked up under its own name (`d` is `DefaultKeys`). */
  lemma DefaultKeysRoles(d: Dict<string>)
    requires d == DefaultKeys
    ensures UniqueKeys(d)
    ensures forall i :: 0 <= i < |Roles| ==> Get(d, Roles[i]) == Some(Roles[i])
  {
    DefaultKeysUnique();
    // where each role sits in DefaultKeys
    var at: seq<nat> := [0, 1, 4, 7, 2, 5, 8, 3, 6, 9, 10];
    forall i | 0 <= i < |Roles| ensures Get(d, Roles[i]) == Some(Roles[i]) {
      assert d[at[i]] == (Roles[i], Roles[i]);
      GetUnique(d, at[i]);
    }
  }

  /** A key the caller passes overrides the default; every other role keeps its own name. */
  lemma FileKeysOverride(keys: Dict<string>, role: string)
    requires UniqueKeys(keys) && role in Roles
    ensures Get(FileKeys(keys), role) == if HasKey(keys, role) then Get(keys, role) else Some(role)
    ensures HasKey(FileKeys(keys), role)
  {
    DefaultKeysRoles(DefaultKeys);
    UpdateAllGet(DefaultKeys, keys, role);
  }

  /** The first entry of `fk` whose dataset name is not in the file. */
  function FirstMissing(fk: Dict<string>, file: H5File): (r: Option<nat>)
    ensures r.Some? ==> r.value < |fk| && fk[r.value].1 !in file
    ensures r.Some? ==> forall j :: 0 <= j < r.value ==> fk[j].1 in file
    ensures r.None? ==> forall j :: 0 <= j < |fk| ==> fk[j].1 in file
  {
    if fk == [] then None
    else if fk[0].1 !in file then Some(0)
    else match FirstMissing(fk[1..], file)
      case None => None
      case Some(i) => Some(i + 1)
  }

  /** The position in `Roles` of the first role whose key names `key`, searching from `i`. */
  function RoleIndex(fk: Dict<string>, key: string, i: nat): (r: Option<nat>)
    requires i <= |Roles|
    ensures r.Some? ==> i <= r.value < |Roles| && Get(fk, Roles[r.value]) == Some(key)
    ensures forall j :: i <= j < |Roles| && (r.None? || j < r.value) ==> Get(fk, Roles[j]) != Some(key)
    decreases |Roles| - i
  {
    if i == |Roles| then None
    else if Get(fk, Roles[i]) == Some(key) then Some(i)
    else RoleIndex(fk, key, i + 1)
  }

  /** The branch of the if/elif chain a dataset called `key` takes (None: the meta-data branch). */
  function RoleOf(fk: Dict<string>, key: string): (r: Option<string>)
    ensures r.Some? ==> r.value in Roles && Get(fk, r.value) == Some(key)
    ensures r.Some? ==>
      (exists i :: 0 <= i < |Roles| && Roles[i] == r.value && forall j :: 0 <= j < i ==> Get(fk, Roles[j]) != Some(key))
    ensures r.None? ==> forall j :: 0 <= j < |Roles| ==> Get(fk, Roles[j]) != Some(key)
  {
    match RoleIndex(fk, key, 0)
    case None => None
    case Some(i) => Some(Roles[i])
  }

  /** The local variables bound so far, the meta-data dict, and the exception raised, if any. */
  datatype Reading = Reading(bound: map<string, Value>, meta: Dict<MetaValue>, error: Option<Error>)

  /** h5py's `asstr()` on a dataset that does not hold strings. */
  const NotAString: Error := TypeError("dataset does not hold strings")

  /** One pass of the loop over `file.items()`. */
  function ReadStep(fk: Dict<string>, file: H5File, st: Reading, key: string): Reading
    requires key in file
  {
    match RoleIndex(fk, key, 0)
    case Some(i) =>
      // the first seven branches read the dataset through asstr()
      if i < 7 && !file[key].Text? then st.(error := Some(NotAString))
      else st.(bound := st.bound[Roles[i] := file[key]])
    case None => st.(meta := Update(st.meta, key, Item(file[key])))
  }

  /** The loop over the datasets of `order`, stopped by the first exception. */
  function ReadLoop(fk: Dict<string>, file: H5File, order: seq<string>, st: Reading): Reading
    requires forall n :: n in order ==> n in file
    decreases |order|
  {
    if order == [] || st.error.Some? then st
    else ReadLoop(fk, file, order[1..], ReadStep(fk, file, st, order[0]))
  }

  /** Every dataset the chain reads as a string holds one. */
  predicate TextRolesAreText(fk: Dict<string>, file: H5File, order: seq<string>)
    requires forall n :: n in order ==> n in file
  {
    forall n :: n in order && RoleIndex(fk, n, 0).Some? && RoleIndex(fk, n, 0).value < 7 ==> file[n].Text?
  }

  /** The meta-data entries the loop adds: the datasets that match no role, in order. */
  function NonRoleEntries(fk: Dict<string>, file: H5File, order: seq<string>): Dict<MetaValue>
    requires forall n :: n in order ==> n in file
    decreases |order|
  {
    if order == [] then []
    else
      var rest := NonRoleEntries(fk, file, order[1..]);
      if RoleOf(fk, order[0]).None? then [(order[0], Item(file[order[0]]))] + rest else rest
  }

  /** The variables in the order `axis_1`, `axis_2`, `axis_3` and the constructor call use them. */
  const AccessOrder: seq<string> := [
    "axis_1_label", "axis_1_units", "axis_1_range",
    "axis_2_label", "axis_2_units", "axis_2_range",
    "axis_3_label", "axis_3_units", "axis_3_range",
    "name", "data"]

  lemma AccessOrderIsRoles()
    ensures forall n :: n in AccessOrder <==> n in Roles
  {
  }

  /** The first variable of `names` that was never assigned. */
  function FirstUnbound(bound: map<string, Value>, names: seq<string>): (r: Option<string>)
    ensures r.Some? ==> r.value in names && r.value !in bound
    ensures r.Some? ==>
      (exists i :: 0 <= i < |names| && names[i] == r.value && forall j :: 0 <= j < i ==> names[j] in bound)
    ensures r.None? <==> forall n :: n in names ==> n in bound
  {
    if names == [] then None
    else if names[0] !in bound then Some(names[0])
    else
      var r := FirstUnbound(bound, names[1..]);
      assert forall j :: 1 <= j < |names| ==> names[j] == names[1..][j - 1];
      r
  }

  /** A value read through `asstr()`. */
  function TextOf(v: Value): string {
    if v.Text? then v.s else ""
  }

  /** The value of a variable the loop bound. */
  function Var(bound: map<string, Value>, v: string): Value {
    if v in bound then bound[v] else Text("")
  }

  /** Lines 102-106: the axis lists and the constructor call, after the loop. */
  function Assemble(bound: map<string, Value>): (r: Result<Fields, Error>)
    ensures r.Success? ==> WellFormed(r.value)
    ensures FirstUnbound(bound, AccessOrder).Some? ==> r.Failure? && r.error.UnboundLocalError?
  {
    match FirstUnbound(bound, AccessOrder)
    case Some(v) => Failure(UnboundLocalError(v))
    case None =>
      Construct(Var(bound, "name"),
        AxisSpec(TextOf(Var(bound, "axis_1_label")), TextOf(Var(bound, "axis_1_units")), Var(bound, "axis_1_range")),
        AxisSpec(TextOf(Var(bound, "axis_2_label")), TextOf(Var(bound, "axis_2_units")), Var(bound, "axis_2_range")),
        AxisSpec(TextOf(Var(bound, "axis_3_label")), TextOf(Var(bound, "axis_3_units")), Var(bound, "axis_3_range")),
        Var(bound, "data"))
  }

  /**
   * `init_from_hdf5(file, keys, meta_data)`: the object's fields or the exception, and the
   * meta-data dict afterwards (the caller's dict, changed in place even when reading fails).
   */
  function ReadHdf5(file: H5File, keys: Dict<string>, order: seq<string>, meta: Dict<MetaValue>): (r: (Result<Fields, Error>, Dict<MetaValue>))
    requires Lists(order, file)
    ensures r.0.Success? ==> WellFormed(r.0.value)
  {
    ReadWithKeys(file, FileKeys(keys), order, meta)
  }

  /** Lines 55-106: the presence check, the dispatch loop and the constructor call, for merged keys `fk`. */
  function ReadWithKeys(file: H5File, fk: Dict<string>, order: seq<string>, meta: Dict<MetaValue>): (r: (Result<Fields, Error>, Dict<MetaValue>))
    requires Lists(order, file)
    ensures r.0.Success? ==> WellFormed(r.0.value)
  {
    match FirstMissing(fk, file)
    case Some(i) => (Failure(AttributeError("Dataset is missing " + fk[i].1)), meta)
    case None =>
      var st := ReadLoop(fk, file, order, Reading(map[], meta, None));
      if st.error.Some? then (Failure(st.error.value), st.meta) else (Assemble(st.bound), st.meta)
  }

  // ---------------------------------------------------------------- reading

  /** A missing dataset raises AttributeError before anything is read: the meta-data is untouched. */
  lemma MissingDataset(file: H5File, keys: Dict<string>, order: seq<string>, meta: Dict<MetaValue>)
    requires Lists(order, file)
    ensures var r := ReadHdf5(file, keys, order, meta);
      (r.0.Failure? && r.0.error.AttributeError?) <==> exists j :: 0 <= j < |FileKeys(keys)| && FileKeys(keys)[j].1 !in file
    ensures var r := ReadHdf5(file, keys, order, meta);
      r.0.Failure? && r.0.error.AttributeError? ==> r.1 == meta
  {
    var fk := FileKeys(keys);
    var st := ReadLoop(fk, file, order, Reading(map[], meta, None));
    if FirstMissing(fk, file).None? {
      ReadLoopError(fk, file, order, Reading(map[], meta, None));
      if st.error.None? {
        AssembleError(st.bound);
      }
    }
  }

  /** Only a type error can stop the loop, and exactly when a string role names a non-string dataset. */
  lemma {:induction false} ReadLoopError(fk: Dict<string>, file: H5File, order: seq<string>, st: Reading)
    requires forall n :: n in order ==> n in file
    requires st.error.None?
    ensures ReadLoop(fk, file, order, st).error.None? <==> TextRolesAreText(fk, file, order)
    ensures ReadLoop(fk, file, order, st).error in {None, Some(NotAString)}
    decreases |order|
  {
    if order != [] {
      var st' := ReadStep(fk, file, st, order[0]);
      assert forall n :: n in order[1..] ==> n in order;
      if st'.error.None? {
        ReadLoopError(fk, file, order[1..], st');
        assert forall n :: n in order <==> n == order[0] || n in order[1..];
      } else {
        assert !TextRolesAreText(fk, file, order) by {
          assert order[0] in order;
        }
      }
    }
  }

  /** A construction failure is never an AttributeError. */
  lemma AssembleError(bound: map<string, Value>)
    ensures !(Assemble(bound).Failure? && Assemble(bound).error.AttributeError?)
  {
  }

  /** When the loop completes, the meta-data is the old dict updated with the non-role datasets, in order. */
  lemma {:induction false} ReadLoopMeta(fk: Dict<string>, file: H5File, order: seq<string>, st: Reading)
    requires forall n :: n in order ==> n in file
    requires ReadLoop(fk, file, order, st).error.None?
    ensures ReadLoop(fk, file, order, st).meta == UpdateAll(st.meta, NonRoleEntries(fk, file, order))
    decreases |order|
  {
    if order != [] {
      var st' := ReadStep(fk, file, st, order[0]);
      var rest := NonRoleEntries(fk, file, order[1..]);
      ReadLoopMeta(fk, file, order[1..], st');
      if RoleOf(fk, order[0]).None? {
        var e := [(order[0], Item(file[order[0]]))] + rest;
        assert e[0] == (order[0], Item(file[order[0]])) && e[1..] == rest;
      }
    }
  }

  /** Even when the loop stops early, a key enters the meta-data only as a non-role dataset of the file. */
  lemma {:induction false} ReadLoopMetaKeys(fk: Dict<string>, file: H5File, order: seq<string>, st: Reading, k: string)
    requires forall n :: n in order ==> n in file
    ensures HasKey(ReadLoop(fk, file, order, st).meta, k) ==> HasKey(st.meta, k) || (k in order && RoleOf(fk, k).None?)
    decreases |order|
  {
    if order != [] && st.error.None? {
      var st' := ReadStep(fk, file, st, order[0]);
      assert forall n :: n in order[1..] ==> n in order;
      ReadLoopMetaKeys(fk, file, order[1..], st', k);
      assert HasKey(st'.meta, k) ==> HasKey(st.meta, k) || (k == order[0] && RoleOf(fk, k).None?) by {
        if RoleOf(fk, order[0]).None? && k != order[0] {
          assert Get(st'.meta, k) == Get(st.meta, k);
        }
      }
    }
  }

  lemma {:induction false} NonRoleEntriesKeys(fk: Dict<string>, file: H5File, order: seq<string>, k: string)
    requires forall n :: n in order ==> n in file
    ensures HasKey(NonRoleEntries(fk, file, order), k) <==> k in order && RoleOf(fk, k).None?
    decreases |order|
  {
    if order != [] {
      var rest := NonRoleEntries(fk, file, order[1..]);
      NonRoleEntriesKeys(fk, file, order[1..], k);
      assert forall n :: n in order <==> n == order[0] || n in order[1..];
      if RoleOf(fk, order[0]).None? {
        var e := [(order[0], Item(file[order[0]]))] + rest;
        assert forall i :: 0 < i < |e| ==> e[i] == rest[i - 1];
        if HasKey(rest, k) && k != order[0] {
          var i := Find(rest, k).value;
          assert e[i + 1].0 == k;
        }
      }
    }
  }

  lemma {:induction false} NonRoleEntriesUnique(fk: Dict<string>, file: H5File, order: seq<string>)
    requires forall n :: n in order ==> n in file
    requires forall i, j :: 0 <= i < j < |order| ==> order[i] != order[j]
    ensures UniqueKeys(NonRoleEntries(fk, file, order))
    decreases |order|
  {
    if order != [] {
      var rest := NonRoleEntries(fk, file, order[1..]);
      assert forall i, j :: 0 <= i < j < |order[1..]| ==> order[1..][i] != order[1..][j] by {
        forall i, j | 0 <= i < j < |order[1..]| ensures order[1..][i] != order[1..][j] {
          assert order[1..][i] == order[i + 1] && order[1..][j] == order[j + 1];
        }
      }
      NonRoleEntriesUnique(fk, file, order[1..]);
      if RoleOf(fk, order[0]).None? {
        NonRoleEntriesKeys(fk, file, order[1..], order[0]);
        assert order[0] !in order[1..];
        PrependUnique(order[0], Item(file[order[0]]), rest);
      }
    }
  }

  /** The dataset a role is read from when its key names a dataset of `order` that reaches that role's branch. */
  predicate ReadsRole(fk: Dict<string>, order: seq<string>, r: string) {
    Get(fk, r).Some? && Get(fk, r).value in order && RoleOf(fk, Get(fk, r).value) == Some(r)
  }

  /** Only role datasets are bound to variables, each to its role's value in the file. */
  lemma {:induction false} ReadLoopBound(fk: Dict<string>, file: H5File, order: seq<string>, st: Reading, r: string)
    requires forall n :: n in order ==> n in file
    requires ReadLoop(fk, file, order, st).error.None?
    ensures r in ReadLoop(fk, file, order, st).bound <==> r in st.bound || ReadsRole(fk, order, r)
    ensures ReadsRole(fk, order, r) ==> ReadLoop(fk, file, order, st).bound[r] == file[Get(fk, r).value]
    ensures !ReadsRole(fk, order, r) && r in st.bound ==> ReadLoop(fk, file, order, st).bound[r] == st.bound[r]
    decreases |order|
  {
    if order != [] {
      var st' := ReadStep(fk, file, st, order[0]);
      ReadLoopBound(fk, file, order[1..], st', r);
      assert forall n :: n in order <==> n == order[0] || n in order[1..];
    }
  }

  // ------------------------------------------------------------- writing

  /** The datasets `write_hdf5` creates before the meta-data, in order. */
  function FixedDatasets(f: Fields): Dict<Value>
    requires |f.axes| == 3
  {
    [ ("name", Text(f.name)), ("alias", Text(f.name)),
      ("axis_1_label", Text(f.axes[0].caption)), ("axis_2_label", Text(f.axes[1].caption)), ("axis_3_label", Text(f.axes[2].caption)),
      ("axis_1_units", Text(f.axes[0].units)), ("axis_2_units", Text(f.axes[1].units)), ("axis_3_units", Text(f.axes[2].units)),
      ("axis_1_range", f.axes[0].range), ("axis_2_range", f.axes[1].range), ("axis_3_range", f.axes[2].range),
      ("data", Numeric(FromCube(f.data)))]
  }

  /** h5py's error for `create_dataset` with a name the file already holds. */
  const NameExists: Error := ValueError("Unable to create dataset (name already exists)")

  /** `create_dataset` for each entry in turn. */
  function CreateAll(file: H5File, entries: Dict<Value>): (r: Result<H5File, Error>)
    ensures r.Success? ==> forall n :: n in file ==> n in r.value && r.value[n] == file[n]
    ensures r.Success? ==> forall i :: 0 <= i < |entries| ==> entries[i].0 in r.value && entries[i].0 !in file
    ensures r.Success? ==> forall n :: n in r.value ==> n in file || HasKey(entries, n)
    ensures r.Success? ==> UniqueKeys(entries)
    ensures r.Failure? ==> r.error == NameExists
    decreases |entries|
  {
    if entries == [] then Success(file)
    else if entries[0].0 in file then Failure(NameExists)
    else
      var r := CreateAll(file[entries[0].0 := entries[0].1], entries[1..]);
      if r.Success? then
        assert forall i :: 0 < i < |entries| ==> entries[i] == entries[1..][i - 1];
        assert forall n :: HasKey(entries[1..], n) ==> HasKey(entries, n) by {
          forall n | HasKey(entries[1..], n) ensures HasKey(entries, n) {
            assert entries[Find(entries[1..], n).value + 1].0 == n;
          }
        }
        r
      else r
  }

  /** The datasets one meta-data entry becomes. */
  function EntryDatasets(key: string, v: MetaValue): Result<Dict<Value>, Error> {
    if key != "Orbital Info" then
      if v.Item? then Success([(key, v.v)])
      else Failure(TypeError("Object dtype has no native HDF5 equivalent"))
    else if v.Group? then Success(v.members)
    else if v.v == Text("") then Success([])
    else Failure(TypeError("string indices must be integers"))
  }

  /** The loop over `self.meta_data`. */
  function WriteMeta(file: H5File, meta: Dict<MetaValue>): Result<H5File, Error>
    decreases |meta|
  {
    if meta == [] then Success(file)
    else match EntryDatasets(meta[0].0, meta[0].1)
      case Failure(e) => Failure(e)
      case Success(ds) =>
        match CreateAll(file, ds)
        case Failure(e) => Failure(e)
        case Success(f1) => WriteMeta(f1, meta[1..])
  }

  /** `write_hdf5`: the file written, or the exception (an empty file is created first). */
  function WriteHdf5(f: Fields, meta: Dict<MetaValue>): Result<H5File, Error>
    requires |f.axes| == 3
  {
    match CreateAll(map[], FixedDatasets(f))
    case Failure(e) => Failure(e)
    case Success(file) => WriteMeta(file, meta)
  }

  lemma {:induction false} WriteMetaKeeps(file: H5File, meta: Dict<MetaValue>)
    ensures WriteMeta(file, meta).Success? ==>
      forall n :: n in file ==> n in WriteMeta(file, meta).value && WriteMeta(file, meta).value[n] == file[n]
    decreases |meta|
  {
    if meta != [] {
      match EntryDatasets(meta[0].0, meta[0].1)
      case Failure(_) =>
      case Success(ds) =>
        match CreateAll(file, ds)
        case Failure(_) =>
        case Success(f1) => WriteMetaKeeps(f1, meta[1..]);
    }
  }

  /** Creating datasets with distinct fresh names always succeeds. */
  lemma {:induction false} CreateAllFresh(file: H5File, entries: Dict<Value>)
    requires UniqueKeys(entries)
    requires forall i :: 0 <= i < |entries| ==> entries[i].0 !in file
    ensures CreateAll(file, entries).Success?
    decreases |entries|
  {
    if entries != [] {
      var file' := file[entries[0].0 := entries[0].1];
      assert forall i :: 0 <= i < |entries[1..]| ==> entries[1..][i] == entries[i + 1];
      CreateAllFresh(file', entries[1..]);
    }
  }

  /** The fixed part of a write always succeeds. */
  lemma FixedWrite(f: Fields)
    requires |f.axes| == 3
    ensures CreateAll(map[], FixedDatasets(f)).Success?
  {
    var ds := FixedDatasets(f);
    assert UniqueKeys(ds);
    CreateAllFresh(map[], ds);
  }

  lemma {:induction false} CreateAllValues(file: H5File, entries: Dict<Value>)
    requires CreateAll(file, entries).Success?
    ensures forall i :: 0 <= i < |entries| ==> CreateAll(file, entries).value[entries[i].0] == entries[i].1
    decreases |entries|
  {
    if entries != [] {
      var file' := file[entries[0].0 := entries[0].1];
      CreateAllValues(file', entries[1..]);
      assert forall i :: 0 < i < |entries| ==> entries[i] == entries[1..][i - 1];
    }
  }

  /** The names `write_hdf5` gives its fixed datasets, in order. */
  const FixedNames: seq<string> := [
    "name", "alias", "axis_1_label", "axis_2_label", "axis_3_label",
    "axis_1_units", "axis_2_units", "axis_3_units",
    "axis_1_range", "axis_2_range", "axis_3_range", "data"]

  /** Where `write_hdf5` puts the dataset of each role (an index into `FixedNames`). */
  const RolePos: seq<nat> := [0, 2, 3, 4, 5, 6, 7, 8, 9, 10, 11]

  /** The value `write_hdf5` stores for role `i`. */
  function RoleValue(f: Fields, i: nat): Value
    requires |f.axes| == 3 && i < |Roles|
  {
    FixedDatasets(f)[RolePos[i]].1
  }

  lemma FixedLayout(f: Fields)
    requires |f.axes| == 3
    ensures |FixedDatasets(f)| == |FixedNames|
    ensures forall i :: 0 <= i < |FixedNames| ==> FixedDatasets(f)[i].0 == FixedNames[i]
    ensures forall i :: 0 <= i < |Roles| ==> RolePos[i] < |FixedNames| && FixedNames[RolePos[i]] == Roles[i]
    ensures forall i :: 0 <= i < 7 ==> RoleValue(f, i).Text?
  {
  }

  /** `file` holds the twelve fixed datasets of `f`. */
  predicate HoldsFixed(f: Fields, file: H5File)
    requires |f.axes| == 3
  {
    forall i :: 0 <= i < |FixedNames| ==> FixedNames[i] in file && file[FixedNames[i]] == FixedDatasets(f)[i].1
  }

  /** A successful write holds the twelve fixed datasets, whatever the meta-data adds. */
  lemma Written(f: Fields, meta: Dict<MetaValue>)
    requires |f.axes| == 3
    requires WriteHdf5(f, meta).Success?
    ensures HoldsFixed(f, WriteHdf5(f, meta).value)
  {
    FixedLayout(f);
    CreateAllValues(map[], FixedDatasets(f));
    WriteMetaKeeps(CreateAll(map[], FixedDatasets(f)).value, meta);
  }

  /** Each role's dataset in a file holding the fixed datasets. */
  lemma HoldsRoles(f: Fields, file: H5File)
    requires |f.axes| == 3 && HoldsFixed(f, file)
    ensures forall i :: 0 <= i < |Roles| ==> Roles[i] in file && file[Roles[i]] == RoleValue(f, i)
    ensures forall i :: 0 <= i < 7 ==> file[Roles[i]].Text?
  {
    FixedLayout(f);
    forall i | 0 <= i < |Roles| ensures Roles[i] in file && file[Roles[i]] == RoleValue(f, i) {
      assert FixedNames[RolePos[i]] == Roles[i];
    }
  }

  /** Every default key names a fixed dataset (`d` is `DefaultKeys`). */
  lemma DefaultNames(d: Dict<string>)
    requires d == DefaultKeys
    ensures forall j :: 0 <= j < |d| ==> d[j].1 in FixedNames
  {
    // where each default key sits in FixedNames
    var at: seq<nat> := [0, 2, 5, 8, 3, 6, 9, 4, 7, 10, 11];
    forall j | 0 <= j < |d| ensures d[j].1 in FixedNames {
      assert d[j].1 == FixedNames[at[j]];
    }
  }

  lemma HoldsDefaults(f: Fields, file: H5File, d: Dict<string>)
    requires |f.axes| == 3 && HoldsFixed(f, file) && d == DefaultKeys
    ensures FirstMissing(d, file).None?
  {
    DefaultNames(d);
  }

  /** `write_hdf5` emits every dataset the default keys require, so reading back passes the presence check. */
  lemma WriteCoversDefaults(f: Fields, meta: Dict<MetaValue>)
    requires |f.axes| == 3
    requires WriteHdf5(f, meta).Success?
    ensures FirstMissing(FileKeys([]), WriteHdf5(f, meta).value).None?
  {
    Written(f, meta);
    var d := FileKeys([]);
    assert d == DefaultKeys;
    HoldsDefaults(f, WriteHdf5(f, meta).value, d);
  }

  /** Without meta-data, a write always succeeds and emits the eleven role datasets and 'alias', nothing else. */
  lemma FixedWriteNames(f: Fields)
    requires |f.axes| == 3
    ensures WriteHdf5(f, []).Success?
    ensures forall n :: n in WriteHdf5(f, []).value <==> n in FixedNames
    ensures forall n :: n in FixedNames <==> n in Roles || n == "alias"
  {
    FixedWrite(f);
    FixedLayout(f);
    Written(f, []);
    var file := WriteHdf5(f, []).value;
    forall n | n in file ensures n in FixedNames {
      var i := Find(FixedDatasets(f), n).value;
      assert FixedNames[i] == n;
    }
  }

  /** Under the default keys a dataset takes the branch of the role it is named after, if any. */
  lemma DefaultRoleOf(d: Dict<string>, n: string)
    requires d == DefaultKeys
    ensures RoleOf(d, n) == if n in Roles then Some(n) else None
  {
    DefaultKeysRoles(d);
  }

  /** Keys under which every role names the dataset called after it. */
  predicate RolesByName(fk: Dict<string>) {
    forall i :: 0 <= i < |Roles| ==> Get(fk, Roles[i]) == Some(Roles[i])
  }

  lemma RoleIndexByName(fk: Dict<string>, i: nat)
    requires RolesByName(fk) && i < |Roles|
    ensures RoleIndex(fk, Roles[i], 0) == Some(i)
  {
    RolesDistinct();
  }

  /** Under such keys, exactly the datasets not named after a role go to the meta-data branch. */
  lemma RoleOfByName(fk: Dict<string>, n: string)
    requires RolesByName(fk)
    ensures RoleOf(fk, n).None? <==> n !in Roles
  {
  }

  /** Reading back what `write_hdf5` wrote, with the default keys, rebuilds the same object. */
  lemma ReadAfterWrite(f: Fields, meta: Dict<MetaValue>, order: seq<string>, meta0: Dict<MetaValue>)
    requires WellFormed(f)
    requires WriteHdf5(f, meta).Success?
    requires Lists(order, WriteHdf5(f, meta).value)
    ensures ReadHdf5(WriteHdf5(f, meta).value, [], order, meta0).0 == Success(f)
  {
    Written(f, meta);
    WriteCoversDefaults(f, meta);
    var d := FileKeys([]);
    assert d == DefaultKeys;
    DefaultKeysRoles(d);
    ReadBack(f, WriteHdf5(f, meta).value, order, meta0, d);
  }

  /** The loop over a file holding the fixed datasets, for keys that leave every role at its own name, binds every role. */
  lemma ReadBackLoop(f: Fields, file: H5File, order: seq<string>, meta0: Dict<MetaValue>, fk: Dict<string>)
    requires WellFormed(f) && HoldsFixed(f, file) && Lists(order, file) && RolesByName(fk)
    ensures var st := ReadLoop(fk, file, order, Reading(map[], meta0, None));
      && st.error.None?
      && forall i :: 0 <= i < |Roles| ==> Roles[i] in st.bound && st.bound[Roles[i]] == RoleValue(f, i)
  {
    HoldsRoles(f, file);
    var st0 := Reading(map[], meta0, None);
    assert TextRolesAreText(fk, file, order) by {
      forall n | n in order && RoleIndex(fk, n, 0).Some? && RoleIndex(fk, n, 0).value < 7 ensures file[n].Text? {
        var i := RoleIndex(fk, n, 0).value;
        assert Roles[i] == n;
      }
    }
    ReadLoopError(fk, file, order, st0);
    var st := ReadLoop(fk, file, order, st0);
    forall i | 0 <= i < |Roles| ensures Roles[i] in st.bound && st.bound[Roles[i]] == RoleValue(f, i) {
      RoleIndexByName(fk, i);
      ReadLoopBound(fk, file, order, st0, Roles[i]);
    }
  }

  /** The loop and the constructor call over such a file rebuild the object. */
  lemma ReadBack(f: Fields, file: H5File, order: seq<string>, meta0: Dict<MetaValue>, fk: Dict<string>)
    requires WellFormed(f) && HoldsFixed(f, file) && Lists(order, file) && RolesByName(fk)
    ensures var st := ReadLoop(fk, file, order, Reading(map[], meta0, None));
      st.error.None? && Assemble(st.bound) == Success(f)
  {
    ReadBackLoop(f, file, order, meta0, fk);
    var st := ReadLoop(fk, file, order, Reading(map[], meta0, None));
    AccessOrderIsRoles();
    assert FirstUnbound(st.bound, AccessOrder).None?;
    BoundByName(f, st.bound);
    ReadAfterWriteFields(f, st.bound);
  }

  lemma BoundByName(f: Fields, bound: map<string, Value>)
    requires |f.axes| == 3
    requires forall i :: 0 <= i < |Roles| ==> Roles[i] in bound && bound[Roles[i]] == RoleValue(f, i)
    ensures Var(bound, "name") == Text(f.name)
    ensures Var(bound, "axis_1_label") == Text(f.axes[0].caption)
    ensures Var(bound, "axis_2_label") == Text(f.axes[1].caption)
    ensures Var(bound, "axis_3_label") == Text(f.axes[2].caption)
    ensures Var(bound, "axis_1_units") == Text(f.axes[0].units)
    ensures Var(bound, "axis_2_units") == Text(f.axes[1].units)
    ensures Var(bound, "axis_3_units") == Text(f.axes[2].units)
    ensures Var(bound, "axis_1_range") == f.axes[0].range
    ensures Var(bound, "axis_2_range") == f.axes[1].range
    ensures Var(bound, "axis_3_range") == f.axes[2].range
    ensures Var(bound, "data") == Numeric(FromCube(f.data))
  {
    assert Roles[0] in bound;
    assert Roles[1] in bound;
    assert Roles[2] in bound;
    assert Roles[3] in bound;
    assert Roles[4] in bound;
    assert Roles[5] in bound;
    assert Roles[6] in bound;
    assert Roles[7] in bound;
    assert Roles[8] in bound;
    assert Roles[9] in bound;
    assert Roles[10] in bound;
  }

  /** The constructor call after the loop, with every role bound to what `write_hdf5` stored. */
  lemma ReadAfterWriteFields(f: Fields, bound: map<string, Value>)
    requires WellFormed(f)
    requires FirstUnbound(bound, AccessOrder).None?
    requires Var(bound, "name") == Text(f.name)
    requires Var(bound, "axis_1_label") == Text(f.axes[0].caption)
    requires Var(bound, "axis_2_label") == Text(f.axes[1].caption)
    requires Var(bound, "axis_3_label") == Text(f.axes[2].caption)
    requires Var(bound, "axis_1_units") == Text(f.axes[0].units)
    requires Var(bound, "axis_2_units") == Text(f.axes[1].units)
    requires Var(bound, "axis_3_units") == Text(f.axes[2].units)
    requires Var(bound, "axis_1_range") == f.axes[0].range
    requires Var(bound, "axis_2_range") == f.axes[1].range
    requires Var(bound, "axis_3_range") == f.axes[2].range
    requires Var(bound, "data") == Numeric(FromCube(f.data))
    ensures Assemble(bound) == Success(f)
  {
    ShapeOfCube(f.data);
    CubeRoundTrip(f.data);
    var r := Assemble(bound);
    assert r.Success?;
    assert r.value.axes == f.axes;
  }

  // --------------------------------------------------------- meta-data

  lemma {:induction false} NonRoleEntriesValues(fk: Dict<string>, file: H5File, order: seq<string>)
    requires forall n :: n in order ==> n in file
    ensures forall i :: 0 <= i < |NonRoleEntries(fk, file, order)| ==>
      var e := NonRoleEntries(fk, file, order)[i];
      e.0 in order && RoleOf(fk, e.0).None? && e.1 == Item(file[e.0])
    decreases |order|
  {
    if order != [] {
      NonRoleEntriesValues(fk, file, order[1..]);
      var rest := NonRoleEntries(fk, file, order[1..]);
      assert forall n :: n in order[1..] ==> n in order;
      if RoleOf(fk, order[0]).None? {
        var e := [(order[0], Item(file[order[0]]))] + rest;
        assert forall i :: 0 < i < |e| ==> e[i] == rest[i - 1];
      }
    }
  }

  /** A non-role dataset enters the meta-data with the value it has in the file. */
  lemma NonRoleEntriesGet(fk: Dict<string>, file: H5File, order: seq<string>, k: string)
    requires forall n :: n in order ==> n in file
    requires forall i, j :: 0 <= i < j < |order| ==> order[i] != order[j]
    requires k in order && RoleOf(fk, k).None?
    ensures Get(NonRoleEntries(fk, file, order), k) == Some(Item(file[k]))
  {
    var e := NonRoleEntries(fk, file, order);
    NonRoleEntriesKeys(fk, file, order, k);
    NonRoleEntriesUnique(fk, file, order);
    NonRoleEntriesValues(fk, file, order);
    GetUnique(e, Find(e, k).value);
  }

  /** A meta-data dict only grows while the loop runs. */
  lemma {:induction false} ReadLoopKeepsMeta(fk: Dict<string>, file: H5File, order: seq<string>, st: Reading, k: string)
    requires forall n :: n in order ==> n in file
    requires HasKey(st.meta, k)
    ensures HasKey(ReadLoop(fk, file, order, st).meta, k)
    decreases |order|
  {
    if order != [] && st.error.None? {
      var st' := ReadStep(fk, file, st, order[0]);
      assert HasKey(st'.meta, k) by {
        if RoleOf(fk, order[0]).None? && k != order[0] {
          assert Get(st'.meta, k) == Get(st.meta, k);
        }
      }
      ReadLoopKeepsMeta(fk, file, order[1..], st', k);
    }
  }

  /**
   * The meta-data branch: a key enters the dict only as a dataset of the file that matches no
   * role; when the read passes the presence check and the string checks, every such dataset
   * enters it, with its value.
   */
  lemma ReadMeta(file: H5File, keys: Dict<string>, order: seq<string>, meta: Dict<MetaValue>, k: string)
    requires Lists(order, file)
    ensures var m := ReadHdf5(file, keys, order, meta).1;
      HasKey(m, k) ==> HasKey(meta, k) || (k in file && RoleOf(FileKeys(keys), k).None?)
    ensures var m := ReadHdf5(file, keys, order, meta).1;
      FirstMissing(FileKeys(keys), file).None? && TextRolesAreText(FileKeys(keys), file, order) ==>
        && (HasKey(m, k) <==> HasKey(meta, k) || (k in file && RoleOf(FileKeys(keys), k).None?))
        && (k in file && RoleOf(FileKeys(keys), k).None? ==> Get(m, k) == Some(Item(file[k])))
  {
    var fk := FileKeys(keys);
    var st0 := Reading(map[], meta, None);
    if FirstMissing(fk, file).None? {
      ReadLoopMetaKeys(fk, file, order, st0, k);
      if TextRolesAreText(fk, file, order) {
        ReadLoopError(fk, file, order, st0);
        ReadLoopMeta(fk, file, order, st0);
        NonRoleEntriesKeys(fk, file, order, k);
        NonRoleEntriesUnique(fk, file, order);
        UpdateAllKeys(meta, NonRoleEntries(fk, file, order), k);
        if k in file && RoleOf(fk, k).None? {
          NonRoleEntriesGet(fk, file, order, k);
          UpdateAllGet(meta, NonRoleEntries(fk, file, order), k);
        }
      }
    }
  }

  /** Two reads into the same dict: what the first added is still there after the second. */
  lemma SharedMetaAccumulates(file1: H5File, keys1: Dict<string>, order1: seq<string>,
                              file2: H5File, keys2: Dict<string>, order2: seq<string>,
                              meta: Dict<MetaValue>, k: string)
    requires Lists(order1, file1) && Lists(order2, file2)
    requires HasKey(ReadHdf5(file1, keys1, order1, meta).1, k)
    ensures HasKey(ReadHdf5(file2, keys2, order2, ReadHdf5(file1, keys1, order1, meta).1).1, k)
  {
    ReadKeepsMeta(file2, FileKeys(keys2), order2, ReadHdf5(file1, keys1, order1, meta).1, k);
  }

  /** A read, whether it fails or not, never removes a key from the meta-data dict. */
  lemma ReadKeepsMeta(file: H5File, fk: Dict<string>, order: seq<string>, meta: Dict<MetaValue>, k: string)
    requires Lists(order, file) && HasKey(meta, k)
    ensures HasKey(ReadWithKeys(file, fk, order, meta).1, k)
  {
    ReadLoopKeepsMeta(fk, file, order, Reading(map[], meta, None), k);
  }

  // ------------------------------------------------------------ finding

  /** `write_hdf5` as written fails on a meta-data key that names a dataset it already created. */
  lemma WriteMetaTaken(file: H5File, k: string, v: Value, rest: Dict<MetaValue>)
    requires k in file && k != "Orbital Info"
    ensures WriteMeta(file, [(k, Item(v))] + rest) == Failure(NameExists)
  {
    var m := [(k, Item(v))] + rest;
    assert m[0] == (k, Item(v));
  }

  /** The dataset created for 'alias' comes back from `init_from_hdf5` as meta-data. */
  lemma AliasComesBack(f: Fields, order: seq<string>)
    requires WellFormed(f)
    requires WriteHdf5(f, []).Success? && Lists(order, WriteHdf5(f, []).value)
    ensures ReadHdf5(WriteHdf5(f, []).value, [], order, []) == (Success(f), [("alias", Item(Text(f.name)))])
  {
    var file := WriteHdf5(f, []).value;
    FixedWriteNames(f);
    Written(f, []);
    ReadAfterWrite(f, [], order, []);
    WriteCoversDefaults(f, []);
    var d := FileKeys([]);
    assert d == DefaultKeys;
    DefaultKeysRoles(d);
    ReadFixedFile(f, file, order, d);
  }

  /** Reading a file that holds only the fixed datasets adds exactly 'alias' to an empty meta-data dict. */
  lemma ReadFixedFile(f: Fields, file: H5File, order: seq<string>, fk: Dict<string>)
    requires WellFormed(f) && HoldsFixed(f, file) && Lists(order, file) && RolesByName(fk)
    requires forall n :: n in file <==> n in FixedNames
    ensures ReadLoop(fk, file, order, Reading(map[], [], None)).meta == [("alias", Item(Text(f.name)))]
  {
    AliasInFixed(f, file);
    OnlyAliasUnread(file, order, fk);
    RoleOfByName(fk, "alias");
    AliasOnlyNonRole(file, order, fk, Text(f.name));
    ReadBackLoop(f, file, order, [], fk);
    ReadLoopMeta(fk, file, order, Reading(map[], [], None));
    var e := NonRoleEntries(fk, file, order);
    assert UpdateAll([], e) == e;
  }

  lemma AliasInFixed(f: Fields, file: H5File)
    requires |f.axes| == 3 && HoldsFixed(f, file)
    ensures "alias" in file && file["alias"] == Text(f.name)
    ensures "alias" !in Roles
  {
    assert FixedNames[1] == "alias";
  }

  /** With keys that leave every role at its own name, the fixed datasets other than 'alias' are all read by a role. */
  lemma OnlyAliasUnread(file: H5File, order: seq<string>, fk: Dict<string>)
    requires RolesByName(fk)
    requires forall n :: n in order ==> n in file
    requires forall n :: n in file <==> n in FixedNames
    ensures forall n :: n in order && RoleOf(fk, n).None? ==> n == "alias"
  {
    forall n | n in order && RoleOf(fk, n).None? ensures n == "alias" {
      RoleOfByName(fk, n);
    }
  }

  /** When 'alias' is the one dataset no role reads, it is the one meta-data entry the loop adds. */
  lemma AliasOnlyNonRole(file: H5File, order: seq<string>, fk: Dict<string>, v: Value)
    requires forall n :: n in order ==> n in file
    requires forall i, j :: 0 <= i < j < |order| ==> order[i] != order[j]
    requires "alias" in order && file["alias"] == v && RoleOf(fk, "alias").None?
    requires forall n :: n in order && RoleOf(fk, n).None? ==> n == "alias"
    ensures NonRoleEntries(fk, file, order) == [("alias", Item(v))]
  {
    var e := NonRoleEntries(fk, file, order);
    NonRoleEntriesValues(fk, file, order);
    NonRoleEntriesUnique(fk, file, order);
    NonRoleEntriesKeys(fk, file, order, "alias");
    SingleKey(e, "alias", Item(v));
  }

  /** A dict whose every entry is `(k, v)` and whose keys are unique is `[(k, v)]`, or empty. */
  lemma SingleKey<V>(e: Dict<V>, k: string, v: V)
    requires UniqueKeys(e) && HasKey(e, k)
    requires forall i :: 0 <= i < |e| ==> e[i] == (k, v)
    ensures e == [(k, v)]
  {
    assert |e| > 0;
    assert !(|e| >= 2 && e[0].0 == e[1].0);
  }

  /**
   * As written, an object read back from a file `write_hdf5` wrote cannot be written again:
   * 'alias' comes back as meta-data and `write_hdf5` creates it a second time.
   */
  lemma RewriteFails(f: Fields, order: seq<string>)
    requires WellFormed(f)
    requires WriteHdf5(f, []).Success? && Lists(order, WriteHdf5(f, []).value)
    ensures ReadHdf5(WriteHdf5(f, []).value, [], order, []).0 == Success(f)
    ensures WriteHdf5(f, ReadHdf5(WriteHdf5(f, []).value, [], order, []).1) == Failure(NameExists)
  {
    AliasComesBack(f, order);
    FixedWrite(f);
    FixedWriteNames(f);
    WriteMetaTaken(CreateAll(map[], FixedDatasets(f)).value, "alias", Text(f.name), []);
    assert [("alias", Item(Text(f.name)))] + [] == [("alias", Item(Text(f.name)))];
  }

  /** The meta-data loop, skipping every key `write_hdf5` has already written a fixed dataset under. */
  function WriteMetaSkippingFixed(file: H5File, meta: Dict<MetaValue>): Result<H5File, Error>
    decreases |meta|
  {
    if meta == [] then Success(file)
    else if meta[0].0 in FixedNames then WriteMetaSkippingFixed(file, meta[1..])
    else match EntryDatasets(meta[0].0, meta[0].1)
      case Failure(e) => Failure(e)
      case Success(ds) =>
        match CreateAll(file, ds)
        case Failure(e) => Failure(e)
        case Success(f1) => WriteMetaSkippingFixed(f1, meta[1..])
  }

  /** `write_hdf5` with the meta-data loop skipping the fixed names. */
  function WriteHdf5Corrected(f: Fields, meta: Dict<MetaValue>): Result<H5File, Error>
    requires |f.axes| == 3
  {
    match CreateAll(map[], FixedDatasets(f))
    case Failure(e) => Failure(e)
    case Success(file) => WriteMetaSkippingFixed(file, meta)
  }

  /** Where no meta-data key is a fixed name, the corrected write is the original one. */
  lemma {:induction false} SkippingAgrees(file: H5File, meta: Dict<MetaValue>)
    requires forall i :: 0 <= i < |meta| ==> meta[i].0 !in FixedNames
    ensures WriteMetaSkippingFixed(file, meta) == WriteMeta(file, meta)
    decreases |meta|
  {
    if meta != [] {
      assert forall i :: 0 <= i < |meta[1..]| ==> meta[1..][i] == meta[i + 1];
      match EntryDatasets(meta[0].0, meta[0].1)
      case Failure(_) =>
      case Success(ds) =>
        match CreateAll(file, ds)
        case Failure(_) =>
        case Success(f1) => SkippingAgrees(f1, meta[1..]);
    }
  }

  lemma CorrectedAgrees(f: Fields, meta: Dict<MetaValue>)
    requires |f.axes| == 3
    requires forall i :: 0 <= i < |meta| ==> meta[i].0 !in FixedNames
    ensures WriteHdf5Corrected(f, meta) == WriteHdf5(f, meta)
  {
    FixedWrite(f);
    SkippingAgrees(CreateAll(map[], FixedDatasets(f)).value, meta);
  }

  lemma {:induction false} SkipAllFixed(file: H5File, meta: Dict<MetaValue>)
    requires forall i :: 0 <= i < |meta| ==> meta[i].0 in FixedNames
    ensures WriteMetaSkippingFixed(file, meta) == Success(file)
    decreases |meta|
  {
    if meta != [] {
      assert forall i :: 0 <= i < |meta[1..]| ==> meta[1..][i] == meta[i + 1];
      SkipAllFixed(file, meta[1..]);
    }
  }

  /**
   * With the corrected write, writing, reading back with the default keys and writing again
   * rebuilds the object and writes the same file.
   */
  lemma RewriteRoundTrip(f: Fields, order: seq<string>)
    requires WellFormed(f)
    requires WriteHdf5Corrected(f, []).Success? && Lists(order, WriteHdf5Corrected(f, []).value)
    ensures ReadHdf5(WriteHdf5Corrected(f, []).value, [], order, []).0 == Success(f)
    ensures WriteHdf5Corrected(f, ReadHdf5(WriteHdf5Corrected(f, []).value, [], order, []).1) == WriteHdf5Corrected(f, [])
  {
    CorrectedAgrees(f, []);
    AliasComesBack(f, order);
    FixedWrite(f);
    SkipAllFixed(CreateAll(map[], FixedDatasets(f)).value, [("alias", Item(Text(f.name)))]);
  }
}
