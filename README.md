# kMap core in Dafny: sliced ARPES data, the per-slice orbital fit, and the fit options

This project models the parts of kMap that carry the data of a photoemission
experiment through a decomposition into orbital contributions:

- **SlicedData** (`kmap/library/sliceddata.py`): a 3-D data cube with a name, three
  axes and a meta-data dict. The model covers
  - the constructor's validation;
  - reading an object from an HDF5 file (key merge, presence check, dispatch of every
    dataset to a role or to the meta-data, construction);
  - transposing in place by an axis order;
  - taking a 2-D slice;
  - the datasets `write_hdf5` creates;
  - `__str__`.
- **The pDOS script** (`example/example5.py`):
  - the fit-parameter template, with a weight per orbital and a background;
  - the residual `chi2_function` hands to the minimiser;
  - the loop that fits every energy slice and fills the pDOS table row by row.
- **The fit options panel** (`kmap/controller/lmfitoptions.py`): the getters for the
  region, the method, the slice policy and the background.
- **The fit tree** (`kmap/controller/lmfittree.py`): the ID of the selected orbital, the order
  of the top-level items, and the parameter list read from them.

Module layout:

| Module | What it holds |
|---|---|
| `Wrappers` | `Option`, `Result`, `Outcome` and Python's exception kinds. |
| `PyDicts` | Insertion-ordered Python dicts: `d[k] = v`, `update`, `get`. |
| `NdArrays` | The numpy behaviour the cube relies on: shape of nested lists, `transpose` with its axis checks, basic slicing. |
| `Texts` | Decimal rendering for messages. |
| `SlicedValues` | The constructor's arguments and validation. |
| `Hdf5Io` | `init_from_hdf5` and `write_hdf5` as functions of an HDF5 file. |
| `Sliced` | The `SlicedData` class and a `MetaDict` class, with the methods that change them in place. |
| `PdosFit` | The script. |
| `LmfitOptions` | The options panel. |
| `LmfitTree` | The fit tree. |

Modelling choices:

- **Files and widgets.** An HDF5 file is a map from dataset name to value. The order in
  which h5py lists the datasets is a parameter. Widget state is a parameter: combo-box
  text, index, selected items. The minimiser, the interpolation onto the common grid and
  the orbital maps are function parameters.
- **The meta-data default.** `init_from_hdf5` has a mutable default `meta_data={}`, so
  every call that omits it updates one shared dict. The model therefore treats the dict
  as an object passed by reference (`Sliced.MetaDict`).
- **Where text and code differ, the model follows the code.** Examples:
  - chi2 raises when parameter names and maps do not line up;
  - a single `Parameters` template is reused for every slice;
  - no convergence status is recorded per slice;
  - the background getter returns the typed equation and an empty variable list.

## Model

| member | source | states |
|---|---|---|
| SlicedValues.Construct | kmap/library/sliceddata.py:21-38 | Construction succeeds exactly when the name is a non-empty string and the data is a non-ragged 3-D numeric array with no empty axis. A bad name and a non-3-D array raise their `ValueError` messages, in that order. On success the fields hold the name, the cube read from the array (which writes back to the same array), and for each axis its label, units and range with the matching dimension as its point count. |
| SlicedValues.CubeFromShape | kmap/library/sliceddata.py:28-30 | A 3-D array is exactly the float64 array written back for the cube read from it. |
| NdArrays.CubeRoundTrip | kmap/library/sliceddata.py:458 | Reading the cube back from the array written for it gives the same cube. |
| NdArrays.ShapeOfCube | kmap/library/sliceddata.py:458 | The array written for a cube with no empty axis has the cube's three dimensions as its shape. |
| NdArrays.InnerAxesNonEmpty | kmap/library/sliceddata.py:28-37 | Every axis of an array built from nested lists, except possibly the last, is non-empty. |
| NdArrays.CubeOfShape | kmap/library/sliceddata.py:28-29 | An array of shape [n0, n1, n2] gives a cube of exactly those dimensions. |
| NdArrays.Shape | kmap/library/sliceddata.py:27-28 | Defines the shape `np.array` gives nested lists, with no shape for ragged ones. Its properties are stated by NdArrays.ShapeOfList, NdArrays.ShapeOfCube and NdArrays.InnerAxesNonEmpty. |
| Sliced.SlicedData.constructor | kmap/library/sliceddata.py:21-38 | It stores validated fields and the given meta-data dict; the object satisfies the axis/dimension invariant. |
| Sliced.SlicedData.Create | kmap/library/sliceddata.py:21-38 | Any construction error is returned unchanged. Otherwise it returns a fresh valid object holding exactly the constructed fields and the caller's dict. |
| PyDicts.Update | kmap/library/sliceddata.py:97 | After `d[k] = v`, `k` holds `v` and every other key keeps its value. A present key keeps its position; a new key goes last. Unique keys stay unique. |
| PyDicts.PrependUnique | kmap/library/sliceddata.py:95-100 | A fresh key placed in front of a dict with unique keys keeps the keys unique. |
| PyDicts.UpdateAllGet | kmap/library/sliceddata.py:53 | After `d.update(e)`, a key of `e` holds `e`'s value and any other key keeps `d`'s. |
| PyDicts.UpdateAllKeys | kmap/library/sliceddata.py:53 | The keys after `d.update(e)` are exactly those of `d` and those of `e`. |
| PyDicts.UpdateAll | kmap/library/sliceddata.py:53 | `d.update(e)` keeps the keys unique when they were unique. Its lookups and keys are stated by PyDicts.UpdateAllGet and PyDicts.UpdateAllKeys. |
| Hdf5Io.DefaultKeysRoles | kmap/library/sliceddata.py:43-52 | The default key table has unique keys, and every role is looked up under its own name. |
| Hdf5Io.FileKeysOverride | kmap/library/sliceddata.py:43-53 | After merging the caller's keys, a role the caller names is looked up under the caller's dataset name. Every other role is looked up under its own name, and every role stays present. |
| Hdf5Io.FileKeys | kmap/library/sliceddata.py:43-53 | Defines the merged file keys: the eleven defaults updated with the caller's keys. Hdf5Io.DefaultKeysRoles and Hdf5Io.FileKeysOverride state what they hold. |
| Hdf5Io.FirstMissing | kmap/library/sliceddata.py:57-59 | It finds the first key entry whose dataset is absent, with every earlier one present, or reports that all are present. |
| Hdf5Io.MissingDataset | kmap/library/sliceddata.py:56-59 | Reading raises AttributeError exactly when some merged key names an absent dataset. In that case the meta-data dict is untouched. |
| Hdf5Io.RoleOf | kmap/library/sliceddata.py:62-94 | A dataset takes the branch of a role whose key names it, with no earlier role naming it. None means no role names it, which is the meta-data branch. |
| Hdf5Io.ReadLoopError | kmap/library/sliceddata.py:62-81 | The dispatch loop raises exactly when a dataset read as a string (name, labels, units) holds no string. The error it raises is that TypeError. |
| Hdf5Io.ReadStep | kmap/library/sliceddata.py:62-100 | Defines one pass of the dataset loop: a role's dataset binds its variable, a string role holding no string raises, any other dataset goes into the meta-data. Stated by Hdf5Io.ReadLoopError, Hdf5Io.ReadLoopMeta and Hdf5Io.ReadLoopBound. |
| Hdf5Io.ReadLoop | kmap/library/sliceddata.py:62-100 | Defines the loop over the datasets in listing order, stopped by the first exception. Stated by Hdf5Io.ReadLoopError, Hdf5Io.ReadLoopMeta, Hdf5Io.ReadLoopKeepsMeta and Hdf5Io.ReadLoopBound. |
| Hdf5Io.AssembleError | kmap/library/sliceddata.py:102-106 | Building the object after the loop never raises AttributeError. |
| Hdf5Io.Assemble | kmap/library/sliceddata.py:102-106 | A variable no dataset bound raises `UnboundLocalError`; a successful construction yields well-formed fields. |
| Hdf5Io.FirstUnbound | kmap/library/sliceddata.py:102-106 | It finds the first variable never assigned, in the order the axis lists and the call read them, or reports that all are bound. |
| Hdf5Io.ReadLoopMeta | kmap/library/sliceddata.py:95-100 | Once the loop completes, the meta-data is the old dict updated with the datasets no role reads, in file order. |
| Hdf5Io.ReadLoopMetaKeys | kmap/library/sliceddata.py:95-100 | Even when the loop stops early, a key enters the meta-data only as a dataset of the file that no role reads. |
| Hdf5Io.NonRoleEntriesKeys | kmap/library/sliceddata.py:95-100 | A key is among the added entries exactly when it is in the file and no role reads it. |
| Hdf5Io.NonRoleEntriesUnique | kmap/library/sliceddata.py:95-100 | The added entries have unique keys. |
| Hdf5Io.NonRoleEntriesGet | kmap/library/sliceddata.py:95-100 | A dataset no role reads enters the meta-data with its value in the file. |
| Hdf5Io.NonRoleEntries | kmap/library/sliceddata.py:95-100 | Defines the meta-data entries of the datasets that match no role, in listing order. Stated by Hdf5Io.NonRoleEntriesKeys, Hdf5Io.NonRoleEntriesUnique and Hdf5Io.NonRoleEntriesGet. |
| Hdf5Io.ReadLoopBound | kmap/library/sliceddata.py:62-94 | After the loop, a role variable is bound exactly when its dataset reaches that role's branch, and it holds that dataset's value. |
| Hdf5Io.ReadMeta | kmap/library/sliceddata.py:95-100 | After reading, a key of the meta-data was in the caller's dict or is a dataset no role reads. A completed read holds each such dataset's value. |
| Hdf5Io.ReadLoopKeepsMeta | kmap/library/sliceddata.py:95-100 | The loop never removes a meta-data key. |
| Hdf5Io.ReadKeepsMeta | kmap/library/sliceddata.py:55-100 | A read, failed or not, never removes a key from the caller's meta-data dict. |
| Hdf5Io.SharedMetaAccumulates | kmap/library/sliceddata.py:41 | Two reads into the same dict, as the default `meta_data` makes them: what the first read added is still there after the second. |
| Hdf5Io.ReadHdf5 | kmap/library/sliceddata.py:40-106 | A successful read yields well-formed fields. Its errors, meta-data and round trip are stated by Hdf5Io.MissingDataset, Hdf5Io.ReadMeta and Hdf5Io.ReadAfterWrite. |
| Hdf5Io.ReadWithKeys | kmap/library/sliceddata.py:55-106 | For merged keys, a successful read yields well-formed fields. |
| Sliced.MetaDict.Put | kmap/library/sliceddata.py:97 | The dict in place afterwards is the old dict with the key set to the value. |
| Sliced.ReadLoopStops | kmap/library/sliceddata.py:62-100 | Once an exception is raised the loop changes nothing more. |
| Sliced.InitFromHdf5 | kmap/library/sliceddata.py:40-106 | It fails exactly when `Hdf5Io.ReadHdf5` does, with the same error. On success it returns a fresh valid object whose fields are the read fields and whose dict is the caller's. In both cases the caller's dict ends as the read leaves it. |
| Sliced.ReadDatasets | kmap/library/sliceddata.py:55-106 | The same, for already merged keys. The presence loop, the dispatch loop and the call are proved against `Hdf5Io.ReadWithKeys`. |
| NdArrays.TransposeOrderAccepted | kmap/library/sliceddata.py:419 | numpy accepts an order for a 3-D array exactly when it has three entries, each in [-3, 3), naming three different axes. The order it then uses is a permutation of 0, 1, 2 with negative entries counted from the end. |
| NdArrays.NormalizeAxesSpec | kmap/library/sliceddata.py:419 | Entry-by-entry checking of an axis order succeeds exactly when every entry is in range and names a new axis, and then yields the normalised axes. |
| NdArrays.TransposeOrder | kmap/library/sliceddata.py:419 | Defines numpy's checking of a transpose order: its length, then each entry. NdArrays.TransposeOrderAccepted and NdArrays.NormalizeAxesSpec state which orders pass and what they become. |
| NdArrays.Transposed | kmap/library/sliceddata.py:419 | Defines `data.transpose(p)`. NdArrays.TransposedCells, NdArrays.TransposeIdentity and NdArrays.TransposeRoundTrip state its shape, its cells and its inverse. |
| NdArrays.TransposedCells | kmap/library/sliceddata.py:419 | Dimension k of the transposed cube is dimension p[k] of the original. The cell at index j moves to (j[p[0]], j[p[1]], j[p[2]]). |
| NdArrays.TransposeIdentity | kmap/library/sliceddata.py:419 | Transposing by the identity order changes nothing. |
| NdArrays.TransposeRoundTrip | kmap/library/sliceddata.py:419 | Transposing by an order, then by its inverse, restores the cube. |
| NdArrays.Permuted | kmap/library/sliceddata.py:420 | Entry k of `[s[i] for i in p]` is `s[p[k]]`. |
| NdArrays.PermuteRoundTrip | kmap/library/sliceddata.py:420 | Permuting the axes by an order, then by its inverse, restores them. |
| NdArrays.Inverse | kmap/library/sliceddata.py:418-420 | The inverse of an axis permutation is one, and undoes it both ways. |
| NdArrays.InverseInverse | kmap/library/sliceddata.py:418-420 | The inverse of the inverse is the original order. |
| Sliced.TransposeResult | kmap/library/sliceddata.py:418-420 | It succeeds exactly when numpy accepts the order, and otherwise carries numpy's error. On success, axis k and dimension k come from position p[k] of the original, the name is kept, and the object stays well formed. |
| Sliced.TransposeIdentityOrder | kmap/library/sliceddata.py:418-420 | `transpose([0, 1, 2])` changes nothing. |
| Sliced.TransposeInverseOrder | kmap/library/sliceddata.py:418-420 | Transposing by an accepted order, then by its inverse, restores the object. |
| Sliced.SlicedData.Transpose | kmap/library/sliceddata.py:418-420 | On error, nothing changes and the error is numpy's. On success, data and axes become those of `TransposeResult`. The invariant holds in both cases. |
| NdArrays.SliceAtSpec | kmap/library/sliceddata.py:424-432 | The slice at index i along an axis holds c[i, a, b], c[a, i, b] or c[a, b, i] over the two remaining axes, in their order. |
| NdArrays.SliceAt | kmap/library/sliceddata.py:423-432 | Defines `data[i, :, :]`, `data[:, i, :]` and `data[:, :, i]`. NdArrays.SliceAtSpec states which cell each entry is. |
| Sliced.SlicedData.SliceFromIndex | kmap/library/sliceddata.py:422-438 | An axis outside 0..2 raises ValueError with the source's message. It succeeds exactly when -n <= index < n for the axis' size n, and otherwise raises numpy's IndexError for that index, axis and size. The slice is the cube at the normalised index. The ranges are those of the remaining axes, last one first. |
| Hdf5Io.CreateAll | kmap/library/sliceddata.py:441-466 | Creating datasets one by one fails with h5py's ValueError on a repeated or existing name. Otherwise it keeps every existing dataset and adds exactly the new ones. |
| Hdf5Io.CreateAllFresh | kmap/library/sliceddata.py:441-466 | Creating distinct fresh names always succeeds. |
| Hdf5Io.CreateAllValues | kmap/library/sliceddata.py:441-466 | Each created dataset holds the value it was created with. |
| Hdf5Io.WriteMetaKeeps | kmap/library/sliceddata.py:460-466 | Writing the meta-data keeps every dataset already written. |
| Hdf5Io.FixedWrite | kmap/library/sliceddata.py:443-458 | The twelve fixed datasets are always created successfully. |
| Hdf5Io.FixedLayout | kmap/library/sliceddata.py:443-458 | The fixed datasets are, in order: name, alias, labels, units, ranges, data. Every role has its dataset there, and the first seven hold strings. |
| Hdf5Io.Written | kmap/library/sliceddata.py:443-458 | A successful write holds the twelve fixed datasets, whatever the meta-data adds. |
| Hdf5Io.HoldsRoles | kmap/library/sliceddata.py:443-458 | In such a file, each role's dataset carries the object's value for that role. |
| Hdf5Io.FixedWriteNames | kmap/library/sliceddata.py:443-458 | Without meta-data, a write succeeds and emits exactly the eleven role datasets and 'alias'. |
| Hdf5Io.FixedDatasets | kmap/library/sliceddata.py:443-458 | Defines the twelve datasets written before the meta-data. Hdf5Io.FixedLayout, Hdf5Io.FixedWrite and Hdf5Io.FixedWriteNames state their layout and that they are always written. |
| Hdf5Io.EntryDatasets | kmap/library/sliceddata.py:460-466 | Defines the datasets one meta-data entry becomes, 'Orbital Info' one per orbital. Stated through Hdf5Io.WriteMetaKeeps and Hdf5Io.WriteMetaTaken. |
| Hdf5Io.WriteMeta | kmap/library/sliceddata.py:460-466 | Defines the meta-data loop, stopped by the first exception. Hdf5Io.WriteMetaKeeps and Hdf5Io.WriteMetaTaken state that it keeps the fixed datasets and fails on a taken name. |
| Hdf5Io.WriteHdf5 | kmap/library/sliceddata.py:440-468 | Defines the file written, or the exception. Hdf5Io.Written, Hdf5Io.WriteCoversDefaults, Hdf5Io.ReadAfterWrite and Hdf5Io.RewriteFails state what it holds and how it reads back. |
| Hdf5Io.WriteCoversDefaults | kmap/library/sliceddata.py:443-458 | A written file passes the presence check of a read with the default keys. |
| Hdf5Io.DefaultRoleOf | kmap/library/sliceddata.py:62-94 | Under the default keys, a dataset takes the branch of the role it is named after, if any. |
| Hdf5Io.ReadAfterWrite | kmap/library/sliceddata.py:40-106 | Reading back what `write_hdf5` wrote, with the default keys and in any listing order, rebuilds the written name, data and axes. The meta-data read back differs from the written one (see Hdf5Io.AliasComesBack). |
| Hdf5Io.ReadBack | kmap/library/sliceddata.py:62-106 | The same for any keys that leave every role at its own name. |
| Hdf5Io.AliasComesBack | kmap/library/sliceddata.py:444 | Reading back a file written without meta-data yields the object and a meta-data dict holding exactly 'alias'. |
| Hdf5Io.WriteMetaTaken | kmap/library/sliceddata.py:460-462 | A meta-data key that names a dataset already written makes `write_hdf5` raise h5py's ValueError. |
| Hdf5Io.RewriteFails | kmap/library/sliceddata.py:444 | Writing, reading back and writing again raises h5py's ValueError. |
| Hdf5Io.SkippingAgrees | kmap/library/sliceddata.py:460-466 | The corrected meta-data loop equals the original one when no key is a fixed name. |
| Hdf5Io.CorrectedAgrees | kmap/library/sliceddata.py:440-468 | The corrected write equals `write_hdf5` for every dict with no fixed name among its keys. |
| Hdf5Io.SkipAllFixed | kmap/library/sliceddata.py:460-466 | The corrected loop writes nothing for keys that are all fixed names. |
| Hdf5Io.RewriteRoundTrip | kmap/library/sliceddata.py:440-468 | With the corrected write, writing, reading back and writing again gives the same file. |
| Sliced.BlocksPrefix | kmap/library/sliceddata.py:474-475 | The blocks of the first m axes open those of the first n, so earlier axes come first. |
| Sliced.ThreeBlocks | kmap/library/sliceddata.py:474-478 | For three axes the text is the base text, then "Axis 0", "Axis 1" and "Axis 2", each with its axis text, separated by blank lines. |
| Sliced.SlicedData.Str | kmap/library/sliceddata.py:471-478 | `__str__` is the base text followed by one block per axis, in order. The trailing two newlines are cut off again. |
| PdosFit.WeightsEntries | example/example5.py:25-35 | Every weight starts at 1 with lower bound 0, is named after a given orbital, and appears once. |
| PdosFit.WeightsCover | example/example5.py:25-35 | Every orbital name gets a weight. |
| PdosFit.WeightsInOrder | example/example5.py:25-35 | With distinct names, weight j belongs to orbital j and there are no others. |
| PdosFit.Weights | example/example5.py:25-35 | Defines the parameters after adding one weight per orbital name. PdosFit.WeightsEntries, PdosFit.WeightsCover and PdosFit.WeightsInOrder state their values, coverage and order. |
| PdosFit.TemplateEntries | example/example5.py:21-37 | Every template parameter starts at 1 with lower bound 0. Its names are exactly the orbitals' and 'background'. |
| PdosFit.TemplatePositions | example/example5.py:35-37 | A weight other than the background sits below the number of orbitals. A fresh 'background' is the last entry. |
| PdosFit.TemplateInOrder | example/example5.py:21-37 | With distinct names and none called 'background', the template has one weight per orbital in order, then the background. |
| PdosFit.Template | example/example5.py:21-37 | Defines the weights followed by 'background'. PdosFit.TemplateEntries, PdosFit.TemplatePositions and PdosFit.TemplateInOrder state its values, names and order. |
| PdosFit.BuildTemplate | example/example5.py:21-37 | The loop builds exactly the template, and the list of simulated maps holds orbital i's map at position i. |
| PdosFit.ValuesDict | example/example5.py:44 | `valuesdict()` keeps the names and order and takes each value. |
| PdosFit.Residual | example/example5.py:43-50 | It succeeds exactly when every weight's position has a simulated map and 'background' is present. Otherwise it raises IndexError or KeyError, in the order Python meets them. The residual has the data's shape. |
| PdosFit.ResidualAt | example/example5.py:45-49 | At each point the residual is the sum of weight times map over the weights, minus (data minus background). |
| PdosFit.ExactFitIsZero | example/example5.py:43-50 | Data that equals the weighted maps plus the background gives a zero residual everywhere. |
| PdosFit.TemplateResidualDefined | example/example5.py:46-49 | Parameters with the template's names never make the residual raise. |
| PdosFit.Zeros | example/example5.py:45 | `np.zeros_like(data)` has the data's shape and is zero everywhere. |
| PdosFit.AddScaled | example/example5.py:48 | `s += w * g` adds w times g at every point. |
| PdosFit.Difference | example/example5.py:49 | `s - (data - bg)` takes that value at every point. |
| PdosFit.Chi2 | example/example5.py:43-50 | The loop computes exactly `Residual`: the same error, or the same grid. |
| PdosFit.WriteRow | example/example5.py:61-62 | Row i takes the fitted values in parameter order. It stops at the first column beyond the table. No other cell changes. |
| PdosFit.SliceFit | example/example5.py:55-60 | Defines the values the minimiser returns for slice i after interpolation. PdosFit.FitSlices states that fit i fills row i. |
| PdosFit.FitSlices | example/example5.py:53-62 | There is one fit per slice, in index order, each from the template and the interpolated slice. Row i holds fit i's values, with zeros elsewhere. Every slice gets fitted unless a fit has more values than the table has columns; that case raises numpy's IndexError at that fit. |
| PdosFit.PdosColumns | example/example5.py:54-62 | For fits that keep the template's names, column j is orbital j's weight and the last column is the background. |
| LmfitOptions.GetRegion | kmap/controller/lmfitoptions.py:31-55 | Any text other than the five items raises UnboundLocalError for `region`. |
| LmfitOptions.RegionDomain | kmap/controller/lmfitoptions.py:31-55 | Exactly the five combo-box items decode. |
| LmfitOptions.RegionLabelOfRegion | kmap/controller/lmfitoptions.py:31-55 | Decoding an item and looking up its label gives the item back. |
| LmfitOptions.RegionOfRegionLabel | kmap/controller/lmfitoptions.py:31-55 | Each of the five (region, inverted) pairs decodes from its label, so decoding is a bijection. |
| LmfitOptions.ExceptInverts | kmap/controller/lmfitoptions.py:34-53 | An "Except" item selects its "Only" item's region, inverted. The "Only" items and 'Entire kMap' are not inverted. |
| LmfitOptions.FindChar | kmap/controller/lmfitoptions.py:61 | `str.find`: the first occurrence, or -1 when there is none. |
| LmfitOptions.MethodBetween | kmap/controller/lmfitoptions.py:57-61 | With '(' before the first ')', the method is the text strictly between them. |
| LmfitOptions.GetMethod | kmap/controller/lmfitoptions.py:57-61 | Defines the slice between the first '(' and the first ')'. LmfitOptions.MethodBetween, MethodWithoutOpen, MethodWithoutClose, MethodReversed, MethodHasNoClose and MethodOfItem state the result in each case. |
| LmfitOptions.MethodWithoutOpen | kmap/controller/lmfitoptions.py:61 | Without '(', the method runs from the start to the first ')'. |
| LmfitOptions.MethodWithoutClose | kmap/controller/lmfitoptions.py:61 | Without ')', the stop bound -1 drops the last character. |
| LmfitOptions.MethodReversed | kmap/controller/lmfitoptions.py:61 | With ')' first, the method is empty. |
| LmfitOptions.MethodHasNoClose | kmap/controller/lmfitoptions.py:61 | The method never contains ')'. |
| LmfitOptions.MethodOfItem | kmap/controller/lmfitoptions.py:57-61 | An item `name(method)...`, with no parentheses in the name and no ')' in the method, decodes to the method. |
| LmfitOptions.SlicePolicyRoundTrip | kmap/controller/lmfitoptions.py:63-74 | Every index decodes to one of the three policies, and each policy is decoded from its own index. Any index other than 0 and 1, -1 included, gives 'all combined'. |
| LmfitOptions.GetSlicePolicy | kmap/controller/lmfitoptions.py:63-74 | The result is one of the three policies: 'only one' exactly for index 0, 'all' exactly for index 1. |
| LmfitOptions.GetBackground | kmap/controller/lmfitoptions.py:76-81 | The typed equation is returned unchanged, with no variables. |
| LmfitTree.FirstQualifying | kmap/controller/lmfittree.py:36-42 | It finds the first selected item that is an orbital item or a data item under one, with none before it, or reports that there is none. |
| LmfitTree.LmFitTree.GetSelectedOrbitalID | kmap/controller/lmfittree.py:32-44 | It returns the first accepted item's orbital ID, or -1 if none is accepted. |
| LmfitTree.SelectedOrbitalFirst | kmap/controller/lmfittree.py:36-38 | An orbital item first in the selection wins with its own ID. |
| LmfitTree.SkipsUnaccepted | kmap/controller/lmfittree.py:36-44 | Items the rule skips change only the position of the first accepted item. |
| LmfitTree.SetupItems | kmap/controller/lmfittree.py:64-67 | The "other" item first, then one orbital item per orbital, in order. |
| LmfitTree.LmFitTree.constructor | kmap/controller/lmfittree.py:54-67 | The top-level items after `_setup` are exactly those. |
| LmfitTree.LmFitTree.AddTopLevelItem | kmap/controller/lmfittree.py:65-67 | The item is appended last. |
| LmfitTree.LmFitTree.GetParameters | kmap/controller/lmfittree.py:46-52 | One entry per top-level item, in tree order. |
| LmfitTree.SetupParameters | kmap/controller/lmfittree.py:46-67 | After `_setup`, the parameters come first from the "other" item, then from each orbital in order. |

## Left out

- `init_from_orbitals` and its helpers (sliceddata.py lines 108-416): they compute maps from orbital cube files. That is numerical Fourier work outside this core.
- h5py file handling (opening, closing, `asstr()` decoding) is not modelled; a file is a map of its top-level datasets. A numeric dataset whose `str()` would be stored in the meta-data is kept as its value, and the `try`/`except` fallback of lines 96-100 collapses to that.
- `Axis.init_from_hdf_list` and `ID.new_ID` (kmap/library/axis.py, kmap/library/id.py) are not part of this model. An axis keeps its label, units and range with its point count. An ID is drawn once the name check passes and before the data is checked, so a construction that fails on its data still consumes an ID; the model does not track IDs.
- PyQt signals, widget layout, column widths and the `.ui` files are left out; widget state is a parameter.
- The lmfit minimiser, the interpolation onto the common grid, orbital k-map simulation and plotting are function parameters or left out. The scripts under `example/scripts` are not modelled.
- PdosFit.Chi2: requires every simulated map to have the data's shape, where numpy would broadcast or raise. Not-a-number values and lmfit's `nan_policy='omit'` are not modelled (cells are reals).
- PdosFit.FitSlices: `chi2_function` reads the global `exp_kmap`, not its `data` argument. The two are the same slice in the script, so the model uses the slice.
- Sliced.SlicedData.Transpose: `transpose(None)` and tuple orders are not modelled; the order is a list of integers.
- Sliced.SlicedData.SliceFromIndex: only integer indices are modelled, not numpy slices or arrays as index.
- SlicedValues.Construct: one `ValueError` ('could not convert string to float') stands for every numpy conversion error of text data. Numeric text such as '1.5' would convert to a 0-d array and raise 'data has to be 3D' instead; both are `ValueError` and only the message differs. Nested lists cannot carry the inner lengths of an array with an empty axis before the last one (`NdArrays.InnerAxesNonEmpty`). Such an array is seen with fewer dimensions and raises 'data has to be 3D', where numpy raises IndexError for axis 0 or 1. Only the empty-last-axis error remains reachable.
- Hdf5Io.WriteHdf5: a file left half-written by an exception is not modelled; the error replaces the file.
- lmfit's validation of parameter names (for example, orbital names that are not identifiers) is not modelled.

## Findings

| source | as written | input that shows it | evidently intended | confidence | as-written member | corrected member |
|---|---|---|---|---|---|---|
| kmap/library/sliceddata.py:444 | `write_hdf5` creates an 'alias' dataset. `init_from_hdf5` reads no role from it, so it lands in `meta_data`. The meta-data loop at lines 460-462 then creates 'alias' a second time. | Any object written without meta-data, read back with the default keys, and written again: h5py raises ValueError because the name already exists. | Writing a re-read object gives the same file again, for example by skipping meta-data keys that are already fixed dataset names. | not executed | Hdf5Io.RewriteFails | Hdf5Io.RewriteRoundTrip |
