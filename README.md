# nViz conversion core in Dafny

A model of how nViz turns a directory of per-slice TIFF images from a
confocal microscope into a 3-D, multi-channel dataset.

- `gff3d_utils.view` reads the z-slice number out of a slice's file name
  (`_ZS<digits>_`, 0 when absent). It also reads the z-step and the x/y pixel
  sizes from the `Setting` elements of a `ScanInfo.xml` document.
- `nviz.image.tiff_to_zarr` and `nviz.image.tiff_to_ometiff` do the conversion:
  - filter the image directory's listing;
  - group the slices by the channel code (the second `_` token of the name);
  - order each group by z-slice number;
  - name the channel through the channel map;
  - choose one label file per compartment token;
  - stack the slices into volumes;
  - write either an OME-Zarr store (`images/<channel>/0`, `labels/<compartment>/0`,
    each group carrying `units` and `multiscales` attributes) or one OME-TIFF.

Modules, one per concern:

- `Wrappers`: `Option` and `Result`.
- `Ordering`: Python's stable `sorted(key=…)` and `itertools.groupby`, with the
  "all items with this key, in order" filter `Matching`.
- `Text`: `str.split("_")`, string `<`, `endswith` and `pathlib.Path.stem`.
- `Dict`: Python's insertion-ordered `dict` as a sequence of items. A dict
  comprehension keeps a repeated key at its first position with its last value.
- `ZSlice`: `extract_z_slice_number_from_filename` and the regular-expression
  semantics it relies on.
- `ScanInfo`: `gather_scaling_info_from_scaninfoxml`, as a loop over the settings
  proved against a specification function.
- `Frames`: the front stage the two converters share, from the listing to the
  loaded volumes.
- `OmeTiff`: `tiff_to_ometiff`. The collect loops are a method; the conversion is
  a function with a method that computes it.
- `OmeZarr`: `tiff_to_zarr`. The Zarr store is a class whose methods create
  groups, write arrays and set attributes. The write loops are methods proved
  against the layout function they build.

These parts of the outside world are inputs to the model:

- File system: a map from directory paths to their listings, in `os.scandir`
  order, plus a set of file paths.
- TIFF reading: abstract functions of (directory, entry name).
- Pixel data and scaling numbers: type parameters.
- `float()`: a parameter returning `None` on text it rejects.

Behaviours of the code that the model keeps:

- The label file of a compartment is the first in listing order among the
  entries with its token (a stable sort followed by `groupby`). No other tie-break
  is applied.
- `tiff_to_zarr` creates the `labels` group only when `label_dir` is truthy.
- `tiff_to_zarr` lists `label_dir` whenever it is not `None`, so `""` fails on
  listing.
- `tiff_to_zarr` uses the strict `channel_map[code]`; `tiff_to_ometiff` uses the
  lenient `.get(code, f"Unknown_{code}")`.
- `tiff_to_zarr` refuses an existing output directory; `tiff_to_ometiff` refuses
  an existing output file.
- The scaling values go into `multiscales` as given, in any number.
  `tiff_to_ometiff` needs at least three of them.
- `tiff_to_ometiff` reads each label file through `.path`, which the `pathlib.Path`
  objects from `glob` do not have (see "## Findings"). The converter is modelled
  as intended, reading the globbed file itself; the program as it stands is
  modelled beside it.

## Model

| member | source | states |
|---|---|---|
| `Text.Split` | src/nviz/image.py:71 | `name.split("_")` returns at least one token, none containing `_`; it returns two or more exactly when the name contains `_` |
| `Text.JoinSplit` | src/nviz/image.py:71 | Joining the tokens of `split("_")` with `_` gives back the name |
| `Text.SplitJoin` | src/nviz/image.py:71 | Splitting the `_`-join of tokens without `_` gives back the tokens |
| `Text.StrLtIsStrictTotalOrder` | src/nviz/image.py:64-72 | Python's string `<`, the order `sorted` uses on the keys, is irreflexive, transitive and total |
| `Text.Stem` | src/nviz/image.py:80 | `Path(".").stem` is empty. For any other name the stem is a prefix of the name, and it is shorter exactly when the name has a `.` that is neither the first nor the last character and is followed by no other `.`; the removed suffix starts at that `.` |
| `Ordering.SortBy` | src/nviz/image.py:64-72 | `sorted(key=…)` is a permutation of its input, ordered by key, and stable: the items with each key keep their relative order |
| `Ordering.GroupRuns` | src/nviz/image.py:63-74 | `groupby` splits the sequence into non-empty runs of one key that flatten back to it, with adjacent runs having different keys |
| `Ordering.GroupRunsOfSorted` | src/nviz/image.py:63-74 | On key-sorted input, `groupby` gives one group per key, in increasing key order; each group is every item with that key, in order |
| `ZSlice.MarkerAt` | src/gff3d_utils/view.py:29 | `_ZS(\d+)_` matches at a position with at most one group length, found when it exists: the greedy `\d+` takes the whole digit run |
| `ZSlice.FindMarker` | src/gff3d_utils/view.py:29 | `re.search` finds the leftmost position where the pattern matches, and none when it matches nowhere |
| `ZSlice.ExtractWithoutMatch` | src/gff3d_utils/view.py:29-30 | A name on which the pattern matches nowhere gives slice number 0 |
| `ZSlice.ExtractLeftmostMatch` | src/gff3d_utils/view.py:29-30 | Otherwise the slice number is `int` of the group of the leftmost match |
| `ZSlice.ExtractWithoutTag` | src/gff3d_utils/view.py:29-30 | A name without `_ZS` gives 0 |
| `ZSlice.LeadingZerosIgnored` | src/gff3d_utils/view.py:30 | `int` of the digits ignores any number of leading zeros |
| `ZSlice.NatDigitsValue` | src/gff3d_utils/view.py:30 | `int(str(n)) == n` on the decimal digits of `n` |
| `ZSlice.ZeroPad` | src/gff3d_utils/view.py:17-19 | The zero-padded number the names carry consists of digits, is as wide as the given width or as the number's own digits if those are wider, and reads back as the number |
| `ZSlice.ExtractFirstMarker` | src/gff3d_utils/view.py:29-30 | A name whose first `_ZS` begins a marker `_ZS<digits>_` gives the value of those digits |
| `ZSlice.ExtractFormattedSlice` | src/gff3d_utils/view.py:17-30 | Round trip: a name with a zero-padded `_ZS<n>_` marker after a prefix without `_ZS` gives back `n` |
| `ZSlice.ExtractBareTag` | src/gff3d_utils/view.py:29-30 | A bare `_ZS_` with no digits is not a marker: the name gives 0 |
| `ZSlice.ExampleWithMarker` | tests/test_view.py:19 | `C10-1_405_ZS034_FOV-1.tif` gives 34 |
| `ZSlice.ExampleWithoutMarker` | tests/test_view.py:26 | `C10-1_405_FOV-1.tif` gives 0 |
| `ZSlice.ExampleBareTag` | tests/test_view.py:27 | `C10-1_405_ZS_FOV-1.tif` gives 0 |
| `ScanInfo.Convert` | src/gff3d_utils/view.py:66-71 | `float(setting.text)` succeeds exactly when the text is present and parses, giving the parsed value; a missing text is the `TypeError` case, unparsable text the `ValueError` case carrying the text |
| `ScanInfo.GatherScalingInfo` | src/gff3d_utils/view.py:57-73 | The loop over the settings returns what `ScanInfoScaling` specifies: the first conversion error, or the last value of each of the three parameters |
| `ScanInfo.ScanInfoFailsOnFirstBadSetting` | src/gff3d_utils/view.py:64-71 | Reading fails exactly when some recognised setting does not convert, and then with the error of the first such setting |
| `ScanInfo.LastSettingWins` | src/gff3d_utils/view.py:64-71 | Of several settings for one parameter, the last in document order gives the returned value |
| `ScanInfo.MissingSettingIsNone` | src/gff3d_utils/view.py:60-73 | A parameter no setting names is returned as `None` |
| `ScanInfo.UnrecognisedSettingIgnored` | src/gff3d_utils/view.py:64-71 | Inserting a setting with another parameter, or with none, anywhere leaves the result unchanged |
| `ScanInfo.ExampleWithoutPixelY` | tests/test_view.py:74-89 | An x pixel size of `0.300` and a z-step of `3.000` give `(3.000, None, 0.300)` |
| `Dict.FromPairsDistinct` | src/nviz/image.py:59-75 | A dict comprehension has distinct keys |
| `Dict.FromPairsKeys` | src/nviz/image.py:59-75 | Its keys are exactly the keys of the inserted pairs |
| `Dict.FromPairsLookup` | src/nviz/image.py:59-75 | Each key holds the value of the last pair inserted with it |
| `Dict.FromDistinctPairs` | src/nviz/image.py:244-253 | Pairs with distinct keys come out unchanged, in insertion order |
| `Dict.FromPairsItems` | src/nviz/image.py:59-75 | Every item of the comprehension is one of the inserted pairs |
| `Dict.LookupFound` | src/nviz/image.py:60 | Looking up a key succeeds exactly when it is one of the keys |
| `Frames.ScanDir` | src/nviz/image.py:67 | `os.scandir` fails exactly when the path is not a directory (`NotADirectoryError` for a regular file, `FileNotFoundError` otherwise); for a directory it returns the listing |
| `Frames.GlobTiff` | src/nviz/image.py:248 | `Path(d).glob("*.tiff")` holds exactly the entries ending in `.tiff`, and nothing for a missing directory |
| `Frames.SelectImageFilesSpec` | src/nviz/image.py:65-70 | The filter raises `IndexError` exactly when a TIFF name has no `_`, on the first such name; otherwise it keeps the non-`Merge` TIFF entries in listing order, each as often as it is listed, and nothing else |
| `Frames.ChannelGroupsSpec` | src/nviz/image.py:63-74 | Channel groups come in strictly increasing code order; each is non-empty and holds all kept files with its code, in listing order |
| `Frames.EveryFileInOneGroup` | src/nviz/image.py:63-74 | A file lies in some group exactly when it is kept; then it lies in the one group of its code |
| `Frames.ZOrder` | src/nviz/image.py:60-62 | Sorting by z-slice number permutes the files into non-decreasing order and keeps the listing order among equal numbers |
| `Frames.ChannelName` | src/nviz/image.py:60 | A mapped code gives its name; an unmapped one gives `KeyError` in strict mode and `Unknown_<code>` in lenient mode |
| `Frames.ImageFramePairsSpec` | src/nviz/image.py:59-75 | Naming succeeds exactly when every group's code can be named; then it gives one (name, z-ordered files) pair per group, in group order |
| `Frames.FirstNamingError` | src/nviz/image.py:59-75 | A naming failure is the failure of the first group whose code cannot be named: every earlier group's code is named |
| `Frames.LenientFramesNeverFail` | src/nviz/image.py:224-240 | With `.get(code, f"Unknown_{code}")`, frame assembly never fails |
| `Frames.StrictFramesFailOnUnknownCode` | src/nviz/image.py:59-75 | With `channel_map[code]`, frame assembly fails exactly when some kept file's code is unmapped, raising `KeyError` for an unmapped code |
| `Frames.ChannelFramesAreGroupInZOrder` | src/nviz/image.py:58-76 | When no other code has the same name, a channel's frame files are exactly the kept files with its code, in z order |
| `Frames.TokenGroupsSpec` | src/nviz/image.py:81-87 | Label entries are grouped by first token, one group per token, in increasing token order; each group is every entry with that token |
| `Frames.FirstPerTokenSpec` | src/nviz/image.py:81-87 | `next(iter(group))` picks, per token, the first entry with that token in listing order |
| `Frames.FirstPerTokenCovers` | src/nviz/image.py:81-87 | Every listed label entry's token gets a label file |
| `Frames.StemKeys` | src/nviz/image.py:80 | `tiff_to_zarr` keys each label file by `f"{Path(token).stem} (labels)"` |
| `Frames.TiffLabelFilesAreFirstPerToken` | src/nviz/image.py:244-253 | `tiff_to_ometiff`'s label dict is the first file per token, keyed by token, in token order |
| `Frames.StackSlices` | src/nviz/image.py:93-95 | `np.stack` succeeds exactly on a non-empty list of equally shaped slices and keeps them as the volume's slices; otherwise it raises `ValueError` |
| `Frames.ReadSlices` | src/nviz/image.py:94 | The k-th slice read is the k-th file |
| `Frames.LoadImageStacksSpec` | src/nviz/image.py:91-98 | Loading keeps the channels and their order; a channel's slices are read from its files, in order; it fails exactly when a channel's slices differ in shape |
| `Frames.LoadLabelVolumes` | src/nviz/image.py:100-104 | One volume per compartment, read from its label file, under its key |
| `OmeTiff.StackVolumes` | src/nviz/image.py:289 | `np.stack` of the volumes succeeds exactly on a non-empty list of equally shaped volumes, giving them as channels |
| `OmeTiff.Concatenate` | src/nviz/image.py:292 | `np.concatenate` along channels succeeds exactly when Z, Y and X agree, giving the first array's channels then the second's |
| `OmeTiff.LabelNames` | src/nviz/image.py:286 | Each compartment name is suffixed with ` (labels)` |
| `OmeTiff.CollectChannels` | src/nviz/image.py:272-286 | The collect loops yield the image volumes and channel names in dict order; with labels, they also yield the label volumes and the suffixed compartment names |
| `OmeTiff.CombineSpec` | src/nviz/image.py:288-296 | Combining succeeds exactly when there is an image volume and every volume has the first one's shape; the channels are the images, then the labels |
| `OmeTiff.TiffToOmeTiff` | src/nviz/image.py:184-319 | The conversion returns the output path with the file it writes, or the error it raises, as `OmeTiffConversion` specifies; an output path that is a directory fails when the writer opens it |
| `OmeTiff.OmeTiffChecksOutputFirst` | src/nviz/image.py:210-220 | An existing output file is refused before anything else; then a missing image directory |
| `OmeTiff.OmeTiffLayout` | src/nviz/image.py:289-312 | The written file holds the image volumes and then the label volumes, with names to match. SizeC counts the names, and Z/Y/X come from the shape. The physical sizes are X, Y, Z = scaling[2], [1], [0], in `um` |
| `OmeTiff.OmeTiffFailsOnShapesOrScaling` | src/nviz/image.py:289-317 | After loading, the conversion fails exactly when there is no image channel, or a volume's shape differs from the first image volume's, or fewer than three scaling values are given, or the output path is a directory |
| `OmeTiff.AsWrittenFailsOnLabelFile` | src/nviz/image.py:244-269 | As written, one `*.tiff` entry in a truthy `label_dir` makes the conversion raise `AttributeError` after the images load, where the intended conversion writes an extra label channel |
| `OmeTiff.AsWrittenWritesNoLabels` | src/nviz/image.py:244-269 | As written, a conversion that succeeds agrees with the intended one and writes the image channels only |
| `OmeZarr.ZarrStore.constructor` | src/nviz/image.py:109 | `zarr.group(store, overwrite=True)` leaves only an empty root group |
| `OmeZarr.ZarrStore.CreateGroup` | src/nviz/image.py:146 | `create_group` adds one empty child group and changes nothing else |
| `OmeZarr.ZarrStore.WriteImage` | src/nviz/image.py:148-154 | `write_image` with no scaler stores the volume as dataset `0` of the group and changes nothing else |
| `OmeZarr.ZarrStore.SetAttribute` | src/nviz/image.py:157 | `group.attrs[key] = value` sets one attribute and changes nothing else |
| `OmeZarr.WriteChannelGroup` | src/nviz/image.py:148-159 | One iteration adds exactly one group: the volume as `0`, with `units` = `micrometers` and `multiscales` = the scale metadata |
| `OmeZarr.WriteChannelGroups` | src/nviz/image.py:147-159 | The write loop adds exactly the groups of `Layout`, one per dict item under the parent, and leaves the existing groups alone |
| `OmeZarr.LayoutPaths` | src/nviz/image.py:147-159 | The loop creates groups at exactly the parent extended by one key |
| `OmeZarr.LayoutGroup` | src/nviz/image.py:147-159 | With distinct keys, each key's group holds that key's volume and attributes |
| `OmeZarr.WriteZarr` | src/nviz/image.py:109-177 | The writing phase leaves exactly the store `ZarrLayout` describes |
| `OmeZarr.ZarrLabelListing` | src/nviz/image.py:78-88 | Label files are listed exactly when `label_dir` is not `None`: `None` gives no listing and succeeds; a given `label_dir` succeeds exactly when it is a directory, giving the label files chosen from its listing |
| `OmeZarr.TiffToZarr` | src/nviz/image.py:19-181 | On success, the conversion returns the output path and a new store laid out by `ZarrLayout`; otherwise it returns the error raised before writing |
| `OmeZarr.ZarrStacksDistinct` | src/nviz/image.py:58-104 | The channel names and compartment names are distinct dict keys, so no group is created twice |
| `OmeZarr.ZarrLayoutParents` | src/nviz/image.py:109-164 | The root and `images` groups are empty; `labels` exists exactly when there are labels |
| `OmeZarr.ZarrLayoutImage` | src/nviz/image.py:145-159 | Every image channel has the group `images/<name>` holding its volume, `units` and `multiscales` |
| `OmeZarr.ZarrLayoutLabel` | src/nviz/image.py:161-174 | Every compartment has the group `labels/<name>` holding its volume, `units` and `multiscales` |
| `OmeZarr.ZarrLayoutPaths` | src/nviz/image.py:109-177 | There is no group other than the root, `images`, `labels` and their children named by the keys |
| `OmeZarr.ZarrChecksOutputFirst` | src/nviz/image.py:45-55 | An existing output directory is refused before anything else; then a missing image directory |
| `OmeZarr.ZarrLabelsIffTruthy` | src/nviz/image.py:78-104 | Label volumes exist exactly when `label_dir` is truthy, read from the label files chosen from its listing. A given `label_dir` that is not a directory of the file system fails; this includes `""`, which is a directory only if the file system lists one under that name |
| `OmeZarr.ZarrChannelIsGroupInZOrder` | src/nviz/image.py:58-160 | End to end: when no other code has the same name, a kept file's channel group `images/<name>/0` holds, as its k-th slice, the slice read from the k-th file in z order among all kept files with its code |
| `OmeZarr.ZarrStacksImages` | src/nviz/image.py:58-98 | A successful conversion's image volumes are those loaded from the strictly named frames of the kept files |

## Left out

- TIFF decoding and encoding, `.astype(np.uint16)` and pixel values: volumes are shapes plus opaque pixel data read by abstract functions. The narrowing cast to 16 bits is not modelled.
- XML parsing of `ScanInfo.xml`: the model takes the `Setting` elements in document order as (parameter, text) pairs. `float()` is a parameter, so its accepted syntax and rounding are not modelled.
- `generate_ome_xml` and `TiffWriter`, beyond the metadata dict handed to them, the array written and the `IsADirectoryError` raised for an output path that is a directory. `nviz.meta` is not part of this model; `extract_z_slice_number_from_filename` is modelled with the definition in `gff3d_utils.view`.
- `zarr_parse_url`, chunking and compression, and the attributes that `ome_zarr`'s `write_image` sets itself and that the converter overwrites. A channel name containing `/`, which Zarr would turn into nested groups, is treated as a single name.
- What `tiff_to_zarr` does when the output path exists as a file rather than a directory: the file system is not modelled at that level.
- Path joining and normalisation, `DirEntry.path` and symbolic links: an entry is addressed by its directory and name. The `.path` taken of a `pathlib.Path` label file is the subject of the finding below.
- `Text.Stem` follows `pathlib` up to Python 3.13, where a dot must be neither the first nor the last character of the name to start a suffix (`"a."` keeps its name); Python 3.14 also takes a single trailing dot as a suffix.
- Unicode digits in `\d` and non-ASCII case rules: digits are `0`–`9`.
- `print` and the scripts and viewers that call the converters (Napari, Avivator, Neuroglancer).
- `Dict.FromPairs`: the position of an item that a later pair overwrites is stated only through lookups and key sets. `Frames.ChannelFramesAreGroupInZOrder` requires the channel name to be unique among codes, because two codes mapped to one name merge into one dict entry in the code.
- Failures of `tiff.imread`, such as unreadable files or non-TIFF entries listed in the label directory: reading is total in the model.

## Findings

| source | as written | input that shows it | evidently intended | confidence | as-written member | corrected member |
|---|---|---|---|---|---|---|
| src/nviz/image.py:248-269 | `glob("*.tiff")` yields `pathlib.Path` objects, and the label loop reads `tiff_file.path`, an attribute a `Path` does not have | a truthy `label_dir` holding one entry `nuclei_mask.tiff`, with image slices that load | read the label file from the `Path` itself, as the image loop reads its `DirEntry`, and write it as a label channel | high, not executed | `OmeTiff.AsWrittenFailsOnLabelFile` (about `OmeTiff.OmeTiffConversionAsWritten`) | `OmeTiff.OmeTiffConversion`, with `OmeTiff.OmeTiffLayout` |
