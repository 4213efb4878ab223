/**
 * The frame assembly shared by the two converters in `nviz.image`: which
 * files of the image directory are z-slices, how they are grouped into
 * channels and ordered by z, which label file represents each compartment,
 * and how slices are stacked into volumes. Directories are a listing of
 * entry names; TIFF decoding is an abstract reader.
 */
module Frames {
  import opened Wrappers
  import opened Ordering
  import opened Text
  import opened ZSlice
  import opened Dict

  /** The exceptions the converters raise, by the Python class that signals each. */
  datatype Error =
    | OutputExists(path: string)   // FileExistsError
    | NotADirectory(path: string)  // NotADirectoryError
    | FileNotFound(path: string)   // FileNotFoundError from os.scandir
    | MissingToken(name: string)   // IndexError from name.split("_")[1]
    | UnknownChannel(code: string) // KeyError from channel_map[code]
    | NothingToStack               // ValueError from np.stack([])
    | ShapeMismatch                // ValueError from np.stack or np.concatenate on unequal shapes
    | ScalingTooShort              // IndexError from scaling_values[2]
    | MissingPathAttribute         // AttributeError from `.path` on a pathlib.Path
    | IsADirectory(path: string)   // IsADirectoryError from opening a directory for writing

  /** The directories with their listings (in `os.scandir` order) and the regular files, by path. */
  datatype FileSystem = FileSystem(dirs: map<string, seq<string>>, files: set<string>)

  /** `os.scandir(path)`, as the names of the entries. */
  function ScanDir(fs: FileSystem, path: string): (r: Result<seq<string>, Error>)
    ensures r.Ok? <==> path in fs.dirs
    ensures r.Ok? ==> r.value == fs.dirs[path]
    ensures path !in fs.dirs ==> r.error == if path in fs.files then NotADirectory(path) else FileNotFound(path)
  {
    if path in fs.dirs then Ok(fs.dirs[path])
    else if path in fs.files then Err(NotADirectory(path))
    else Err(FileNotFound(path))
  }

  /** The names of the entries of `dir` that end in `suffix`, in listing order. */
  function NamesEndingWith(names: seq<string>, suffix: string): (r: seq<string>)
    ensures forall x :: x in r <==> x in names && EndsWith(x, suffix)
  {
    if names == [] then []
    else (if EndsWith(names[0], suffix) then [names[0]] else []) + NamesEndingWith(names[1..], suffix)
  }

  /** `pathlib.Path(path).glob("*.tiff")`: nothing when `path` is not a directory. */
  function GlobTiff(fs: FileSystem, path: string): (r: seq<string>)
    ensures path !in fs.dirs ==> r == []
    ensures path in fs.dirs ==> forall x :: x in r <==> x in fs.dirs[path] && EndsWith(x, ".tiff")
  {
    if path in fs.dirs then NamesEndingWith(fs.dirs[path], ".tiff") else []
  }

  predicate IsTiffName(name: string) {
    EndsWith(name, ".tif") || EndsWith(name, ".tiff")
  }

  /** `name.split("_")[1]`, the channel code; only taken of names that contain `_`. */
  function ChannelCode(name: string): string {
    var tokens := Split(name);
    if |tokens| >= 2 then tokens[1] else ""
  }

  /** `name.split("_")[0]`, the compartment token of a label file. */
  function FirstToken(name: string): string {
    Split(name)[0]
  }

  /** A listed entry that is a z-slice of some channel. */
  predicate IsImageFile(name: string) {
    IsTiffName(name) && '_' in name && ChannelCode(name) != "Merge"
  }

  /** A TIFF name on which the filter's `split("_")[1]` raises. */
  predicate LacksChannelCode(name: string) {
    IsTiffName(name) && '_' !in name
  }

  /**
   * The list comprehension that filters the image directory's listing:
   * TIFF names whose channel code is not `Merge`, in listing order.
   */
  function SelectImageFiles(listing: seq<string>): Result<seq<string>, Error> {
    if listing == [] then Ok([])
    else
      var name := listing[0];
      if LacksChannelCode(name) then Err(MissingToken(name))
      else
        var rest :- SelectImageFiles(listing[1..]);
        Ok(if IsImageFile(name) then [name] + rest else rest)
  }

  /**
   * The filter fails exactly when some TIFF name has no `_`, on the first such
   * name; otherwise it keeps the image files in listing order, each as often as it
   * is listed, and nothing else.
   */
  lemma SelectImageFilesSpec(listing: seq<string>)
    ensures SelectImageFiles(listing).Ok? <==> forall i | 0 <= i < |listing| :: !LacksChannelCode(listing[i])
    ensures SelectImageFiles(listing).Ok? ==> SelectImageFiles(listing).value == Matching(listing, IsImageFile, true)
    ensures SelectImageFiles(listing).Ok? ==>
      forall x :: multiset(SelectImageFiles(listing).value)[x] == if IsImageFile(x) then multiset(listing)[x] else 0
    ensures SelectImageFiles(listing).Err? ==>
      exists i | 0 <= i < |listing| ::
        && LacksChannelCode(listing[i])
        && SelectImageFiles(listing).error == MissingToken(listing[i])
        && forall j | 0 <= j < i :: !LacksChannelCode(listing[j])
  {
    SelectImageFilesOk(listing);
    if SelectImageFiles(listing).Ok? {
      SelectImageFilesInOrder(listing);
      forall x
        ensures multiset(SelectImageFiles(listing).value)[x] == if IsImageFile(x) then multiset(listing)[x] else 0
      {
        SelectImageFilesCount(listing, x);
      }
    } else {
      var i := SelectImageFilesError(listing);
    }
  }

  lemma {:induction false} SelectImageFilesOk(listing: seq<string>)
    ensures SelectImageFiles(listing).Ok? <==> forall i | 0 <= i < |listing| :: !LacksChannelCode(listing[i])
  {
    if listing != [] {
      SelectImageFilesOk(listing[1..]);
      assert forall i | 1 <= i < |listing| :: listing[i] == listing[1..][i - 1];
    }
  }

  lemma {:induction false} SelectImageFilesInOrder(listing: seq<string>)
    requires SelectImageFiles(listing).Ok?
    ensures SelectImageFiles(listing).value == Matching(listing, IsImageFile, true)
  {
    if listing != [] {
      SelectImageFilesInOrder(listing[1..]);
    }
  }

  lemma {:induction false} SelectImageFilesCount(listing: seq<string>, x: string)
    requires SelectImageFiles(listing).Ok?
    ensures multiset(SelectImageFiles(listing).value)[x] == if IsImageFile(x) then multiset(listing)[x] else 0
  {
    if listing != [] {
      SelectImageFilesCount(listing[1..], x);
      assert listing == [listing[0]] + listing[1..];
      assert multiset(listing) == multiset([listing[0]]) + multiset(listing[1..]);
    }
  }

  lemma {:induction false} SelectImageFilesError(listing: seq<string>) returns (i: nat)
    requires SelectImageFiles(listing).Err?
    ensures i < |listing| && LacksChannelCode(listing[i])
    ensures SelectImageFiles(listing).error == MissingToken(listing[i])
    ensures forall j | 0 <= j < i :: !LacksChannelCode(listing[j])
  {
    if LacksChannelCode(listing[0]) {
      i := 0;
    } else {
      var k := SelectImageFilesError(listing[1..]);
      i := k + 1;
      assert forall j | 1 <= j < i :: listing[j] == listing[1..][j - 1];
    }
  }

  /**
   * `groupby(sorted(kept, key=code), key=code)`: the channel code of each group
   * with its files.
   */
  function ChannelGroups(kept: seq<string>): seq<(string, seq<string>)> {
    StrLtIsStrictTotalOrder();
    GroupRuns(SortBy(kept, ChannelCode, StrLt), ChannelCode)
  }

  /**
   * The channel groups come in strictly increasing code order, so no code has two
   * groups; each group is non-empty and holds every kept file with its code, in
   * listing order.
   */
  lemma ChannelGroupsSpec(kept: seq<string>)
    ensures var gs := ChannelGroups(kept);
      && (forall i, j | 0 <= i < j < |gs| :: StrLt(gs[i].0, gs[j].0))
      && (forall i | 0 <= i < |gs| :: gs[i].1 != [] && gs[i].1 == Matching(kept, ChannelCode, gs[i].0))
  {
    StrLtIsStrictTotalOrder();
    var sorted := SortBy(kept, ChannelCode, StrLt);
    GroupRunsOfSorted(sorted, ChannelCode, StrLt);
  }

  /** Every kept file lies in exactly one channel group, the one of its code, and nothing else does. */
  lemma EveryFileInOneGroup(kept: seq<string>, x: string)
    ensures var gs := ChannelGroups(kept);
      && (x in kept <==> exists i | 0 <= i < |gs| :: x in gs[i].1)
      && (forall i | 0 <= i < |gs| && x in gs[i].1 :: gs[i].0 == ChannelCode(x))
      && (forall i, j | 0 <= i < |gs| && 0 <= j < |gs| && x in gs[i].1 && x in gs[j].1 :: i == j)
  {
    var gs := ChannelGroups(kept);
    ChannelGroupsCover(kept, x);
    ChannelGroupMembers(kept, x);
    ChannelGroupsSpec(kept);
    forall i, j | 0 <= i < |gs| && 0 <= j < |gs| && x in gs[i].1 && x in gs[j].1
      ensures i == j
    {
      if i < j {
        StrLtIrreflexive(gs[i].0);
      } else if j < i {
        StrLtIrreflexive(gs[j].0);
      }
    }
  }

  lemma ChannelGroupsCover(kept: seq<string>, x: string)
    ensures var gs := ChannelGroups(kept);
      x in kept <==> exists i | 0 <= i < |gs| :: x in gs[i].1
  {
    StrLtIsStrictTotalOrder();
    var sorted := SortBy(kept, ChannelCode, StrLt);
    FlattenMembers(ChannelGroups(kept));
    assert x in kept <==> x in sorted by {
      assert multiset(sorted) == multiset(kept);
      assert x in kept <==> x in multiset(kept);
      assert x in sorted <==> x in multiset(sorted);
    }
  }

  lemma ChannelGroupMembers(kept: seq<string>, x: string)
    ensures var gs := ChannelGroups(kept);
      forall i | 0 <= i < |gs| :: x in gs[i].1 <==> x in kept && ChannelCode(x) == gs[i].0
  {
    var gs := ChannelGroups(kept);
    ChannelGroupsSpec(kept);
    forall i | 0 <= i < |gs|
      ensures x in gs[i].1 <==> x in kept && ChannelCode(x) == gs[i].0
    {
      MatchingMembers(kept, ChannelCode, gs[i].0);
    }
  }

  /** `sorted(files, key=z_slice)`: stable, so files with one z-slice number keep their order. */
  function ZOrder(files: seq<string>): (r: seq<string>)
    ensures |r| == |files| && multiset(r) == multiset(files)
    ensures forall i, j | 0 <= i < j < |r| :: ExtractZSliceNumber(r[i]) <= ExtractZSliceNumber(r[j])
    ensures forall z :: Matching(r, ExtractZSliceNumber, z) == Matching(files, ExtractZSliceNumber, z)
  {
    NatLtIsStrictTotalOrder();
    SortBy(files, ExtractZSliceNumber, NatLt)
  }

  /** `channel_map[code]` when `strict`, `channel_map.get(code, f"Unknown_{code}")` otherwise. */
  function ChannelName(code: string, channelMap: Dict<string, string>, strict: bool): (r: Result<string, Error>)
    ensures Lookup(channelMap, code).Some? ==> r == Ok(Lookup(channelMap, code).value)
    ensures Lookup(channelMap, code).None? ==> r == if strict then Err(UnknownChannel(code)) else Ok("Unknown_" + code)
  {
    match Lookup(channelMap, code)
    case Some(name) => Ok(name)
    case None => if strict then Err(UnknownChannel(code)) else Ok("Unknown_" + code)
  }

  /** The items the `"images"` dict comprehension inserts, group by group. */
  function ImageFramePairs(groups: seq<(string, seq<string>)>, channelMap: Dict<string, string>, strict: bool)
    : Result<seq<(string, seq<string>)>, Error>
  {
    if groups == [] then Ok([])
    else
      var name :- ChannelName(groups[0].0, channelMap, strict);
      var rest :- ImageFramePairs(groups[1..], channelMap, strict);
      Ok([(name, ZOrder(groups[0].1))] + rest)
  }

  /** `frame_files["images"]`: each channel's name with its files in z order. */
  function ImageFrames(kept: seq<string>, channelMap: Dict<string, string>, strict: bool)
    : Result<Dict<string, seq<string>>, Error>
  {
    var pairs :- ImageFramePairs(ChannelGroups(kept), channelMap, strict);
    Ok(FromPairs(pairs))
  }

  /** Naming succeeds exactly when every group's code can be named; then each group gives one item, in order. */
  lemma {:induction false} ImageFramePairsSpec(groups: seq<(string, seq<string>)>, channelMap: Dict<string, string>, strict: bool)
    ensures var r := ImageFramePairs(groups, channelMap, strict);
      && (r.Ok? <==> forall i | 0 <= i < |groups| :: ChannelName(groups[i].0, channelMap, strict).Ok?)
      && (r.Ok? ==> |r.value| == |groups| && forall i | 0 <= i < |groups| ::
            r.value[i] == (ChannelName(groups[i].0, channelMap, strict).value, ZOrder(groups[i].1)))
  {
    if groups != [] {
      ImageFramePairsSpec(groups[1..], channelMap, strict);
      assert forall i | 1 <= i < |groups| :: groups[i] == groups[1..][i - 1];
    }
  }

  /** A failure of naming is the failure of the first group whose code cannot be named. */
  lemma {:induction false} FirstNamingError(groups: seq<(string, seq<string>)>, channelMap: Dict<string, string>, strict: bool)
    returns (i: nat)
    requires ImageFramePairs(groups, channelMap, strict).Err?
    ensures i < |groups| && ChannelName(groups[i].0, channelMap, strict).Err?
    ensures ImageFramePairs(groups, channelMap, strict).error == ChannelName(groups[i].0, channelMap, strict).error
    ensures forall j | 0 <= j < i :: ChannelName(groups[j].0, channelMap, strict).Ok?
  {
    if ChannelName(groups[0].0, channelMap, strict).Err? {
      i := 0;
    } else {
      var k := FirstNamingError(groups[1..], channelMap, strict);
      i := k + 1;
      assert forall j | 1 <= j < i :: groups[j] == groups[1..][j - 1];
    }
  }

  /** The channel group that holds a kept file. */
  lemma GroupOfFile(kept: seq<string>, x: string) returns (i: nat)
    requires x in kept
    ensures i < |ChannelGroups(kept)| && x in ChannelGroups(kept)[i].1 && ChannelGroups(kept)[i].0 == ChannelCode(x)
  {
    EveryFileInOneGroup(kept, x);
    var gs := ChannelGroups(kept);
    i :| 0 <= i < |gs| && x in gs[i].1;
  }

  /** A kept file of a channel group. */
  lemma FileOfGroup(kept: seq<string>, i: nat) returns (x: string)
    requires i < |ChannelGroups(kept)|
    ensures x in kept && x in ChannelGroups(kept)[i].1 && ChannelCode(x) == ChannelGroups(kept)[i].0
  {
    var gs := ChannelGroups(kept);
    ChannelGroupsSpec(kept);
    x := gs[i].1[0];
    EveryFileInOneGroup(kept, x);
  }

  lemma ChannelGroupCodesDistinct(kept: seq<string>, i: nat, j: nat)
    requires i < |ChannelGroups(kept)| && j < |ChannelGroups(kept)| && i != j
    ensures ChannelGroups(kept)[i].0 != ChannelGroups(kept)[j].0
  {
    var gs := ChannelGroups(kept);
    ChannelGroupsSpec(kept);
    StrLtIrreflexive(gs[i].0);
  }

  /** The lenient naming of `tiff_to_ometiff` never fails. */
  lemma LenientFramesNeverFail(kept: seq<string>, channelMap: Dict<string, string>)
    ensures ImageFrames(kept, channelMap, false).Ok?
  {
    ImageFramePairsSpec(ChannelGroups(kept), channelMap, false);
  }

  /**
   * The strict naming of `tiff_to_zarr` fails exactly when a kept file's code is
   * not in the channel map, with a lookup error on such a code.
   */
  lemma StrictFramesFailOnUnknownCode(kept: seq<string>, channelMap: Dict<string, string>)
    ensures ImageFrames(kept, channelMap, true).Err? ==>
      exists x | x in kept :: Lookup(channelMap, ChannelCode(x)).None?
        && ImageFrames(kept, channelMap, true).error == UnknownChannel(ChannelCode(x))
    ensures (exists x | x in kept :: Lookup(channelMap, ChannelCode(x)).None?) ==>
      ImageFrames(kept, channelMap, true).Err?
  {
    var gs := ChannelGroups(kept);
    if ImageFrames(kept, channelMap, true).Err? {
      var i := FirstNamingError(gs, channelMap, true);
      var x := FileOfGroup(kept, i);
      assert Lookup(channelMap, ChannelCode(x)).None?;
    }
    if x :| x in kept && Lookup(channelMap, ChannelCode(x)).None? {
      var i := GroupOfFile(kept, x);
      ImageFramePairsSpec(gs, channelMap, true);
      assert ChannelName(gs[i].0, channelMap, true).Err?;
    }
  }

  /**
   * When its channel name is given to no other code, the files of a channel are
   * exactly the kept files with its code, in z order.
   */
  lemma ChannelFramesAreGroupInZOrder(kept: seq<string>, channelMap: Dict<string, string>, strict: bool, x: string)
    requires x in kept
    requires ImageFrames(kept, channelMap, strict).Ok?
    requires var name := ChannelName(ChannelCode(x), channelMap, strict);
      forall y | y in kept && ChannelCode(y) != ChannelCode(x) :: ChannelName(ChannelCode(y), channelMap, strict) != name
    ensures var name := ChannelName(ChannelCode(x), channelMap, strict);
      name.Ok? && Lookup(ImageFrames(kept, channelMap, strict).value, name.value)
        == Some(ZOrder(Matching(kept, ChannelCode, ChannelCode(x))))
  {
    var gs := ChannelGroups(kept);
    var pairs := ImageFramePairs(gs, channelMap, strict).value;
    ImageFramePairsSpec(gs, channelMap, strict);
    var i := GroupOfFile(kept, x);
    var name := ChannelName(ChannelCode(x), channelMap, strict).value;
    forall j | 0 <= j < |pairs| && j != i
      ensures pairs[j].0 != name
    {
      var y := FileOfGroup(kept, j);
      ChannelGroupCodesDistinct(kept, i, j);
    }
    LastValueOfUniqueKey(pairs, name, i);
    FromPairsLookup(pairs, name);
    ChannelGroupsSpec(kept);
  }

  /** The last pair with a key that only one pair has is that pair. */
  lemma {:induction false} LastValueOfUniqueKey<K, V>(ps: seq<(K, V)>, k: K, i: nat)
    requires i < |ps| && ps[i].0 == k
    requires forall j | 0 <= j < |ps| && j != i :: ps[j].0 != k
    ensures LastPairValue(ps, k) == Some(ps[i].1)
  {
    if i < |ps| - 1 {
      var init := ps[..|ps| - 1];
      LastValueOfUniqueKey(init, k, i);
    }
  }

  /** The first file of each group of names with one first token, with that token. */
  function FirstOfGroups(gs: seq<(string, seq<string>)>): (r: seq<(string, string)>)
    requires forall i | 0 <= i < |gs| :: gs[i].1 != []
    ensures |r| == |gs| && forall i | 0 <= i < |gs| :: r[i] == (gs[i].0, gs[i].1[0])
  {
    if gs == [] then [] else [(gs[0].0, gs[0].1[0])] + FirstOfGroups(gs[1..])
  }

  /** `groupby(sorted(names, key=token), key=token)` on the first token. */
  function TokenGroups(names: seq<string>): seq<(string, seq<string>)> {
    StrLtIsStrictTotalOrder();
    GroupRuns(SortBy(names, FirstToken, StrLt), FirstToken)
  }

  lemma TokenGroupsSpec(names: seq<string>)
    ensures var gs := TokenGroups(names);
      && (forall i, j | 0 <= i < j < |gs| :: StrLt(gs[i].0, gs[j].0))
      && (forall i | 0 <= i < |gs| :: gs[i].1 != [] && gs[i].1 == Matching(names, FirstToken, gs[i].0))
  {
    StrLtIsStrictTotalOrder();
    GroupRunsOfSorted(SortBy(names, FirstToken, StrLt), FirstToken, StrLt);
  }

  /** `(token, next(iter(files)))` for each of those groups. */
  function FirstPerToken(names: seq<string>): seq<(string, string)> {
    TokenGroupsSpec(names);
    FirstOfGroups(TokenGroups(names))
  }

  /**
   * One pair per first token, in increasing token order; its file is the first
   * name in listing order that has that token.
   */
  lemma FirstPerTokenSpec(names: seq<string>)
    ensures var r := FirstPerToken(names);
      && (forall i, j | 0 <= i < j < |r| :: StrLt(r[i].0, r[j].0))
      && (forall i | 0 <= i < |r| :: Matching(names, FirstToken, r[i].0) != []
            && r[i].1 == Matching(names, FirstToken, r[i].0)[0])
  {
    TokenGroupsSpec(names);
  }

  /** Every name's token has its pair. */
  lemma FirstPerTokenCovers(names: seq<string>, x: string)
    requires x in names
    ensures exists i | 0 <= i < |FirstPerToken(names)| :: FirstPerToken(names)[i].0 == FirstToken(x)
  {
    StrLtIsStrictTotalOrder();
    var sorted := SortBy(names, FirstToken, StrLt);
    var gs := TokenGroups(names);
    FlattenMembers(gs);
    assert x in multiset(names);
    assert x in sorted;
    var i :| 0 <= i < |gs| && x in gs[i].1;
    TokenGroupsSpec(names);
    assert FirstPerToken(names)[i].0 == FirstToken(x);
  }

  /** `frame_files["labels"]` of `tiff_to_zarr`: keys `f"{Path(token).stem} (labels)"`. */
  function ZarrLabelFiles(listing: seq<string>): Dict<string, string> {
    FromPairs(StemKeys(FirstPerToken(listing)))
  }

  function StemKeys(ps: seq<(string, string)>): (r: seq<(string, string)>)
    ensures |r| == |ps| && forall i | 0 <= i < |ps| :: r[i] == (Stem(ps[i].0) + " (labels)", ps[i].1)
  {
    if ps == [] then [] else [(Stem(ps[0].0) + " (labels)", ps[0].1)] + StemKeys(ps[1..])
  }

  /** `frame_files["labels"]` of `tiff_to_ometiff`: keyed by the token itself. */
  function TiffLabelFiles(globbed: seq<string>): Dict<string, string> {
    FromPairs(FirstPerToken(globbed))
  }

  /** Tokens are distinct, so the TIFF label dict holds the first file per token in token order. */
  lemma TiffLabelFilesAreFirstPerToken(globbed: seq<string>)
    ensures TiffLabelFiles(globbed) == FirstPerToken(globbed)
  {
    var r := FirstPerToken(globbed);
    FirstPerTokenSpec(globbed);
    forall i, j | 0 <= i < j < |r|
      ensures r[i].0 != r[j].0
    {
      StrLtIrreflexive(r[i].0);
    }
    FromDistinctPairs(r);
  }

  /** One z-slice: a 2-D image of `height` by `width` pixels, whose values are not modelled. */
  datatype Slice<P> = Slice(height: nat, width: nat, pixels: P)

  /** A 3-D array as its z-slices; its shape is `(|slices|, height, width)`. */
  datatype Volume<P> = Volume(height: nat, width: nat, slices: seq<Slice<P>>)

  /** `np.stack(slices, axis=0)`. */
  function StackSlices<P>(slices: seq<Slice<P>>): (r: Result<Volume<P>, Error>)
    ensures r.Ok? <==> slices != [] && forall k | 0 <= k < |slices| ::
      slices[k].height == slices[0].height && slices[k].width == slices[0].width
    ensures r.Ok? ==> r.value.slices == slices && forall k | 0 <= k < |slices| ::
      slices[k].height == r.value.height && slices[k].width == r.value.width
    ensures r.Err? ==> r.error == if slices == [] then NothingToStack else ShapeMismatch
  {
    if slices == [] then Err(NothingToStack)
    else if forall k | 0 <= k < |slices| :: slices[k].height == slices[0].height && slices[k].width == slices[0].width then
      Ok(Volume(slices[0].height, slices[0].width, slices))
    else Err(ShapeMismatch)
  }

  /** `[tiff.imread(file.path) for file in files]`, the reader taking the directory and the entry name. */
  function ReadSlices<P>(dir: string, files: seq<string>, readSlice: (string, string) -> Slice<P>): (r: seq<Slice<P>>)
    ensures |r| == |files| && forall k | 0 <= k < |files| :: r[k] == readSlice(dir, files[k])
  {
    if files == [] then [] else [readSlice(dir, files[0])] + ReadSlices(dir, files[1..], readSlice)
  }

  /** `frame_zstacks["images"]`: each channel's files read and stacked, the first failure raised. */
  function LoadImageStacks<P>(dir: string, frames: Dict<string, seq<string>>, readSlice: (string, string) -> Slice<P>)
    : Result<Dict<string, Volume<P>>, Error>
  {
    if frames == [] then Ok([])
    else
      var stack :- StackSlices(ReadSlices(dir, frames[0].1, readSlice));
      var rest :- LoadImageStacks(dir, frames[1..], readSlice);
      Ok([(frames[0].0, stack)] + rest)
  }

  /**
   * Loading keeps the channels and their order; the k-th slice of a channel's
   * volume is read from its k-th file; it fails exactly when a channel's slices
   * differ in shape.
   */
  lemma {:induction false} LoadImageStacksSpec<P>(dir: string, frames: Dict<string, seq<string>>, readSlice: (string, string) -> Slice<P>)
    requires forall i | 0 <= i < |frames| :: frames[i].1 != []
    ensures var r := LoadImageStacks(dir, frames, readSlice);
      && (r.Ok? <==> forall i | 0 <= i < |frames| :: StackSlices(ReadSlices(dir, frames[i].1, readSlice)).Ok?)
      && (r.Ok? ==> Keys(r.value) == Keys(frames) && forall i | 0 <= i < |frames| ::
            r.value[i].1.slices == ReadSlices(dir, frames[i].1, readSlice))
      && (r.Err? ==> r.error == ShapeMismatch)
  {
    if frames != [] {
      LoadImageStacksSpec(dir, frames[1..], readSlice);
      assert forall i | 1 <= i < |frames| :: frames[i] == frames[1..][i - 1];
    }
  }

  /** `frame_zstacks["labels"]`: each compartment's label file read as a volume. */
  function LoadLabelVolumes<P>(dir: string, labels: Dict<string, string>, readVolume: (string, string) -> Volume<P>)
    : (r: Dict<string, Volume<P>>)
    ensures |r| == |labels| && forall i | 0 <= i < |labels| :: r[i] == (labels[i].0, readVolume(dir, labels[i].1))
  {
    if labels == [] then [] else [(labels[0].0, readVolume(dir, labels[0].1))] + LoadLabelVolumes(dir, labels[1..], readVolume)
  }

  /** Python's truth value of the optional `label_dir`: given and not empty. */
  predicate Truthy(labelDir: Option<string>) {
    labelDir.Some? && labelDir.value != ""
  }
}
