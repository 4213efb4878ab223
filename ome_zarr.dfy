/**
 * `tiff_to_zarr`: the image channels (named strictly) and the label volumes of
 * a scan written to an OME-Zarr store, one child group per channel under
 * `images` and one per compartment under `labels`, each holding its volume
 * as dataset "0" with `units` and `multiscales` attributes.
 */
module OmeZarr {
  import opened Wrappers
  import opened Dict
  import opened Ordering
  import opened Frames

  /** An entry of `axes`: `{"name": ..., "unit": ..., "type": ...}`. */
  datatype Axis = Axis(name: string, unit: string, kind: string)

  /** `{"type": "scale", "scale": ...}`. */
  datatype Transformation<N> = Scale(scale: seq<N>)

  /** An entry of `datasets`: `{"path": ..., "coordinateTransformations": ...}`. */
  datatype Dataset<N> = Dataset(path: string, coordinateTransformations: seq<Transformation<N>>)

  /** An entry of `multiscales`. */
  datatype Multiscale<N> = Multiscale(datasets: seq<Dataset<N>>, axes: seq<Axis>)

  /** The values the converter stores in a group's attributes. */
  datatype Attribute<N> = Text(text: string) | Multiscales(entries: seq<Multiscale<N>>)

  /** A group of the store: its attributes and the arrays it holds, by name. */
  datatype Group<P, N> = Group(attrs: map<string, Attribute<N>>, arrays: map<string, Volume<P>>)

  function EmptyGroup<P, N>(): Group<P, N> {
    Group(map[], map[])
  }

  /**
   * `scale_metadata`: one multiscale with a single dataset at path "0" scaled by
   * the scaling values as given, over the axes z, y, x in micrometres.
   */
  function ScaleMetadata<N>(scaling: seq<N>): seq<Multiscale<N>> {
    [Multiscale([Dataset("0", [Scale(scaling)])],
                [Axis("z", "micrometer", "space"), Axis("y", "micrometer", "space"), Axis("x", "micrometer", "space")])]
  }

  /** A written channel or compartment group. */
  function ChannelGroup<P, N>(stack: Volume<P>, scaleMetadata: seq<Multiscale<N>>): Group<P, N> {
    Group(map["units" := Text("micrometers"), "multiscales" := Multiscales(scaleMetadata)], map["0" := stack])
  }

  /** A Zarr store: its groups by path from the root. */
  class ZarrStore<P, N> {
    var groups: map<seq<string>, Group<P, N>>

    /** `zarr.group(store, overwrite=True)`: the store holds an empty root group only. */
    constructor()
      ensures groups == map[[] := EmptyGroup()]
    {
      groups := map[[] := EmptyGroup()];
    }

    /** `create_group(name)` on the group at `parent`: a new empty group. */
    method CreateGroup(parent: seq<string>, name: string) returns (path: seq<string>)
      requires parent in groups && parent + [name] !in groups
      modifies this
      ensures path == parent + [name]
      ensures groups == old(groups)[path := EmptyGroup()]
    {
      path := parent + [name];
      groups := groups[path := EmptyGroup()];
    }

    /** `write_image(image, group, scaler=None)`: the single resolution level, stored as dataset "0". */
    method WriteImage(path: seq<string>, image: Volume<P>)
      requires path in groups
      modifies this
      ensures groups == old(groups)[path := old(groups)[path].(arrays := old(groups)[path].arrays["0" := image])]
    {
      var group := groups[path];
      groups := groups[path := group.(arrays := group.arrays["0" := image])];
    }

    /** `group.attrs[key] = value`. */
    method SetAttribute(path: seq<string>, key: string, value: Attribute<N>)
      requires path in groups
      modifies this
      ensures groups == old(groups)[path := old(groups)[path].(attrs := old(groups)[path].attrs[key := value])]
    {
      var group := groups[path];
      groups := groups[path := group.(attrs := group.attrs[key := value])];
    }
  }

  /** The groups the write loop creates under `parent`, one per item of `stacks`. */
  function Layout<P, N>(parent: seq<string>, stacks: Dict<string, Volume<P>>, scaleMetadata: seq<Multiscale<N>>)
    : map<seq<string>, Group<P, N>>
  {
    if stacks == [] then map[]
    else
      var last := stacks[|stacks| - 1];
      Layout(parent, stacks[..|stacks| - 1], scaleMetadata)[parent + [last.0] := ChannelGroup(last.1, scaleMetadata)]
  }

  /** The paths of the layout are `parent` extended by one key of `stacks`. */
  lemma {:induction false} LayoutPaths<P, N>(parent: seq<string>, stacks: Dict<string, Volume<P>>,
                                             scaleMetadata: seq<Multiscale<N>>, path: seq<string>)
    ensures path in Layout(parent, stacks, scaleMetadata) <==> exists k | k in Keys(stacks) :: path == parent + [k]
  {
    if stacks != [] {
      var init := stacks[..|stacks| - 1];
      LayoutPaths(parent, init, scaleMetadata, path);
      assert Keys(stacks) == Keys(init) + [stacks[|stacks| - 1].0] by {
        KeysOfPrefix(stacks);
      }
    }
  }

  /** With distinct keys, each item's group holds its volume with the units and multiscales attributes. */
  lemma {:induction false} LayoutGroup<P, N>(parent: seq<string>, stacks: Dict<string, Volume<P>>,
                                             scaleMetadata: seq<Multiscale<N>>, i: nat)
    requires DistinctKeys(stacks) && i < |stacks|
    ensures parent + [stacks[i].0] in Layout(parent, stacks, scaleMetadata)
    ensures Layout(parent, stacks, scaleMetadata)[parent + [stacks[i].0]] == ChannelGroup(stacks[i].1, scaleMetadata)
  {
    var n := |stacks|;
    if i < n - 1 {
      var init := stacks[..n - 1];
      LayoutGroup(parent, init, scaleMetadata, i);
      assert stacks[i].0 != stacks[n - 1].0;
      assert parent + [stacks[i].0] != parent + [stacks[n - 1].0] by {
        assert (parent + [stacks[i].0])[|parent|] == stacks[i].0;
        assert (parent + [stacks[n - 1].0])[|parent|] == stacks[n - 1].0;
      }
    }
  }

  /** The write loop: for each item, create its group, write its volume, and set its two attributes. */
  method WriteChannelGroups<P, N>(store: ZarrStore<P, N>, parent: seq<string>, stacks: Dict<string, Volume<P>>,
                                  scaleMetadata: seq<Multiscale<N>>)
    requires parent in store.groups
    requires DistinctKeys(stacks)
    requires forall k | k in Keys(stacks) :: parent + [k] !in store.groups
    modifies store
    ensures store.groups == old(store.groups) + Layout(parent, stacks, scaleMetadata)
  {
    for i := 0 to |stacks|
      invariant parent in store.groups
      invariant store.groups == old(store.groups) + Layout(parent, stacks[..i], scaleMetadata)
    {
      var channel := stacks[i].0;
      var stack := stacks[i].1;
      ghost var before := store.groups;
      FreshChannelPath(old(store.groups), parent, stacks, scaleMetadata, i);
      LayoutStep(parent, stacks, scaleMetadata, i);
      var group := WriteChannelGroup(store, parent, channel, stack, scaleMetadata);
      MergeUpdate(old(store.groups), Layout(parent, stacks[..i], scaleMetadata), group, ChannelGroup(stack, scaleMetadata));
    }
    assert stacks[..|stacks|] == stacks;
  }

  /** One iteration of the write loop: a new child group holding `stack` as dataset "0", with both attributes set. */
  method WriteChannelGroup<P, N>(store: ZarrStore<P, N>, parent: seq<string>, name: string, stack: Volume<P>,
                                 scaleMetadata: seq<Multiscale<N>>)
    returns (group: seq<string>)
    requires parent in store.groups && parent + [name] !in store.groups
    modifies store
    ensures group == parent + [name]
    ensures store.groups == old(store.groups)[group := ChannelGroup(stack, scaleMetadata)]
  {
    group := store.CreateGroup(parent, name);
    store.WriteImage(group, stack);
    store.SetAttribute(group, "units", Text("micrometers"));
    store.SetAttribute(group, "multiscales", Multiscales(scaleMetadata));
  }

  lemma MergeUpdate<K, V>(a: map<K, V>, b: map<K, V>, k: K, v: V)
    ensures (a + b)[k := v] == a + b[k := v]
  {
  }

  lemma LayoutStep<P, N>(parent: seq<string>, stacks: Dict<string, Volume<P>>, scaleMetadata: seq<Multiscale<N>>, i: nat)
    requires i < |stacks|
    ensures Layout(parent, stacks[..i + 1], scaleMetadata)
         == Layout(parent, stacks[..i], scaleMetadata)[parent + [stacks[i].0] := ChannelGroup(stacks[i].1, scaleMetadata)]
  {
    assert stacks[..i + 1][..i] == stacks[..i];
  }

  /** The next item's group is not yet in the store: the keys are distinct and were absent to begin with. */
  lemma FreshChannelPath<P, N>(groups: map<seq<string>, Group<P, N>>, parent: seq<string>,
                               stacks: Dict<string, Volume<P>>, scaleMetadata: seq<Multiscale<N>>, i: nat)
    requires DistinctKeys(stacks) && i < |stacks|
    requires forall k | k in Keys(stacks) :: parent + [k] !in groups
    ensures parent + [stacks[i].0] !in groups + Layout(parent, stacks[..i], scaleMetadata)
  {
    assert Keys(stacks)[i] == stacks[i].0;
    LayoutPaths(parent, stacks[..i], scaleMetadata, parent + [stacks[i].0]);
    forall k | k in Keys(stacks[..i])
      ensures parent + [stacks[i].0] != parent + [k]
    {
      var j :| 0 <= j < i && Keys(stacks[..i])[j] == k;
      assert (parent + [k])[|parent|] == k;
      assert (parent + [stacks[i].0])[|parent|] == stacks[i].0;
    }
  }

  /** Writing the store: root, `images` with its channels, then `labels` with its compartments when there are labels. */
  method WriteZarr<P, N>(images: Dict<string, Volume<P>>, labels: Option<Dict<string, Volume<P>>>,
                         scaleMetadata: seq<Multiscale<N>>)
    returns (store: ZarrStore<P, N>)
    requires DistinctKeys(images) && (labels.Some? ==> DistinctKeys(labels.value))
    ensures fresh(store) && store.groups == ZarrLayout(images, labels, scaleMetadata)
  {
    store := new ZarrStore();
    var imagesGroup := store.CreateGroup([], "images");
    assert imagesGroup == ["images"];
    NoGroupsUnder(store.groups, ["images"], images);
    assert store.groups == map[[] := EmptyGroup(), ["images"] := EmptyGroup()];
    WriteChannelGroups(store, imagesGroup, images, scaleMetadata);
    ghost var withImages := store.groups;
    if labels.Some? {
      assert ["labels"] !in store.groups by {
        LayoutUnder(["images"], images, scaleMetadata, ["labels"]);
      }
      assert [] + ["labels"] == ["labels"];
      var labelsGroup := store.CreateGroup([], "labels");
      forall k | k in Keys(labels.value)
        ensures ["labels"] + [k] !in store.groups
      {
        LayoutUnder(["images"], images, scaleMetadata, ["labels"] + [k]);
      }
      assert store.groups == withImages[["labels"] := EmptyGroup()];
      WriteChannelGroups(store, labelsGroup, labels.value, scaleMetadata);
    }
  }

  /** The store `tiff_to_zarr` leaves: root, `images` and its channels, and, with labels, `labels` and its compartments. */
  function ZarrLayout<P, N>(images: Dict<string, Volume<P>>, labels: Option<Dict<string, Volume<P>>>,
                            scaleMetadata: seq<Multiscale<N>>)
    : map<seq<string>, Group<P, N>>
  {
    var withImages := map[[] := EmptyGroup(), ["images"] := EmptyGroup()] + Layout(["images"], images, scaleMetadata);
    if labels.Some? then
      withImages[["labels"] := EmptyGroup()] + Layout(["labels"], labels.value, scaleMetadata)
    else withImages
  }

  /** `frame_files["labels"]` of `tiff_to_zarr`: read whenever `label_dir` is given, even when empty. */
  function ZarrLabelListing(fs: FileSystem, labelDir: Option<string>): (r: Result<Option<Dict<string, string>>, Error>)
    ensures r.Ok? ==> (r.value.Some? <==> labelDir.Some?)
    ensures labelDir.None? ==> r == Ok(None)
    ensures labelDir.Some? ==> (r.Ok? <==> labelDir.value in fs.dirs)
    ensures r.Ok? && labelDir.Some? ==> r.value.value == ZarrLabelFiles(fs.dirs[labelDir.value])
  {
    if labelDir.None? then Ok(None)
    else
      var listing :- ScanDir(fs, labelDir.value);
      Ok(Some(ZarrLabelFiles(listing)))
  }

  /** Everything `tiff_to_zarr` computes before writing: the checks, the frames and the loaded stacks. */
  function ZarrStacks<P>(fs: FileSystem, imageDir: string, labelDir: Option<string>, outputPath: string,
                         channelMap: Dict<string, string>,
                         readSlice: (string, string) -> Slice<P>, readVolume: (string, string) -> Volume<P>)
    : Result<(Dict<string, Volume<P>>, Option<Dict<string, Volume<P>>>), Error>
  {
    if outputPath in fs.dirs then Err(OutputExists(outputPath))
    else if imageDir !in fs.dirs then Err(NotADirectory(imageDir))
    else
      var listing :- ScanDir(fs, imageDir);
      var kept :- SelectImageFiles(listing);
      var frames :- ImageFrames(kept, channelMap, true);
      var labelFiles :- ZarrLabelListing(fs, labelDir);
      var stacks :- LoadImageStacks(imageDir, frames, readSlice);
      var labelVolumes :=
        if Truthy(labelDir) then Some(LoadLabelVolumes(labelDir.value, labelFiles.value, readVolume)) else None;
      Ok((stacks, labelVolumes))
  }

  /** `tiff_to_zarr`: returns the output path and the written store, or the error raised before writing. */
  method TiffToZarr<P, N>(fs: FileSystem, imageDir: string, labelDir: Option<string>, outputPath: string,
                          channelMap: Dict<string, string>, scaling: seq<N>,
                          readSlice: (string, string) -> Slice<P>, readVolume: (string, string) -> Volume<P>)
    returns (r: Result<string, Error>, store: ZarrStore?<P, N>)
    ensures var stacks := ZarrStacks(fs, imageDir, labelDir, outputPath, channelMap, readSlice, readVolume);
      && (r.Ok? <==> stacks.Ok?)
      && (r.Err? ==> r.error == stacks.error && store == null)
      && (r.Ok? ==> (r.value == outputPath && store != null && fresh(store)
                     && store.groups == ZarrLayout(stacks.value.0, stacks.value.1, ScaleMetadata(scaling))))
  {
    var stacks := ZarrStacks(fs, imageDir, labelDir, outputPath, channelMap, readSlice, readVolume);
    if stacks.Err? {
      return Err(stacks.error), null;
    }
    ZarrStacksDistinct(fs, imageDir, labelDir, outputPath, channelMap, readSlice, readVolume);
    var scaleMetadata := ScaleMetadata(scaling);
    store := WriteZarr(stacks.value.0, stacks.value.1, scaleMetadata);
    return Ok(outputPath), store;
  }

  /** The layout under `parent` holds only paths one longer than `parent` that start with it. */
  lemma LayoutUnder<P, N>(parent: seq<string>, stacks: Dict<string, Volume<P>>, scaleMetadata: seq<Multiscale<N>>,
                          path: seq<string>)
    requires |path| != |parent| + 1 || path[..|parent|] != parent
    ensures path !in Layout(parent, stacks, scaleMetadata)
  {
    LayoutPaths(parent, stacks, scaleMetadata, path);
    forall k | k in Keys(stacks)
      ensures path != parent + [k]
    {
      assert (parent + [k])[..|parent|] == parent;
    }
  }

  lemma NoGroupsUnder<P, N>(groups: map<seq<string>, Group<P, N>>, parent: seq<string>, stacks: Dict<string, Volume<P>>)
    requires forall path | path in groups :: |path| <= |parent|
    ensures forall k | k in Keys(stacks) :: parent + [k] !in groups
  {
  }

  /** The image channels and the compartments have distinct names, as dict keys. */
  lemma ZarrStacksDistinct<P>(fs: FileSystem, imageDir: string, labelDir: Option<string>, outputPath: string,
                              channelMap: Dict<string, string>,
                              readSlice: (string, string) -> Slice<P>, readVolume: (string, string) -> Volume<P>)
    requires ZarrStacks(fs, imageDir, labelDir, outputPath, channelMap, readSlice, readVolume).Ok?
    ensures var stacks := ZarrStacks(fs, imageDir, labelDir, outputPath, channelMap, readSlice, readVolume).value;
      DistinctKeys(stacks.0) && (stacks.1.Some? ==> DistinctKeys(stacks.1.value))
  {
    var listing := fs.dirs[imageDir];
    var kept := SelectImageFiles(listing).value;
    var frames := ImageFrames(kept, channelMap, true).value;
    var pairs := ImageFramePairs(ChannelGroups(kept), channelMap, true).value;
    FromPairsDistinct(pairs);
    ChannelGroupsNonEmpty(kept, channelMap);
    LoadImageStacksSpec(imageDir, frames, readSlice);
    SameKeysDistinct(frames, ZarrStacks(fs, imageDir, labelDir, outputPath, channelMap, readSlice, readVolume).value.0);
    if Truthy(labelDir) {
      var labelFiles := ZarrLabelListing(fs, labelDir).value.value;
      FromPairsDistinct(StemKeys(FirstPerToken(fs.dirs[labelDir.value])));
      var volumes := LoadLabelVolumes(labelDir.value, labelFiles, readVolume);
      assert Keys(volumes) == Keys(labelFiles);
      SameKeysDistinct(labelFiles, volumes);
    }
  }

  lemma ChannelGroupsNonEmpty(kept: seq<string>, channelMap: Dict<string, string>)
    requires ImageFrames(kept, channelMap, true).Ok?
    ensures forall i | 0 <= i < |ImageFrames(kept, channelMap, true).value| :: ImageFrames(kept, channelMap, true).value[i].1 != []
  {
    var gs := ChannelGroups(kept);
    var pairs := ImageFramePairs(gs, channelMap, true).value;
    var frames := FromPairs(pairs);
    ImageFramePairsSpec(gs, channelMap, true);
    ChannelGroupsSpec(kept);
    forall i | 0 <= i < |frames|
      ensures frames[i].1 != []
    {
      FromPairsItems(pairs, frames[i]);
      var j :| 0 <= j < |pairs| && pairs[j] == frames[i];
      assert |ZOrder(gs[j].1)| == |gs[j].1|;
    }
  }

  /**
   * The root and `images` groups carry nothing themselves, and `labels`, which
   * exists exactly when there are labels, neither.
   */
  lemma ZarrLayoutParents<P, N>(images: Dict<string, Volume<P>>, labels: Option<Dict<string, Volume<P>>>,
                                scaleMetadata: seq<Multiscale<N>>)
    ensures var layout := ZarrLayout(images, labels, scaleMetadata);
      && [] in layout && layout[[]] == EmptyGroup()
      && ["images"] in layout && layout[["images"]] == EmptyGroup()
      && (["labels"] in layout <==> labels.Some?)
      && (labels.Some? ==> layout[["labels"]] == EmptyGroup())
  {
    LayoutUnder(["images"], images, scaleMetadata, []);
    LayoutUnder(["images"], images, scaleMetadata, ["images"]);
    LayoutUnder(["images"], images, scaleMetadata, ["labels"]);
    if labels.Some? {
      LayoutUnder(["labels"], labels.value, scaleMetadata, []);
      LayoutUnder(["labels"], labels.value, scaleMetadata, ["images"]);
      LayoutUnder(["labels"], labels.value, scaleMetadata, ["labels"]);
    }
  }

  /** Every image channel has its group under `images`, holding its volume as dataset "0" with the scale metadata. */
  lemma ZarrLayoutImage<P, N>(images: Dict<string, Volume<P>>, labels: Option<Dict<string, Volume<P>>>,
                              scaleMetadata: seq<Multiscale<N>>, i: nat)
    requires DistinctKeys(images) && i < |images|
    ensures var layout := ZarrLayout(images, labels, scaleMetadata);
      ["images", images[i].0] in layout && layout[["images", images[i].0]] == ChannelGroup(images[i].1, scaleMetadata)
  {
    LayoutGroup(["images"], images, scaleMetadata, i);
    assert ["images"] + [images[i].0] == ["images", images[i].0];
    if labels.Some? {
      LayoutUnder(["labels"], labels.value, scaleMetadata, ["images", images[i].0]);
    }
  }

  /** With labels, every compartment has its group under `labels`, built the same way. */
  lemma ZarrLayoutLabel<P, N>(images: Dict<string, Volume<P>>, labels: Dict<string, Volume<P>>,
                              scaleMetadata: seq<Multiscale<N>>, i: nat)
    requires DistinctKeys(labels) && i < |labels|
    ensures var layout := ZarrLayout(images, Some(labels), scaleMetadata);
      ["labels", labels[i].0] in layout && layout[["labels", labels[i].0]] == ChannelGroup(labels[i].1, scaleMetadata)
  {
    LayoutGroup(["labels"], labels, scaleMetadata, i);
    assert ["labels"] + [labels[i].0] == ["labels", labels[i].0];
  }

  /** There is no other group than the root, `images`, `labels` and their children named by the keys. */
  lemma ZarrLayoutPaths<P, N>(images: Dict<string, Volume<P>>, labels: Option<Dict<string, Volume<P>>>,
                              scaleMetadata: seq<Multiscale<N>>, path: seq<string>)
    requires path in ZarrLayout(images, labels, scaleMetadata)
    ensures || path == [] || path == ["images"] || path == ["labels"]
            || (|path| == 2 && path[0] == "images" && path[1] in Keys(images))
            || (|path| == 2 && path[0] == "labels" && labels.Some? && path[1] in Keys(labels.value))
  {
    var withImages := map[[] := EmptyGroup(), ["images"] := EmptyGroup()] + Layout(["images"], images, scaleMetadata);
    if labels.Some? && path in Layout(["labels"], labels.value, scaleMetadata) {
      LayoutChild(["labels"], labels.value, scaleMetadata, path);
      assert path[0] == path[..1][0];
    } else if labels.Some? && path == ["labels"] {
    } else {
      assert path in withImages;
      if path in Layout(["images"], images, scaleMetadata) {
        LayoutChild(["images"], images, scaleMetadata, path);
        assert path[0] == path[..1][0];
      }
    }
  }

  /** A group the loop creates is one level below the parent, named by a key. */
  lemma LayoutChild<P, N>(parent: seq<string>, stacks: Dict<string, Volume<P>>, scaleMetadata: seq<Multiscale<N>>,
                          path: seq<string>)
    requires path in Layout(parent, stacks, scaleMetadata)
    ensures |path| == |parent| + 1 && path[..|parent|] == parent && path[|parent|] in Keys(stacks)
  {
    LayoutPaths(parent, stacks, scaleMetadata, path);
    var k :| k in Keys(stacks) && path == parent + [k];
    assert path[|parent|] == k;
  }

  /** An existing output directory is refused before anything else is looked at; then a missing image directory. */
  lemma ZarrChecksOutputFirst<P>(fs: FileSystem, imageDir: string, labelDir: Option<string>, outputPath: string,
                                 channelMap: Dict<string, string>,
                                 readSlice: (string, string) -> Slice<P>, readVolume: (string, string) -> Volume<P>)
    ensures var r := ZarrStacks(fs, imageDir, labelDir, outputPath, channelMap, readSlice, readVolume);
      && (outputPath in fs.dirs ==> r == Err(OutputExists(outputPath)))
      && (outputPath !in fs.dirs && imageDir !in fs.dirs ==> r == Err(NotADirectory(imageDir)))
  {
  }

  /**
   * Labels are written exactly when `label_dir` is truthy, one volume per label
   * file chosen from its listing; a `label_dir` given but missing fails even when
   * it is the empty string.
   */
  lemma ZarrLabelsIffTruthy<P>(fs: FileSystem, imageDir: string, labelDir: Option<string>, outputPath: string,
                               channelMap: Dict<string, string>,
                               readSlice: (string, string) -> Slice<P>, readVolume: (string, string) -> Volume<P>)
    ensures var r := ZarrStacks(fs, imageDir, labelDir, outputPath, channelMap, readSlice, readVolume);
      && (r.Ok? ==> (r.value.1.Some? <==> Truthy(labelDir)))
      && (r.Ok? && r.value.1.Some? ==>
            r.value.1.value == LoadLabelVolumes(labelDir.value, ZarrLabelFiles(fs.dirs[labelDir.value]), readVolume))
      && (r.Ok? && labelDir.Some? ==> labelDir.value in fs.dirs)
  {
    if ZarrStacks(fs, imageDir, labelDir, outputPath, channelMap, readSlice, readVolume).Ok? {
      ZarrStacksLabels(fs, imageDir, labelDir, outputPath, channelMap, readSlice, readVolume);
    }
  }

  /** The label volumes `ZarrStacks` loads: one per label file of a truthy `label_dir`, after a listing that succeeded. */
  lemma ZarrStacksLabels<P>(fs: FileSystem, imageDir: string, labelDir: Option<string>, outputPath: string,
                            channelMap: Dict<string, string>,
                            readSlice: (string, string) -> Slice<P>, readVolume: (string, string) -> Volume<P>)
    requires ZarrStacks(fs, imageDir, labelDir, outputPath, channelMap, readSlice, readVolume).Ok?
    ensures ZarrLabelListing(fs, labelDir).Ok?
    ensures ZarrStacks(fs, imageDir, labelDir, outputPath, channelMap, readSlice, readVolume).value.1 ==
      if Truthy(labelDir) then Some(LoadLabelVolumes(labelDir.value, ZarrLabelListing(fs, labelDir).value.value, readVolume))
      else None
  {
    var listing := ScanDir(fs, imageDir).value;
    assert SelectImageFiles(listing).Ok?;
    var kept := SelectImageFiles(listing).value;
    assert ImageFrames(kept, channelMap, true).Ok?;
    var frames := ImageFrames(kept, channelMap, true).value;
    assert ZarrLabelListing(fs, labelDir).Ok?;
    assert LoadImageStacks(imageDir, frames, readSlice).Ok?;
  }

  /**
   * End to end: when its channel name is given to no other code, a kept image
   * file's channel group in the store holds the volume whose k-th slice is read
   * from the k-th file, in z order, of all kept files with its channel code.
   */
  lemma ZarrChannelIsGroupInZOrder<P, N>(fs: FileSystem, imageDir: string, labelDir: Option<string>, outputPath: string,
                                         channelMap: Dict<string, string>, scaling: seq<N>,
                                         readSlice: (string, string) -> Slice<P>, readVolume: (string, string) -> Volume<P>,
                                         x: string)
    requires ZarrStacks(fs, imageDir, labelDir, outputPath, channelMap, readSlice, readVolume).Ok?
    requires imageDir in fs.dirs && SelectImageFiles(fs.dirs[imageDir]).Ok?
    requires x in SelectImageFiles(fs.dirs[imageDir]).value
    requires var kept := SelectImageFiles(fs.dirs[imageDir]).value;
      forall y | y in kept && ChannelCode(y) != ChannelCode(x) ::
        ChannelName(ChannelCode(y), channelMap, true) != ChannelName(ChannelCode(x), channelMap, true)
    ensures var kept := SelectImageFiles(fs.dirs[imageDir]).value;
      var stacks := ZarrStacks(fs, imageDir, labelDir, outputPath, channelMap, readSlice, readVolume).value;
      var layout := ZarrLayout(stacks.0, stacks.1, ScaleMetadata(scaling));
      var name := ChannelName(ChannelCode(x), channelMap, true);
      && name.Ok?
      && ["images", name.value] in layout
      && "0" in layout[["images", name.value]].arrays
      && layout[["images", name.value]].arrays["0"].slices
           == ReadSlices(imageDir, ZOrder(Matching(kept, ChannelCode, ChannelCode(x))), readSlice)
  {
    var kept := SelectImageFiles(fs.dirs[imageDir]).value;
    var stacks := ZarrStacks(fs, imageDir, labelDir, outputPath, channelMap, readSlice, readVolume).value;
    ZarrStacksImages(fs, imageDir, labelDir, outputPath, channelMap, readSlice, readVolume);
    var frames := ImageFrames(kept, channelMap, true).value;
    ChannelFramesAreGroupInZOrder(kept, channelMap, true, x);
    var name := ChannelName(ChannelCode(x), channelMap, true).value;
    var i := LookupIndex(frames, name);
    ChannelGroupsNonEmpty(kept, channelMap);
    LoadImageStacksSpec(imageDir, frames, readSlice);
    assert Keys(stacks.0)[i] == Keys(frames)[i];
    ZarrStacksDistinct(fs, imageDir, labelDir, outputPath, channelMap, readSlice, readVolume);
    ZarrLayoutImage(stacks.0, stacks.1, ScaleMetadata(scaling), i);
  }

  /** The image volumes of a successful conversion are those loaded from the strictly named frames of the kept files. */
  lemma ZarrStacksImages<P>(fs: FileSystem, imageDir: string, labelDir: Option<string>, outputPath: string,
                            channelMap: Dict<string, string>,
                            readSlice: (string, string) -> Slice<P>, readVolume: (string, string) -> Volume<P>)
    requires ZarrStacks(fs, imageDir, labelDir, outputPath, channelMap, readSlice, readVolume).Ok?
    ensures imageDir in fs.dirs && SelectImageFiles(fs.dirs[imageDir]).Ok?
    ensures var kept := SelectImageFiles(fs.dirs[imageDir]).value;
      && ImageFrames(kept, channelMap, true).Ok?
      && LoadImageStacks(imageDir, ImageFrames(kept, channelMap, true).value, readSlice).Ok?
      && ZarrStacks(fs, imageDir, labelDir, outputPath, channelMap, readSlice, readVolume).value.0
         == LoadImageStacks(imageDir, ImageFrames(kept, channelMap, true).value, readSlice).value
  {
  }
}
