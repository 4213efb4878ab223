/**
 * `tiff_to_ometiff`: the image channels (named leniently) and the label
 * volumes of a scan combined into one `(C, Z, Y, X)` array, written as one
 * OME-TIFF with the metadata the OME-XML is generated from.
 */
module OmeTiff {
  import opened Wrappers
  import opened Dict
  import opened Frames

  /** A 4-D array `(C, Z, Y, X)`: one volume per channel, each of shape `(sizeZ, sizeY, sizeX)`. */
  datatype Hyperstack<P> = Hyperstack(sizeZ: nat, sizeY: nat, sizeX: nat, channels: seq<Volume<P>>)

  /** The metadata dict handed to `generate_ome_xml`. */
  datatype OmeMetadata<N> = OmeMetadata(
    sizeC: nat, sizeZ: nat, sizeY: nat, sizeX: nat,
    physicalSizeX: N, physicalSizeY: N, physicalSizeZ: N,
    physicalSizeXUnit: string, physicalSizeYUnit: string, physicalSizeZUnit: string,
    channelNames: seq<string>)

  /** What is written to the output path: the combined array, described by the metadata. */
  datatype OmeTiffFile<P, N> = OmeTiffFile(data: Hyperstack<P>, metadata: OmeMetadata<N>)

  /** The shape of a volume. */
  function Shape<P>(v: Volume<P>): (nat, nat, nat) {
    (|v.slices|, v.height, v.width)
  }

  /** `np.stack(volumes, axis=0)`. */
  function StackVolumes<P>(volumes: seq<Volume<P>>): (r: Result<Hyperstack<P>, Error>)
    ensures r.Ok? <==> volumes != [] && forall k | 0 <= k < |volumes| :: Shape(volumes[k]) == Shape(volumes[0])
    ensures r.Ok? ==> (r.value.channels == volumes
      && forall k | 0 <= k < |volumes| :: Shape(volumes[k]) == (r.value.sizeZ, r.value.sizeY, r.value.sizeX))
    ensures r.Err? ==> r.error == if volumes == [] then NothingToStack else ShapeMismatch
  {
    if volumes == [] then Err(NothingToStack)
    else if forall k | 0 <= k < |volumes| :: Shape(volumes[k]) == Shape(volumes[0]) then
      Ok(Hyperstack(|volumes[0].slices|, volumes[0].height, volumes[0].width, volumes))
    else Err(ShapeMismatch)
  }

  /** `np.concatenate((a, b), axis=0)`: the channels of `a`, then those of `b`. */
  function Concatenate<P>(a: Hyperstack<P>, b: Hyperstack<P>): (r: Result<Hyperstack<P>, Error>)
    ensures r.Ok? <==> (a.sizeZ, a.sizeY, a.sizeX) == (b.sizeZ, b.sizeY, b.sizeX)
    ensures r.Ok? ==> (r.value.channels == a.channels + b.channels
      && (r.value.sizeZ, r.value.sizeY, r.value.sizeX) == (a.sizeZ, a.sizeY, a.sizeX))
  {
    if (a.sizeZ, a.sizeY, a.sizeX) == (b.sizeZ, b.sizeY, b.sizeX) then
      Ok(Hyperstack(a.sizeZ, a.sizeY, a.sizeX, a.channels + b.channels))
    else Err(ShapeMismatch)
  }

  /** `f"{name} (labels)"`. */
  function LabelName(name: string): string {
    name + " (labels)"
  }

  function LabelNames(names: seq<string>): (r: seq<string>)
    ensures |r| == |names| && forall i | 0 <= i < |names| :: r[i] == LabelName(names[i])
  {
    if names == [] then [] else [LabelName(names[0])] + LabelNames(names[1..])
  }

  /**
   * The collect loops: the image volumes and their channel names in dict order,
   * then, when there are labels, the label volumes and their suffixed names.
   */
  method CollectChannels<P>(images: Dict<string, Volume<P>>, labels: Option<Dict<string, Volume<P>>>)
    returns (imagesData: seq<Volume<P>>, channelNames: seq<string>, labelsData: seq<Volume<P>>, labelNames: seq<string>)
    ensures imagesData == Values(images) && channelNames == Keys(images)
    ensures labels.None? ==> labelsData == [] && labelNames == []
    ensures labels.Some? ==> labelsData == Values(labels.value) && labelNames == LabelNames(Keys(labels.value))
  {
    imagesData := [];
    labelsData := [];
    channelNames := [];
    labelNames := [];
    for i := 0 to |images|
      invariant |imagesData| == i && |channelNames| == i
      invariant forall k | 0 <= k < i :: imagesData[k] == images[k].1 && channelNames[k] == images[k].0
    {
      imagesData := imagesData + [images[i].1];
      channelNames := channelNames + [images[i].0];
    }
    if labels.Some? {
      var compartments := labels.value;
      for i := 0 to |compartments|
        invariant |labelsData| == i && |labelNames| == i
        invariant forall k | 0 <= k < i :: labelsData[k] == compartments[k].1 && labelNames[k] == LabelName(compartments[k].0)
      {
        labelsData := labelsData + [compartments[i].1];
        labelNames := labelNames + [LabelName(compartments[i].0)];
      }
    }
  }

  /** The combined array: the stacked images, followed by the stacked labels when there are any. */
  function Combine<P>(imagesData: seq<Volume<P>>, labelsData: seq<Volume<P>>): Result<Hyperstack<P>, Error> {
    var images :- StackVolumes(imagesData);
    if labelsData != [] then
      var labels :- StackVolumes(labelsData);
      Concatenate(images, labels)
    else Ok(images)
  }

  /**
   * Combining succeeds exactly when there is an image channel and every volume
   * has the shape of the first; the channels are the images, then the labels.
   */
  lemma CombineSpec<P>(imagesData: seq<Volume<P>>, labelsData: seq<Volume<P>>)
    ensures var r := Combine(imagesData, labelsData);
      && (r.Ok? <==> imagesData != [] && forall v | v in imagesData + labelsData :: Shape(v) == Shape(imagesData[0]))
      && (r.Ok? ==> (r.value.channels == imagesData + labelsData
            && (r.value.sizeZ, r.value.sizeY, r.value.sizeX) == Shape(imagesData[0])))
  {
    var all := imagesData + labelsData;
    if imagesData != [] && labelsData != [] {
      assert all[0] == imagesData[0];
      assert forall k | 0 <= k < |labelsData| :: all[|imagesData| + k] == labelsData[k];
      assert forall k | 0 <= k < |imagesData| :: all[k] == imagesData[k];
    } else if imagesData != [] {
      assert all == imagesData;
    }
  }

  /**
   * `ome_metadata`: the sizes from the combined shape, the physical sizes from the
   * `(z, y, x)` scaling in reverse, in micrometres; the scaling needs three values.
   */
  function OmeMetadataFor<P, N>(data: Hyperstack<P>, channelNames: seq<string>, scaling: seq<N>)
    : Result<OmeMetadata<N>, Error>
  {
    if |scaling| < 3 then Err(ScalingTooShort)
    else
      Ok(OmeMetadata(|data.channels|, data.sizeZ, data.sizeY, data.sizeX,
                     scaling[2], scaling[1], scaling[0], "um", "um", "um", channelNames))
  }

  /** Everything `tiff_to_ometiff` computes before writing: the checks, the frames and the loaded stacks. */
  function OmeTiffStacks<P>(fs: FileSystem, imageDir: string, labelDir: Option<string>, outputPath: string,
                            channelMap: Dict<string, string>,
                            readSlice: (string, string) -> Slice<P>, readVolume: (string, string) -> Volume<P>)
    : Result<(Dict<string, Volume<P>>, Option<Dict<string, Volume<P>>>), Error>
  {
    if outputPath in fs.files then Err(OutputExists(outputPath))
    else if imageDir !in fs.dirs then Err(NotADirectory(imageDir))
    else
      var listing :- ScanDir(fs, imageDir);
      var kept :- SelectImageFiles(listing);
      var frames :- ImageFrames(kept, channelMap, false);
      var labelFiles := if Truthy(labelDir) then Some(TiffLabelFiles(GlobTiff(fs, labelDir.value))) else None;
      var stacks :- LoadImageStacks(imageDir, frames, readSlice);
      var labelVolumes :=
        if labelFiles.Some? then Some(LoadLabelVolumes(labelDir.value, labelFiles.value, readVolume)) else None;
      Ok((stacks, labelVolumes))
  }

  /**
   * What `tiff_to_ometiff` returns and writes: the output path and the OME-TIFF, or
   * the error it raises. The label volumes are read from the globbed files
   * themselves; `OmeTiffConversionAsWritten` is the program as it stands. An output
   * path that is a directory passes the `is_file()` check and fails only when the
   * writer opens it.
   */
  function OmeTiffConversion<P, N>(fs: FileSystem, imageDir: string, labelDir: Option<string>, outputPath: string,
                                   channelMap: Dict<string, string>, scaling: seq<N>,
                                   readSlice: (string, string) -> Slice<P>, readVolume: (string, string) -> Volume<P>)
    : Result<(string, OmeTiffFile<P, N>), Error>
  {
    var stacks :- OmeTiffStacks(fs, imageDir, labelDir, outputPath, channelMap, readSlice, readVolume);
    var images := stacks.0;
    var labelsData := if stacks.1.Some? then Values(stacks.1.value) else [];
    var labelNames := if stacks.1.Some? then LabelNames(Keys(stacks.1.value)) else [];
    var combined :- Combine(Values(images), labelsData);
    var names := if labelsData != [] then Keys(images) + labelNames else Keys(images);
    var metadata :- OmeMetadataFor(combined, names, scaling);
    if outputPath in fs.dirs then Err(IsADirectory(outputPath))
    else Ok((outputPath, OmeTiffFile(combined, metadata)))
  }

  /** `tiff_to_ometiff`. */
  method TiffToOmeTiff<P, N>(fs: FileSystem, imageDir: string, labelDir: Option<string>, outputPath: string,
                             channelMap: Dict<string, string>, scaling: seq<N>,
                             readSlice: (string, string) -> Slice<P>, readVolume: (string, string) -> Volume<P>)
    returns (r: Result<(string, OmeTiffFile<P, N>), Error>)
    ensures r == OmeTiffConversion(fs, imageDir, labelDir, outputPath, channelMap, scaling, readSlice, readVolume)
  {
    var stacks :- OmeTiffStacks(fs, imageDir, labelDir, outputPath, channelMap, readSlice, readVolume);
    var imagesData, channelNames, labelsData, labelNames := CollectChannels(stacks.0, stacks.1);
    var combined :- Combine(imagesData, labelsData);
    var combinedNames := if labelsData != [] then channelNames + labelNames else channelNames;
    var metadata :- OmeMetadataFor(combined, combinedNames, scaling);
    if outputPath in fs.dirs {
      return Err(IsADirectory(outputPath));
    }
    return Ok((outputPath, OmeTiffFile(combined, metadata)));
  }

  /** An existing output file is refused before anything else is looked at; then a missing image directory. */
  lemma OmeTiffChecksOutputFirst<P, N>(fs: FileSystem, imageDir: string, labelDir: Option<string>, outputPath: string,
                                       channelMap: Dict<string, string>, scaling: seq<N>,
                                       readSlice: (string, string) -> Slice<P>, readVolume: (string, string) -> Volume<P>)
    ensures var r := OmeTiffConversion(fs, imageDir, labelDir, outputPath, channelMap, scaling, readSlice, readVolume);
      && (outputPath in fs.files ==> r == Err(OutputExists(outputPath)))
      && (outputPath !in fs.files && imageDir !in fs.dirs ==> r == Err(NotADirectory(imageDir)))
  {
  }

  /**
   * The written file: its channels are the image volumes in channel order and then
   * the label volumes; it names them the same way, image names first and label
   * names with " (labels)"; SizeC counts them; the physical sizes reverse the
   * `(z, y, x)` scaling, in "um".
   */
  lemma OmeTiffLayout<P, N>(fs: FileSystem, imageDir: string, labelDir: Option<string>, outputPath: string,
                            channelMap: Dict<string, string>, scaling: seq<N>,
                            readSlice: (string, string) -> Slice<P>, readVolume: (string, string) -> Volume<P>)
    requires OmeTiffConversion(fs, imageDir, labelDir, outputPath, channelMap, scaling, readSlice, readVolume).Ok?
    ensures var (path, file) := OmeTiffConversion(fs, imageDir, labelDir, outputPath, channelMap, scaling, readSlice, readVolume).value;
      var stacks := OmeTiffStacks(fs, imageDir, labelDir, outputPath, channelMap, readSlice, readVolume).value;
      var labels: Dict<string, Volume<P>> := if stacks.1.Some? then stacks.1.value else [];
      && path == outputPath
      && file.data.channels == Values(stacks.0) + Values(labels)
      && file.metadata.channelNames == Keys(stacks.0) + LabelNames(Keys(labels))
      && file.metadata.sizeC == |file.metadata.channelNames|
      && (file.metadata.sizeZ, file.metadata.sizeY, file.metadata.sizeX) == Shape(file.data.channels[0])
      && |scaling| >= 3
      && file.metadata.physicalSizeX == scaling[2]
      && file.metadata.physicalSizeY == scaling[1]
      && file.metadata.physicalSizeZ == scaling[0]
      && file.metadata.physicalSizeXUnit == file.metadata.physicalSizeYUnit == file.metadata.physicalSizeZUnit == "um"
  {
    var stacks := OmeTiffStacks(fs, imageDir, labelDir, outputPath, channelMap, readSlice, readVolume).value;
    var labels: Dict<string, Volume<P>> := if stacks.1.Some? then stacks.1.value else [];
    CombineSpec(Values(stacks.0), Values(labels));
    if Values(labels) == [] {
      assert Keys(labels) == [];
      assert Values(stacks.0) + Values(labels) == Values(stacks.0);
      assert Keys(stacks.0) + LabelNames(Keys(labels)) == Keys(stacks.0);
    }
  }

  /**
   * The conversion fails after its checks exactly when a channel's slices differ in
   * shape, there is no image channel, a volume's shape differs from the first image
   * volume's, fewer than three scaling values are given, or the output path is a
   * directory.
   */
  lemma OmeTiffFailsOnShapesOrScaling<P, N>(fs: FileSystem, imageDir: string, labelDir: Option<string>, outputPath: string,
                                           channelMap: Dict<string, string>, scaling: seq<N>,
                                           readSlice: (string, string) -> Slice<P>, readVolume: (string, string) -> Volume<P>)
    requires OmeTiffStacks(fs, imageDir, labelDir, outputPath, channelMap, readSlice, readVolume).Ok?
    ensures var stacks := OmeTiffStacks(fs, imageDir, labelDir, outputPath, channelMap, readSlice, readVolume).value;
      var images := Values(stacks.0);
      var labels := if stacks.1.Some? then Values(stacks.1.value) else [];
      OmeTiffConversion(fs, imageDir, labelDir, outputPath, channelMap, scaling, readSlice, readVolume).Ok? <==>
        images != [] && (forall v | v in images + labels :: Shape(v) == Shape(images[0])) && |scaling| >= 3
        && outputPath !in fs.dirs
  {
    var stacks := OmeTiffStacks(fs, imageDir, labelDir, outputPath, channelMap, readSlice, readVolume).value;
    var labels := if stacks.1.Some? then Values(stacks.1.value) else [];
    CombineSpec(Values(stacks.0), labels);
  }

  /**
   * `tiff_to_ometiff` as written: the label comprehension evaluates `tiff_file.path`
   * on the `pathlib.Path` objects that `glob` yields, and a `Path` has no `path`
   * attribute, so the first label file raises `AttributeError` once the image
   * stacks are loaded.
   */
  function OmeTiffConversionAsWritten<P, N>(fs: FileSystem, imageDir: string, labelDir: Option<string>, outputPath: string,
                                            channelMap: Dict<string, string>, scaling: seq<N>,
                                            readSlice: (string, string) -> Slice<P>, readVolume: (string, string) -> Volume<P>)
    : Result<(string, OmeTiffFile<P, N>), Error>
  {
    var stacks :- OmeTiffStacks(fs, imageDir, labelDir, outputPath, channelMap, readSlice, readVolume);
    if Truthy(labelDir) && TiffLabelFiles(GlobTiff(fs, labelDir.value)) != [] then Err(MissingPathAttribute)
    else OmeTiffConversion(fs, imageDir, labelDir, outputPath, channelMap, scaling, readSlice, readVolume)
  }

  /**
   * As written, one `*.tiff` entry in a truthy label directory makes the conversion
   * fail after loading the images, where the intended conversion would write a
   * label channel for it.
   */
  lemma AsWrittenFailsOnLabelFile<P, N>(fs: FileSystem, imageDir: string, labelDir: Option<string>, outputPath: string,
                                        channelMap: Dict<string, string>, scaling: seq<N>,
                                        readSlice: (string, string) -> Slice<P>, readVolume: (string, string) -> Volume<P>,
                                        x: string)
    requires OmeTiffStacks(fs, imageDir, labelDir, outputPath, channelMap, readSlice, readVolume).Ok?
    requires Truthy(labelDir) && x in GlobTiff(fs, labelDir.value)
    ensures OmeTiffConversionAsWritten(fs, imageDir, labelDir, outputPath, channelMap, scaling, readSlice, readVolume)
      == Err(MissingPathAttribute)
    ensures var r := OmeTiffConversion(fs, imageDir, labelDir, outputPath, channelMap, scaling, readSlice, readVolume);
      var images := OmeTiffStacks(fs, imageDir, labelDir, outputPath, channelMap, readSlice, readVolume).value.0;
      r.Ok? ==> |r.value.1.data.channels| > |Values(images)|
  {
    var files := TiffLabelFiles(GlobTiff(fs, labelDir.value));
    LabelFilesNonEmpty(GlobTiff(fs, labelDir.value), x);
    if OmeTiffConversion(fs, imageDir, labelDir, outputPath, channelMap, scaling, readSlice, readVolume).Ok? {
      var stacks := OmeTiffStacks(fs, imageDir, labelDir, outputPath, channelMap, readSlice, readVolume).value;
      OmeTiffStacksLabels(fs, imageDir, labelDir, outputPath, channelMap, readSlice, readVolume);
      assert |Values(stacks.1.value)| == |files|;
      OmeTiffLayout(fs, imageDir, labelDir, outputPath, channelMap, scaling, readSlice, readVolume);
    }
  }

  /** A glob with an entry gives at least one label file. */
  lemma LabelFilesNonEmpty(globbed: seq<string>, x: string)
    requires x in globbed
    ensures TiffLabelFiles(globbed) != []
  {
    FirstPerTokenCovers(globbed, x);
    TiffLabelFilesAreFirstPerToken(globbed);
  }

  /** The label volumes `OmeTiffStacks` loads: one per label file of a truthy `label_dir`. */
  lemma OmeTiffStacksLabels<P>(fs: FileSystem, imageDir: string, labelDir: Option<string>, outputPath: string,
                               channelMap: Dict<string, string>,
                               readSlice: (string, string) -> Slice<P>, readVolume: (string, string) -> Volume<P>)
    requires OmeTiffStacks(fs, imageDir, labelDir, outputPath, channelMap, readSlice, readVolume).Ok?
    ensures var labels := OmeTiffStacks(fs, imageDir, labelDir, outputPath, channelMap, readSlice, readVolume).value.1;
      labels == if Truthy(labelDir) then Some(LoadLabelVolumes(labelDir.value, TiffLabelFiles(GlobTiff(fs, labelDir.value)), readVolume))
                else None
  {
  }

  /** As written, a conversion that succeeds writes the image channels only. */
  lemma AsWrittenWritesNoLabels<P, N>(fs: FileSystem, imageDir: string, labelDir: Option<string>, outputPath: string,
                                      channelMap: Dict<string, string>, scaling: seq<N>,
                                      readSlice: (string, string) -> Slice<P>, readVolume: (string, string) -> Volume<P>)
    requires OmeTiffConversionAsWritten(fs, imageDir, labelDir, outputPath, channelMap, scaling, readSlice, readVolume).Ok?
    ensures var r := OmeTiffConversionAsWritten(fs, imageDir, labelDir, outputPath, channelMap, scaling, readSlice, readVolume);
      var images := OmeTiffStacks(fs, imageDir, labelDir, outputPath, channelMap, readSlice, readVolume).value.0;
      && r == OmeTiffConversion(fs, imageDir, labelDir, outputPath, channelMap, scaling, readSlice, readVolume)
      && r.value.1.data.channels == Values(images)
      && r.value.1.metadata.channelNames == Keys(images)
  {
    OmeTiffLayout(fs, imageDir, labelDir, outputPath, channelMap, scaling, readSlice, readVolume);
    var stacks := OmeTiffStacks(fs, imageDir, labelDir, outputPath, channelMap, readSlice, readVolume).value;
    OmeTiffStacksLabels(fs, imageDir, labelDir, outputPath, channelMap, readSlice, readVolume);
    var labels: Dict<string, Volume<P>> := if stacks.1.Some? then stacks.1.value else [];
    assert labels == [];
    assert Values(stacks.0) + Values(labels) == Values(stacks.0);
    assert Keys(stacks.0) + LabelNames(Keys(labels)) == Keys(stacks.0);
  }
}
