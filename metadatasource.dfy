/**
  The unified metadata datasource: it accepts every slide extension that
  either the OpenSlide or the OME-TIFF datasource reads, insists on exactly
  one of a target resolution (`mpp`) or a pyramid level, and hands each file
  to the datasource its name calls for.
*/
module MetaDatasources {
  import opened PyCore
  import opened SlideFormats

  /** The extensions the OpenSlide datasource reads. */
  const OpenSlideExtensions: seq<string> :=
    ["svs", "tif", "dcm", "ndpi", "vms", "vmu", "scn", "mrxs", "tiff", "svslide", "bif", "czi"]

  /** The extensions the unified datasource reads, as it lists them. */
  const FileExtensions: seq<string> :=
    ["svs", "tif", "dcm", "ndpi", "vms", "vmu", "scn", "mrxs", "tiff", "svslide", "bif", "czi",
     "ome.tiff", "ome.tif"]

  /** The list is the OpenSlide list followed by the two OME-TIFF
      extensions, so every OpenSlide extension is accepted and the list is
      longer. */
  lemma FileExtensionsUnion()
    ensures FileExtensions == OpenSlideExtensions + ["ome.tiff", "ome.tif"]
    ensures forall i :: 0 <= i < |OpenSlideExtensions| ==> OpenSlideExtensions[i] in FileExtensions
    ensures |FileExtensions| == |OpenSlideExtensions| + 2
  {
    assert forall i :: 0 <= i < |OpenSlideExtensions| ==> FileExtensions[i] == OpenSlideExtensions[i];
  }

  /** A tile extent or stride: one int for both axes, or an (x, y) pair. */
  datatype Size = Side(n: int) | Sides(x: int, y: int)

  /** The datasource a file is handed to. */
  datatype Source = OmeTypes | OpenSlide

  /** The datasource `_read_stream` builds for one file, with the arguments
      it passes. */
  datatype Delegate = Delegate(source: Source, paths: seq<string>, mpp: Option<real>, level: Option<int>,
                               tileExtent: Size, stride: Size)

  const ResolutionMessage := "Exactly one of 'mpp' or 'level' must be provided, not both or neither."

  /** The assertion of `__init__`. */
  function CheckResolution(mpp: Option<real>, level: Option<int>): (r: Option<Exc>)
    ensures r.None? <==> (mpp.Some? <==> level.None?)
    ensures r.Some? ==> r.value == AssertionError(ResolutionMessage)
  {
    if mpp.Some? != level.Some? then None else Some(AssertionError(ResolutionMessage))
  }

  class MetaDatasource {
    const paths: seq<string>
    const fileExtensions: seq<string>
    var desiredMpp: Option<real>
    var desiredLevel: Option<int>
    var tileExtent: Size
    var stride: Size

    /** Exactly one of the resolution and the level is set, and every
        extension either datasource reads is accepted. */
    predicate Valid()
      reads this
    {
      CheckResolution(desiredMpp, desiredLevel).None? && fileExtensions == FileExtensions
    }

    /** `__init__` once its assertion has passed. */
    constructor (paths: seq<string>, mpp: Option<real>, level: Option<int>, tileExtent: Size, stride: Size)
      requires CheckResolution(mpp, level).None?
      ensures Valid()
      ensures this.paths == paths && desiredMpp == mpp && desiredLevel == level
      ensures this.tileExtent == tileExtent && this.stride == stride
    {
      this.paths := paths;
      fileExtensions := FileExtensions;
      desiredMpp := mpp;
      desiredLevel := level;
      this.tileExtent := tileExtent;
      this.stride := stride;
    }

    /** The choice `_read_stream` makes for `path`: the OME-TIFF datasource
        for an OME-TIFF name, the OpenSlide one otherwise, built for that one
        file with this datasource's resolution, level, extent and stride. */
    function ReadStreamDelegate(path: string): (d: Delegate)
      reads this
      ensures d.source == OmeTypes <==> IsOmeTiff(path)
      ensures d.paths == [path] && d.mpp == desiredMpp && d.level == desiredLevel
      ensures d.tileExtent == tileExtent && d.stride == stride
    {
      Delegate(if IsOmeTiff(path) then OmeTypes else OpenSlide, [path], desiredMpp, desiredLevel, tileExtent, stride)
    }
  }

  /** `MetaDatasource(paths, mpp=..., level=..., tile_extent=..., stride=...)`:
      the assertion fails unless exactly one of `mpp` and `level` is given. */
  method Create(paths: seq<string>, mpp: Option<real>, level: Option<int>, tileExtent: Size, stride: Size)
    returns (r: Result<MetaDatasource>)
    ensures r.Err? <==> (mpp.Some? == level.Some?)
    ensures r.Err? ==> r.exc == AssertionError(ResolutionMessage)
    ensures r.Ok? ==> fresh(r.value) && r.value.Valid()
    ensures r.Ok? ==> r.value.paths == paths && r.value.desiredMpp == mpp && r.value.desiredLevel == level
    ensures r.Ok? ==> r.value.tileExtent == tileExtent && r.value.stride == stride
  {
    var failure := CheckResolution(mpp, level);
    if failure.Some? {
      return Err(failure.value);
    }
    var ds := new MetaDatasource(paths, mpp, level, tileExtent, stride);
    return Ok(ds);
  }

  /** Whichever datasource a file goes to, it is given exactly one of the
      resolution and the level, so its own check of that passes too. */
  lemma DelegateResolution(ds: MetaDatasource, path: string)
    requires ds.Valid()
    ensures CheckResolution(ds.ReadStreamDelegate(path).mpp, ds.ReadStreamDelegate(path).level).None?
  {
  }

  /** Files are dispatched by name: the test suite's OME-TIFF names in
      either case go to the OME-TIFF datasource, its SVS and NDPI names to
      OpenSlide. */
  lemma DelegateForNames(ds: MetaDatasource, stem: string)
    ensures ds.ReadStreamDelegate(stem + ".ome.tiff").source == OmeTypes
    ensures ds.ReadStreamDelegate(stem + ".OME.TIFF").source == OmeTypes
    ensures ds.ReadStreamDelegate(stem + ".ome.tif").source == OmeTypes
    ensures ds.ReadStreamDelegate(stem + ".OME.TIF").source == OmeTypes
    ensures ds.ReadStreamDelegate(stem + ".svs").source == OpenSlide
    ensures ds.ReadStreamDelegate(stem + ".ndpi").source == OpenSlide
  {
    OmeTiffNames(stem);
    OtherNames(stem);
  }
}
