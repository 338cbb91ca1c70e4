/**
  The unified tile reader: a row of the tile table goes to the tifffile
  reader when its `path` names an OME-TIFF, and to the OpenSlide reader
  otherwise. The readers themselves read image files and are not modelled;
  the model records which one is called and with what.
*/
module TileReaders {
  import opened PyCore
  import opened Batch
  import opened SlideFormats
  import opened MetaDatasources

  /** One row of the tile table: column name to value. */
  type Row = map<string, Cell>

  datatype Reader = Tifffile | OpenSlideReader

  /** A call of one of the two readers. */
  datatype Call = Call(reader: Reader, row: Row)

  /** `tile_reader(row)`: `row["path"]` must be present and a string. */
  function TileReader(row: Row): (r: Result<Call>)
    ensures r.Ok? <==> "path" in row && row["path"].Text?
    ensures "path" !in row ==> r == Err(KeyError)
  {
    if "path" !in row then Err(KeyError)
    else match row["path"]
      case Text(path) => Ok(Call(if IsOmeTiff(path) then Tifffile else OpenSlideReader, row))
      case _ => Err(TypeError)
  }

  /** The row reaches the chosen reader unchanged, and the reader is the
      tifffile one exactly for OME-TIFF names. */
  lemma TileReaderCall(row: Row)
    requires "path" in row && row["path"].Text?
    ensures TileReader(row).value.row == row
    ensures TileReader(row).value.reader == Tifffile <==> IsOmeTiff(row["path"].s)
  {
  }

  /** The test suite's names: OME-TIFF names in either case go to tifffile;
      SVS, NDPI, MRXS and plain TIFF names go to OpenSlide. */
  lemma TileReaderNames(row: Row, stem: string, ext: string)
    requires "path" in row && row["path"] == Text(stem + ext)
    ensures ext in [".ome.tiff", ".OME.TIFF", ".ome.tif", ".OME.TIF"] ==> TileReader(row).value.reader == Tifffile
    ensures ext in [".svs", ".ndpi", ".mrxs"] ==> TileReader(row).value.reader == OpenSlideReader
    ensures ext == ".tiff" && !EndsWith(Lower(stem), ".ome") ==> TileReader(row).value.reader == OpenSlideReader
  {
    OmeTiffNames(stem);
    OtherNames(stem);
  }

  /** The tile reader and the metadata datasource classify every path the
      same way: tifffile for a row exactly when the datasource would hand
      the same file to the OME-TIFF datasource. */
  lemma ReadersAgree(ds: MetaDatasource, row: Row)
    requires "path" in row && row["path"].Text?
    ensures TileReader(row).value.reader == Tifffile <==> ds.ReadStreamDelegate(row["path"].s).source == OmeTypes
  {
  }
}
