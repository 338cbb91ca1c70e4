/**
  How the repository tells an OME-TIFF slide from every other slide format:
  by the file name alone, ignoring case.
*/
module SlideFormats {
  import opened PyCore

  /** `path.lower().endswith((".ome.tiff", ".ome.tif"))`. */
  predicate IsOmeTiff(path: string)
  {
    EndsWith(Lower(path), ".ome.tiff") || EndsWith(Lower(path), ".ome.tif")
  }

  /** Case does not matter: a name and its lower-case form are classified
      alike. */
  lemma IsOmeTiffIgnoresCase(path: string)
    ensures IsOmeTiff(Lower(path)) == IsOmeTiff(path)
  {
    LowerIdempotent(path);
  }

  /** Lowering a name lowers its extension character by character. */
  lemma LowerExtension(stem: string, ext: string, lower: string)
    requires |ext| == |lower| && forall k :: 0 <= k < |ext| ==> LowerChar(ext[k]) == lower[k]
    ensures Lower(stem + ext)[|stem|..] == lower
  {
    var l := Lower(stem + ext);
    assert forall k :: 0 <= k < |ext| ==> l[|stem| + k] == lower[k];
  }

  /** Whatever the stem, the OME-TIFF extensions the test suite uses
      (`test.ome.tiff`, `TEST.OME.TIFF`, `sample.ome.tif`, `SAMPLE.OME.TIF`)
      are recognised in either case. */
  lemma OmeTiffNames(stem: string)
    ensures IsOmeTiff(stem + ".ome.tiff") && IsOmeTiff(stem + ".OME.TIFF")
    ensures IsOmeTiff(stem + ".ome.tif") && IsOmeTiff(stem + ".OME.TIF")
  {
    LowerExtension(stem, ".ome.tiff", ".ome.tiff");
    LowerExtension(stem, ".OME.TIFF", ".ome.tiff");
    LowerExtension(stem, ".ome.tif", ".ome.tif");
    LowerExtension(stem, ".OME.TIF", ".ome.tif");
  }

  /** A name whose last character is not `f` or `F` is never an OME-TIFF. */
  lemma NotOmeTiffEnding(path: string)
    requires path != [] && LowerChar(path[|path| - 1]) != 'f'
    ensures !IsOmeTiff(path)
  {
    var l := Lower(path);
    assert l[|l| - 1] != 'f';
  }

  lemma OmeTiffStem(stem: string)
    requires IsOmeTiff(stem + ".tiff")
    ensures EndsWith(Lower(stem), ".ome")
  {
    var l := Lower(stem + ".tiff");
    var ls := Lower(stem);
    var n := |stem|;
    assert l[n + 3] == 'f';
    forall k | 0 <= k < 4
      ensures ls[n - 4 + k] == ".ome"[k]
    {
      assert ls[n - 4 + k] == l[n - 4 + k];
      assert l[n - 4 + k] == l[|l| - 9..][k];
    }
    assert ls[n - 4..] == ".ome";
  }

  lemma OmeStemTiff(stem: string)
    requires EndsWith(Lower(stem), ".ome")
    ensures IsOmeTiff(stem + ".tiff")
  {
    var l := Lower(stem + ".tiff");
    var ls := Lower(stem);
    var n := |stem|;
    forall k | 0 <= k < 9
      ensures l[n - 4 + k] == ".ome.tiff"[k]
    {
      if k < 4 {
        assert ls[n - 4 + k] == ls[n - 4..][k];
      }
    }
    assert l[|l| - 9..] == ".ome.tiff";
  }

  /** A `.tiff` name is an OME-TIFF exactly when its stem ends in `.ome`, in
      any case. */
  lemma TiffName(stem: string)
    ensures IsOmeTiff(stem + ".tiff") <==> EndsWith(Lower(stem), ".ome")
  {
    if IsOmeTiff(stem + ".tiff") {
      OmeTiffStem(stem);
    }
    if EndsWith(Lower(stem), ".ome") {
      OmeStemTiff(stem);
    }
  }

  /** The other names the test suite checks (`test.svs`, `image.ndpi`,
      `slide.mrxs`, and `sample.tiff`, whose stem does not end in `.ome`) are
      not OME-TIFFs. */
  lemma OtherNames(stem: string)
    ensures !IsOmeTiff(stem + ".svs") && !IsOmeTiff(stem + ".ndpi") && !IsOmeTiff(stem + ".mrxs")
    ensures !EndsWith(Lower(stem), ".ome") ==> !IsOmeTiff(stem + ".tiff")
  {
    NotOmeTiffEnding(stem + ".svs");
    NotOmeTiffEnding(stem + ".ndpi");
    NotOmeTiffEnding(stem + ".mrxs");
    TiffName(stem);
  }
}
