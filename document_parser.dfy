/**
 * The parser service's older `DocumentParser.parse_and_get_images`: the same
 * `## Page N` / `## Slide N` markdown with placeholder lines, but every
 * failure (an image that will not open, a crop that will not save)
 * propagates, DOCX images over 150 pixels are kept and named by the number
 * of images listed so far, and slides give all their shape texts and no
 * images.  The helpers append to the caller's image list in place.  Its
 * layout detector (`PubLayNetDetector`) is not part of this model: what it
 * detects on a page is an input `detect`.
 */
module LegacyParser {
  import opened Wrappers
  import opened Strings
  import Detector
  import P = Parser

  datatype LegacyError = UnsupportedFormat(ext: string) | LibraryFailed(message: string) | SaveFailed(path: string)

  /** The list the helpers extend: `img_list`. */
  class PathList {
    var items: seq<string>

    constructor()
      ensures items == []
    {
      items := [];
    }

    method Append(p: string)
      modifies this
      ensures items == old(items) + [p]
    {
      items := items + [p];
    }

    method Extend(ps: seq<string>)
      modifies this
      ensures items == old(items) + ps
    {
      items := items + ps;
    }
  }

  // -------------------------------------------------------------- the crops

  /**
   * `_process_visuals` for `n` boxes: every crop saved, in box order, or the
   * first save that failed.
   */
  function LegacyCrops(dir: string, prefix: string, n: nat, written: string -> bool): (r: Result<seq<string>, LegacyError>)
    ensures r.Err? ==> r.error.SaveFailed?
  {
    if n == 0 then Ok([])
    else
      var r := LegacyCrops(dir, prefix, n - 1, written);
      var p := P.CropPath(dir, prefix, n - 1);
      if r.Err? then r
      else if written(p) then Ok(r.value + [p])
      else Err(SaveFailed(p))
  }

  /**
   * The crops succeed exactly when every save does, and then they are all
   * the boxes' crops in box order; otherwise the error names the first crop
   * that could not be saved.
   */
  lemma {:induction false} LegacyCropsAllOrNothing(dir: string, prefix: string, n: nat, written: string -> bool)
    ensures LegacyCrops(dir, prefix, n, written).Ok? <==> forall i :: 0 <= i < n ==> written(P.CropPath(dir, prefix, i))
    ensures LegacyCrops(dir, prefix, n, written).Ok? ==>
              |LegacyCrops(dir, prefix, n, written).value| == n
              && forall k :: 0 <= k < n ==> LegacyCrops(dir, prefix, n, written).value[k] == P.CropPath(dir, prefix, k)
    ensures LegacyCrops(dir, prefix, n, written).Err? ==>
              (exists i :: 0 <= i < n && !written(P.CropPath(dir, prefix, i))
                 && LegacyCrops(dir, prefix, n, written).error == SaveFailed(P.CropPath(dir, prefix, i))
                 && forall j :: 0 <= j < i ==> written(P.CropPath(dir, prefix, j)))
  {
    if n > 0 {
      LegacyCropsAllOrNothing(dir, prefix, n - 1, written);
    }
  }

  /** When every save succeeds the older parser saves the same crops as the current one. */
  lemma {:induction false} LegacyCropsAgree(dir: string, prefix: string, n: nat, written: string -> bool)
    requires forall i :: 0 <= i < n ==> written(P.CropPath(dir, prefix, i))
    ensures LegacyCrops(dir, prefix, n, written) == Ok(P.SavedCrops(dir, prefix, n, written))
  {
    if n > 0 {
      LegacyCropsAgree(dir, prefix, n - 1, written);
    }
  }

  // ----------------------------------------------------------------- a PDF

  /** The crops of `n` boxes, all saved. */
  function AllCrops(dir: string, prefix: string, n: nat): (ps: seq<string>)
    ensures |ps| == n
  {
    if n == 0 then [] else AllCrops(dir, prefix, n - 1) + [P.CropPath(dir, prefix, n - 1)]
  }

  lemma {:induction false} LegacyCropsOk(dir: string, prefix: string, n: nat, written: string -> bool)
    ensures LegacyCrops(dir, prefix, n, written).Ok? ==> LegacyCrops(dir, prefix, n, written).value == AllCrops(dir, prefix, n)
  {
    if n > 0 {
      LegacyCropsOk(dir, prefix, n - 1, written);
    }
  }

  /** Page `i` once its crops are saved: its heading and text, then a placeholder per crop. */
  function PageAssembly(i: nat, page: P.PdfPage, crops: seq<string>): P.Assembly {
    P.Assembly([P.PageHeader(i, page.text)] + P.PlaceholderLines(crops), crops)
  }

  /** The crop count the detector gives page `i`, and its crops' prefix. */
  function PageBoxes(page: P.PdfPage, detect: Detector.PageImage -> seq<Detector.Box>): nat {
    |detect(page.render)|
  }

  /** The first page whose crops could not all be saved, as its error. */
  function PdfFailure(pages: seq<P.PdfPage>, detect: Detector.PageImage -> seq<Detector.Box>, dir: string, written: string -> bool): (f: Option<LegacyError>)
    ensures f.Some? ==> f.value.SaveFailed?
  {
    if pages == [] then None
    else
      var i := |pages| - 1;
      var f := PdfFailure(pages[..i], detect, dir, written);
      var crops := LegacyCrops(dir, P.PagePrefix(i), PageBoxes(pages[i], detect), written);
      if f.Some? then f else if crops.Err? then Some(crops.error) else None
  }

  /** The pages' headings, texts and placeholders when every crop was saved. */
  function LegacyPdfPages(pages: seq<P.PdfPage>, detect: Detector.PageImage -> seq<Detector.Box>, dir: string): P.Assembly {
    if pages == [] then P.Assembly([], [])
    else
      var i := |pages| - 1;
      P.Cat(LegacyPdfPages(pages[..i], detect, dir), PageAssembly(i, pages[i], AllCrops(dir, P.PagePrefix(i), PageBoxes(pages[i], detect))))
  }

  /** `_extract_from_pdf` over the pages, with `detect` giving the detector's boxes for a rendered page. */
  function LegacyPdf(pages: seq<P.PdfPage>, detect: Detector.PageImage -> seq<Detector.Box>, dir: string, written: string -> bool): (r: Result<P.Assembly, LegacyError>)
    ensures r.Err? ==> r.error.SaveFailed?
  {
    var f := PdfFailure(pages, detect, dir, written);
    if f.Some? then Err(f.value) else Ok(LegacyPdfPages(pages, detect, dir))
  }

  /** A failure ends the document: later pages change nothing. */
  lemma {:induction false} PdfFailurePersists(pages: seq<P.PdfPage>, j: nat, detect: Detector.PageImage -> seq<Detector.Box>, dir: string, written: string -> bool)
    requires j <= |pages| && PdfFailure(pages[..j], detect, dir, written).Some?
    ensures PdfFailure(pages, detect, dir, written) == PdfFailure(pages[..j], detect, dir, written)
    decreases |pages| - j
  {
    if j < |pages| {
      assert pages[..j + 1][..j] == pages[..j];
      PdfFailurePersists(pages, j + 1, detect, dir, written);
    } else {
      assert pages[..j] == pages;
    }
  }

  lemma LegacyPdfSnoc(pages: seq<P.PdfPage>, i: nat, detect: Detector.PageImage -> seq<Detector.Box>, dir: string, written: string -> bool,
                      acc: P.Assembly, header: string, crops: seq<string>, lines: seq<string>)
    requires i < |pages| && PdfFailure(pages[..i], detect, dir, written).None? && LegacyPdfPages(pages[..i], detect, dir) == acc
    requires LegacyCrops(dir, P.PagePrefix(i), PageBoxes(pages[i], detect), written) == Ok(crops)
    requires header == P.PageHeader(i, pages[i].text) && lines == P.PlaceholderLines(crops)
    ensures PdfFailure(pages[..i + 1], detect, dir, written).None?
    ensures LegacyPdfPages(pages[..i + 1], detect, dir) == P.Assembly(acc.pieces + [header] + lines, acc.images + crops)
  {
    assert pages[..i + 1][..i] == pages[..i];
    LegacyCropsOk(dir, P.PagePrefix(i), PageBoxes(pages[i], detect), written);
    P.CatParts(acc, PageAssembly(i, pages[i], crops), [header], lines, crops);
  }

  /** A page whose crops fail ends the document with that failure. */
  lemma LegacyPdfStopsAt(pages: seq<P.PdfPage>, i: nat, detect: Detector.PageImage -> seq<Detector.Box>, dir: string, written: string -> bool)
    requires i < |pages| && PdfFailure(pages[..i], detect, dir, written).None?
    requires LegacyCrops(dir, P.PagePrefix(i), PageBoxes(pages[i], detect), written).Err?
    ensures LegacyPdf(pages, detect, dir, written) == Err(LegacyCrops(dir, P.PagePrefix(i), PageBoxes(pages[i], detect), written).error)
  {
    assert pages[..i + 1][..i] == pages[..i];
    PdfFailurePersists(pages, i + 1, detect, dir, written);
  }

  /** Page `k`'s crops were all saved. */
  predicate PageSaved(page: P.PdfPage, k: nat, detect: Detector.PageImage -> seq<Detector.Box>, dir: string, written: string -> bool) {
    LegacyCrops(dir, P.PagePrefix(k), PageBoxes(page, detect), written).Ok?
  }

  /** No page fails exactly when every page's crops are saved. */
  lemma {:induction false} PdfFailureNone(pages: seq<P.PdfPage>, detect: Detector.PageImage -> seq<Detector.Box>, dir: string, written: string -> bool)
    ensures PdfFailure(pages, detect, dir, written).None? <==> forall k :: 0 <= k < |pages| ==> PageSaved(pages[k], k, detect, dir, written)
  {
    if pages != [] {
      var i := |pages| - 1;
      var front := pages[..i];
      PdfFailureNone(front, detect, dir, written);
      assert forall k :: 0 <= k < i ==> front[k] == pages[k];
    }
  }

  /** A PDF succeeds exactly when every page's crops are saved. */
  lemma LegacyPdfSucceeds(pages: seq<P.PdfPage>, detect: Detector.PageImage -> seq<Detector.Box>, dir: string, written: string -> bool)
    ensures LegacyPdf(pages, detect, dir, written).Ok? <==> forall k :: 0 <= k < |pages| ==> PageSaved(pages[k], k, detect, dir, written)
  {
    PdfFailureNone(pages, detect, dir, written);
  }

  /** With every save succeeding, the older parser's crops are the current parser's. */
  lemma {:induction false} AllCropsSaved(dir: string, prefix: string, n: nat, written: string -> bool)
    requires forall p :: written(p)
    ensures P.SavedCrops(dir, prefix, n, written) == AllCrops(dir, prefix, n)
  {
    if n > 0 {
      AllCropsSaved(dir, prefix, n - 1, written);
    }
  }

  /** With the same detections and no failed save, each page is assembled as the current parser assembles it. */
  lemma {:induction false} LegacyPdfPagesAgree(pages: seq<P.PdfPage>, loaded: bool, detect: Detector.PageImage -> seq<Detector.Box>, dir: string, written: string -> bool)
    requires forall k :: 0 <= k < |pages| ==> detect(pages[k].render) == Detector.Detection(loaded, pages[k].render)
    requires forall p :: written(p)
    ensures LegacyPdfPages(pages, detect, dir) == P.PdfAssembly(pages, loaded, dir, written)
  {
    if pages != [] {
      var i := |pages| - 1;
      LegacyPdfPagesAgree(pages[..i], loaded, detect, dir, written);
      AllCropsSaved(dir, P.PagePrefix(i), PageBoxes(pages[i], detect), written);
    }
  }

  /**
   * With the same detections and no failed save, the older parser assembles
   * a PDF exactly as the current one does.
   */
  lemma LegacyPdfAgrees(pages: seq<P.PdfPage>, loaded: bool, detect: Detector.PageImage -> seq<Detector.Box>, dir: string, written: string -> bool)
    requires forall k :: 0 <= k < |pages| ==> detect(pages[k].render) == Detector.Detection(loaded, pages[k].render)
    requires forall p :: written(p)
    ensures LegacyPdf(pages, detect, dir, written) == Ok(P.PdfAssembly(pages, loaded, dir, written))
  {
    forall k | 0 <= k < |pages| ensures PageSaved(pages[k], k, detect, dir, written) {
      LegacyCropsAllOrNothing(dir, P.PagePrefix(k), PageBoxes(pages[k], detect), written);
    }
    PdfFailureNone(pages, detect, dir, written);
    LegacyPdfPagesAgree(pages, loaded, detect, dir, written);
  }

  // ----------------------------------------------------------------- a DOCX

  const MinLegacyDocxSide := 150

  /** `f"docx_img_{len(img_list)}.png"` */
  function LegacyDocxName(n: nat): string {
    "docx_img_" + NatToString(n) + ".png"
  }

  /**
   * One relationship, when `start` paths were listed before the DOCX was
   * read: an image reference whose image does not open fails the document;
   * one over 150 pixels each way is saved under the list's current length,
   * or fails the document when the save fails.
   */
  function LegacyDocxStep(acc: P.Assembly, rel: P.Rel, dir: string, start: nat, written: string -> bool): Result<P.Assembly, LegacyError> {
    if !Strings.Contains(rel.targetRef, "image") then Ok(acc)
    else if rel.image.Err? then Err(LibraryFailed(rel.image.error))
    else if rel.image.value.width > MinLegacyDocxSide && rel.image.value.height > MinLegacyDocxSide then
      var path := PathJoin(dir, LegacyDocxName(start + |acc.images|));
      if written(path) then Ok(SavedNext(acc, dir, start))
      else Err(SaveFailed(path))
    else Ok(acc)
  }

  /** `acc` with the next image saved under the list's length, and its placeholder. */
  function SavedNext(acc: P.Assembly, dir: string, start: nat): P.Assembly {
    var fname := LegacyDocxName(start + |acc.images|);
    P.Assembly(acc.pieces + [P.PlaceholderLine(fname)], acc.images + [PathJoin(dir, fname)])
  }

  function LegacyDocx(rels: seq<P.Rel>, dir: string, start: nat, written: string -> bool): (r: Result<P.Assembly, LegacyError>)
    ensures r.Err? ==> !r.error.UnsupportedFormat?
  {
    if rels == [] then Ok(P.Assembly([], []))
    else
      var r := LegacyDocx(rels[..|rels| - 1], dir, start, written);
      if r.Err? then r else LegacyDocxStep(r.value, rels[|rels| - 1], dir, start, written)
  }

  /** The DOCX images are named by their place in the caller's list, with no gap, each with the placeholder of its own name. */
  predicate NamedFrom(a: P.Assembly, dir: string, start: nat) {
    && |a.pieces| == |a.images|
    && (forall k :: 0 <= k < |a.images| ==> a.images[k] == PathJoin(dir, LegacyDocxName(start + k)))
    && (forall k :: 0 <= k < |a.pieces| ==> a.pieces[k] == P.PlaceholderLine(LegacyDocxName(start + k)))
  }

  lemma LegacyDocxStepNamed(acc: P.Assembly, rel: P.Rel, dir: string, start: nat, written: string -> bool)
    requires NamedFrom(acc, dir, start)
    ensures LegacyDocxStep(acc, rel, dir, start, written).Ok? ==> NamedFrom(LegacyDocxStep(acc, rel, dir, start, written).value, dir, start)
  {
    NamedFromSnoc(acc, dir, start);
  }

  /** Saving the next image under the list's length keeps the naming. */
  lemma NamedFromSnoc(acc: P.Assembly, dir: string, start: nat)
    requires NamedFrom(acc, dir, start)
    ensures NamedFrom(SavedNext(acc, dir, start), dir, start)
  {
    var next := SavedNext(acc, dir, start);
    forall k | 0 <= k < |next.images| ensures next.images[k] == PathJoin(dir, LegacyDocxName(start + k)) {
      if k < |acc.images| { assert next.images[k] == acc.images[k]; }
    }
    forall k | 0 <= k < |next.pieces| ensures next.pieces[k] == P.PlaceholderLine(LegacyDocxName(start + k)) {
      if k < |acc.pieces| { assert next.pieces[k] == acc.pieces[k]; }
    }
  }

  lemma {:induction false} LegacyDocxNamed(rels: seq<P.Rel>, dir: string, start: nat, written: string -> bool)
    ensures LegacyDocx(rels, dir, start, written).Ok? ==> NamedFrom(LegacyDocx(rels, dir, start, written).value, dir, start)
  {
    if rels != [] {
      var front := rels[..|rels| - 1];
      LegacyDocxNamed(front, dir, start, written);
      if LegacyDocx(front, dir, start, written).Ok? {
        LegacyDocxStepNamed(LegacyDocx(front, dir, start, written).value, rels[|rels| - 1], dir, start, written);
      }
    }
  }

  /** An image reference whose image does not open fails the whole document. */
  lemma {:induction false} LegacyDocxUnreadableFails(rels: seq<P.Rel>, dir: string, start: nat, written: string -> bool, k: nat)
    requires k < |rels| && Strings.Contains(rels[k].targetRef, "image") && rels[k].image.Err?
    ensures LegacyDocx(rels, dir, start, written).Err?
  {
    var front := rels[..|rels| - 1];
    if k < |front| {
      assert front[k] == rels[k];
      LegacyDocxUnreadableFails(front, dir, start, written, k);
    }
  }

  // ----------------------------------------------------------------- a PPTX

  /** Every shape that has a `text` attribute, blank or not. */
  function AllTexts(shapes: seq<P.Shape>): seq<string> {
    if shapes == [] then []
    else
      var s := shapes[|shapes| - 1];
      AllTexts(shapes[..|shapes| - 1]) + (if s.text.Some? then [s.text.value] else [])
  }

  /** `_extract_from_pptx`: each slide's heading and all its shape texts. */
  function LegacyPptx(slides: seq<P.Slide>): seq<string> {
    if slides == [] then []
    else
      var i := |slides| - 1;
      LegacyPptx(slides[..i]) + [P.SlideHeader(i)] + AllTexts(slides[i].shapes)
  }

  /** A text, if `keep` holds of it. */
  function KeepIf(t: string, keep: string -> bool): seq<string> {
    if keep(t) then [t] else []
  }

  /** The texts `keep` holds of, in order. */
  function Filter(ts: seq<string>, keep: string -> bool): seq<string> {
    if ts == [] then [] else Filter(ts[..|ts| - 1], keep) + KeepIf(ts[|ts| - 1], keep)
  }

  lemma {:induction false} FilterAppend(a: seq<string>, b: seq<string>, keep: string -> bool)
    ensures Filter(a + b, keep) == Filter(a, keep) + Filter(b, keep)
    decreases |b|
  {
    if b == [] {
      assert a + b == a;
    } else {
      var b', last := b[..|b| - 1], b[|b| - 1];
      FilterAppend(a, b', keep);
      assert (a + b)[..|a + b| - 1] == a + b' && (a + b)[|a + b| - 1] == last;
    }
  }

  predicate NotBlank(t: string) {
    !IsBlank(t)
  }

  /** The current parser keeps exactly the older one's slide texts that are not blank. */
  lemma {:induction false} CurrentDropsBlankTexts(shapes: seq<P.Shape>)
    ensures P.ShapeTexts(shapes) == Filter(AllTexts(shapes), NotBlank)
  {
    if shapes != [] {
      var front, s := shapes[..|shapes| - 1], shapes[|shapes| - 1];
      CurrentDropsBlankTexts(front);
      var t := if s.text.Some? then [s.text.value] else [];
      FilterAppend(AllTexts(front), t, NotBlank);
      if s.text.Some? {
        assert [s.text.value][..0] == [];
        assert Filter([s.text.value], NotBlank) == KeepIf(s.text.value, NotBlank);
      }
    }
  }

  /** Each slide gives its heading and one piece per shape with text. */
  lemma {:induction false} LegacyPptxCount(slides: seq<P.Slide>)
    ensures |LegacyPptx(slides)| == |slides| + SumTexts(slides)
  {
    if slides != [] {
      LegacyPptxCount(slides[..|slides| - 1]);
    }
  }

  function SumTexts(slides: seq<P.Slide>): nat {
    if slides == [] then 0 else SumTexts(slides[..|slides| - 1]) + |AllTexts(slides[|slides| - 1].shapes)|
  }

  // --------------------------------------------------------------- dispatch

  function LegacyParsePdf(file: P.SourceFile, detect: Detector.PageImage -> seq<Detector.Box>, dir: string, written: string -> bool): Result<P.Parsed, LegacyError> {
    match file.pdf
    case Err(m) => Err(LibraryFailed(m))
    case Ok(pages) =>
      match LegacyPdf(pages, detect, dir, written)
      case Err(e) => Err(e)
      case Ok(a) => Ok(P.Parsed(Join("\n", a.pieces), a.images))
  }

  function LegacyParseDocx(file: P.SourceFile, dir: string, written: string -> bool): Result<P.Parsed, LegacyError> {
    match file.docx
    case Err(m) => Err(LibraryFailed(m))
    case Ok(d) =>
      match LegacyDocx(d.rels, dir, 0, written)
      case Err(e) => Err(e)
      case Ok(a) => Ok(P.Parsed(Join("\n", d.paragraphs + a.pieces), a.images))
  }

  function LegacyParsePptx(file: P.SourceFile): Result<P.Parsed, LegacyError> {
    match file.pptx
    case Err(m) => Err(LibraryFailed(m))
    case Ok(slides) => Ok(P.Parsed(Join("\n", LegacyPptx(slides)), []))
  }

  /** What `parse_and_get_images` returns, once its asset directory is `dir`. */
  function LegacyParse(ext: string, file: P.SourceFile, detect: Detector.PageImage -> seq<Detector.Box>, dir: string, written: string -> bool): Result<P.Parsed, LegacyError> {
    if ext == ".pdf" then LegacyParsePdf(file, detect, dir, written)
    else if ext == ".docx" then LegacyParseDocx(file, dir, written)
    else if ext == ".pptx" then LegacyParsePptx(file)
    else Err(UnsupportedFormat(ext))
  }

  /**
   * An extension other than .pdf, .docx or .pptx is refused; a PPTX never
   * yields images; a DOCX's images are numbered from 0.
   */
  lemma LegacyParseShape(ext: string, file: P.SourceFile, detect: Detector.PageImage -> seq<Detector.Box>, dir: string, written: string -> bool)
    ensures var r := LegacyParse(ext, file, detect, dir, written);
            && (r == Err(UnsupportedFormat(ext)) <==> ext != ".pdf" && ext != ".docx" && ext != ".pptx")
            && (ext == ".pptx" ==> (r.Ok? <==> file.pptx.Ok?) && (r.Ok? ==> r.value.images == []))
            && (ext == ".docx" && r.Ok? ==> forall k :: 0 <= k < |r.value.images| ==> r.value.images[k] == PathJoin(dir, LegacyDocxName(k)))
  {
    if ext == ".docx" && file.docx.Ok? {
      LegacyDocxNamed(file.docx.value.rels, dir, 0, written);
    }
  }

  class LegacyDocumentParser {
    const outputDir: string

    constructor(outputDir: string)
      ensures this.outputDir == outputDir
    {
      this.outputDir := outputDir;
    }

    /** `parse_and_get_images(file_path)`: no existence check; the extension picks the extractor, which fills a fresh image list. */
    method ParseAndGetImages(filePath: string, file: P.SourceFile, detect: Detector.PageImage -> seq<Detector.Box>, written: string -> bool)
      returns (r: Result<P.Parsed, LegacyError>)
      ensures r == LegacyParse(P.Extension(filePath), file, detect, PathJoin(outputDir, P.Stem(filePath)), written)
    {
      var fileExt := Lower(Splitext(filePath).1);
      var fileOutputDir := PathJoin(outputDir, Splitext(Basename(filePath)).0);
      var extractedImages := new PathList();
      if fileExt == ".pdf" {
        if file.pdf.Err? {
          return Err(LibraryFailed(file.pdf.error));
        }
        var text := ExtractFromPdf(file.pdf.value, fileOutputDir, extractedImages, detect, written);
        if text.Err? {
          return Err(text.error);
        }
        AppendToEmpty(LegacyPdf(file.pdf.value, detect, fileOutputDir, written).value.images);
        r := Ok(P.Parsed(text.value, extractedImages.items));
      } else if fileExt == ".docx" {
        if file.docx.Err? {
          return Err(LibraryFailed(file.docx.error));
        }
        var text := ExtractFromDocx(file.docx.value, fileOutputDir, extractedImages, written);
        if text.Err? {
          return Err(text.error);
        }
        AppendToEmpty(LegacyDocx(file.docx.value.rels, fileOutputDir, 0, written).value.images);
        r := Ok(P.Parsed(text.value, extractedImages.items));
      } else if fileExt == ".pptx" {
        if file.pptx.Err? {
          return Err(LibraryFailed(file.pptx.error));
        }
        var text := ExtractFromPptx(file.pptx.value);
        r := Ok(P.Parsed(text, extractedImages.items));
      } else {
        r := Err(UnsupportedFormat(fileExt));
      }
    }

    /**
     * `_extract_from_pdf`: on success the text, with the pages' crops
     * appended to `imgList`; on failure the list holds whatever was
     * appended before it, which the caller discards.
     */
    method ExtractFromPdf(pages: seq<P.PdfPage>, dir: string, imgList: PathList, detect: Detector.PageImage -> seq<Detector.Box>, written: string -> bool)
      returns (r: Result<string, LegacyError>)
      modifies imgList
      ensures var spec := LegacyPdf(pages, detect, dir, written);
              && (r.Ok? <==> spec.Ok?)
              && (r.Err? ==> r.error == spec.error)
              && (r.Ok? ==> r.value == Join("\n", spec.value.pieces) && imgList.items == old(imgList.items) + spec.value.images)
    {
      var fullText: seq<string> := [];
      ghost var added: seq<string> := [];
      for i := 0 to |pages|
        invariant PdfFailure(pages[..i], detect, dir, written).None? && LegacyPdfPages(pages[..i], detect, dir) == P.Assembly(fullText, added)
        invariant imgList.items == old(imgList.items) + added
      {
        ghost var acc := P.Assembly(fullText, added);
        var header := "## Page " + NatToString(i + 1) + "\n" + pages[i].text;
        fullText := fullText + [header];
        var crops := ProcessVisuals(pages[i].render, "page" + NatToString(i + 1), dir, detect, written);
        if crops.Err? {
          LegacyPdfStopsAt(pages, i, detect, dir, written);
          return Err(crops.error);
        }
        imgList.Extend(crops.value);
        var lines := PlaceholderLinesOf(crops.value);
        LegacyPdfSnoc(pages, i, detect, dir, written, acc, header, crops.value, lines);
        AppendAssoc(old(imgList.items), added, crops.value);
        added := added + crops.value;
        fullText := fullText + lines;
      }
      assert pages[..|pages|] == pages;
      r := Ok(Join("\n", fullText));
    }

    /** The placeholder lines of saved crops, in order. */
    method PlaceholderLinesOf(crops: seq<string>) returns (lines: seq<string>)
      ensures lines == P.PlaceholderLines(crops)
    {
      lines := [];
      for j := 0 to |crops|
        invariant lines == P.PlaceholderLines(crops[..j])
      {
        assert crops[..j + 1][..j] == crops[..j];
        var filename := Basename(crops[j]);
        lines := lines + [P.PlaceholderLine(filename)];
      }
      assert crops[..|crops|] == crops;
    }

    /**
     * `_extract_from_docx`: the paragraphs, then a placeholder per saved
     * image, joined by newlines; each image is named by the list's length
     * when it is saved.
     */
    method ExtractFromDocx(doc: P.DocxContent, dir: string, imgList: PathList, written: string -> bool)
      returns (r: Result<string, LegacyError>)
      modifies imgList
      ensures var spec := LegacyDocx(doc.rels, dir, |old(imgList.items)|, written);
              && (r.Ok? <==> spec.Ok?)
              && (r.Err? ==> r.error == spec.error)
              && (r.Ok? ==> r.value == Join("\n", doc.paragraphs + spec.value.pieces) && imgList.items == old(imgList.items) + spec.value.images)
    {
      ghost var start := |imgList.items|;
      var fullText := doc.paragraphs;
      ghost var pieces: seq<string> := [];
      ghost var added: seq<string> := [];
      var rels := doc.rels;
      for i := 0 to |rels|
        invariant LegacyDocx(rels[..i], dir, start, written) == Ok(P.Assembly(pieces, added))
        invariant imgList.items == old(imgList.items) + added && fullText == doc.paragraphs + pieces
      {
        LegacyDocxSnoc(rels, i, dir, start, written);
        var rel := rels[i];
        if Strings.Contains(rel.targetRef, "image") {
          if rel.image.Err? {
            LegacyDocxErrorPersists(rels, i + 1, dir, start, written);
            return Err(LibraryFailed(rel.image.error));
          }
          var img := rel.image.value;
          if img.width > 150 && img.height > 150 {
            var fname := "docx_img_" + NatToString(|imgList.items|) + ".png";
            var savePath := PathJoin(dir, fname);
            if !written(savePath) {
              LegacyDocxErrorPersists(rels, i + 1, dir, start, written);
              return Err(SaveFailed(savePath));
            }
            imgList.Append(savePath);
            AppendAssoc(old(imgList.items), added, [savePath]);
            AppendAssoc(doc.paragraphs, pieces, [P.PlaceholderLine(fname)]);
            added := added + [savePath];
            fullText := fullText + [P.PlaceholderLine(fname)];
            pieces := pieces + [P.PlaceholderLine(fname)];
          }
        }
      }
      assert rels[..|rels|] == rels;
      r := Ok(Join("\n", fullText));
    }

    /** `_extract_from_pptx`: every slide's heading and every shape text, joined by newlines. */
    method ExtractFromPptx(slides: seq<P.Slide>) returns (text: string)
      ensures text == Join("\n", LegacyPptx(slides))
    {
      var fullText: seq<string> := [];
      for i := 0 to |slides|
        invariant fullText == LegacyPptx(slides[..i])
      {
        assert slides[..i + 1][..i] == slides[..i];
        ghost var before := fullText;
        fullText := fullText + ["## Slide " + NatToString(i + 1)];
        var shapes := slides[i].shapes;
        for j := 0 to |shapes|
          invariant fullText == before + [P.SlideHeader(i)] + AllTexts(shapes[..j])
        {
          assert shapes[..j + 1][..j] == shapes[..j];
          if shapes[j].text.Some? {
            fullText := fullText + [shapes[j].text.value];
          }
        }
        assert shapes[..|shapes|] == shapes;
      }
      assert slides[..|slides|] == slides;
      text := Join("\n", fullText);
    }

    /** `_process_visuals`: every box's crop saved under its number, or the first failed save. */
    method ProcessVisuals(pageImage: Detector.PageImage, prefix: string, dir: string, detect: Detector.PageImage -> seq<Detector.Box>, written: string -> bool)
      returns (r: Result<seq<string>, LegacyError>)
      ensures r == LegacyCrops(dir, prefix, |detect(pageImage)|, written)
    {
      var bboxes := detect(pageImage);
      var savedPaths: seq<string> := [];
      for i := 0 to |bboxes|
        invariant LegacyCrops(dir, prefix, i, written) == Ok(savedPaths)
      {
        var fname := prefix + "_visual_" + NatToString(i + 1) + ".png";
        var path := PathJoin(dir, fname);
        if !written(path) {
          LegacyCropsErrorPersists(dir, prefix, i + 1, |bboxes|, written);
          return Err(SaveFailed(path));
        }
        savedPaths := savedPaths + [path];
      }
      r := Ok(savedPaths);
    }
  }

  /**
   * Regrouping a concatenation, stated once so that the loops above take it
   * as a fact instead of proving it in their own large contexts.
   */
  lemma AppendAssoc(a: seq<string>, b: seq<string>, c: seq<string>)
    ensures a + b + c == a + (b + c)
  {
  }

  lemma AppendToEmpty(a: seq<string>)
    ensures [] + a == a
  {
  }

  lemma {:induction false} LegacyCropsErrorPersists(dir: string, prefix: string, j: nat, n: nat, written: string -> bool)
    requires j <= n && LegacyCrops(dir, prefix, j, written).Err?
    ensures LegacyCrops(dir, prefix, n, written) == LegacyCrops(dir, prefix, j, written)
    decreases n - j
  {
    if j < n {
      LegacyCropsErrorPersists(dir, prefix, j + 1, n, written);
    }
  }

  lemma LegacyDocxSnoc(rels: seq<P.Rel>, i: nat, dir: string, start: nat, written: string -> bool)
    requires i < |rels| && LegacyDocx(rels[..i], dir, start, written).Ok?
    ensures LegacyDocx(rels[..i + 1], dir, start, written) == LegacyDocxStep(LegacyDocx(rels[..i], dir, start, written).value, rels[i], dir, start, written)
  {
    assert rels[..i + 1][..i] == rels[..i];
  }

  lemma {:induction false} LegacyDocxErrorPersists(rels: seq<P.Rel>, j: nat, dir: string, start: nat, written: string -> bool)
    requires j <= |rels| && LegacyDocx(rels[..j], dir, start, written).Err?
    ensures LegacyDocx(rels, dir, start, written) == LegacyDocx(rels[..j], dir, start, written)
    decreases |rels| - j
  {
    if j < |rels| {
      assert rels[..j + 1][..j] == rels[..j];
      LegacyDocxErrorPersists(rels, j + 1, dir, start, written);
    } else {
      assert rels[..j] == rels;
    }
  }
}
