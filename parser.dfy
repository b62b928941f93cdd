/**
 * The parser service's `DocumentParser`: a PDF, DOCX or PPTX file becomes
 * markdown text with `## Page N` / `## Slide N` headings and a
 * `[CHART_PLACEHOLDER:name]` line for every visual it saved, plus the list
 * of saved image paths in the same order.  What PyMuPDF, python-docx,
 * python-pptx, PIL and LibreOffice read from the file is an input
 * (`SourceFile`), and so is whether writing an image to a path succeeds.
 */
module Parser {
  import opened Wrappers
  import opened Strings
  import opened Detector
  import Indexing

  /** One PDF page: its text, and the page rendered at twice its size for detection. */
  datatype PdfPage = PdfPage(text: string, render: PageImage)

  datatype ImageSize = ImageSize(width: int, height: int)

  /** A relationship of a DOCX package: its target reference, and the image PIL opens from its blob, or the exception. */
  datatype Rel = Rel(targetRef: string, image: Result<ImageSize, string>)

  datatype DocxContent = DocxContent(paragraphs: seq<string>, rels: seq<Rel>)

  /** A slide shape: its `text`, or None when it has no such attribute. */
  datatype Shape = Shape(text: Option<string>)

  datatype Slide = Slide(shapes: seq<Shape>)

  /**
   * The file at the requested path: whether it exists, and what each library
   * reads from it (or the exception it raises).  `slideRenders` is the
   * LibreOffice conversion's pages; Err when the conversion failed or timed out.
   */
  datatype SourceFile = SourceFile(
    present: bool,
    pdf: Result<seq<PdfPage>, string>,
    docx: Result<DocxContent, string>,
    pptx: Result<seq<Slide>, string>,
    slideRenders: Result<seq<PageImage>, string>)

  /** The rendered slides, or none when the conversion failed. */
  function Rendered(file: SourceFile): seq<PageImage> {
    if file.slideRenders.Ok? then file.slideRenders.value else []
  }

  datatype ParseError = FileNotFound(path: string) | UnsupportedFormat(ext: string) | ReadFailed(message: string)

  /** `(markdown_text, list_of_image_paths)` */
  datatype Parsed = Parsed(text: string, images: seq<string>)

  // ------------------------------------------------------------- the pieces

  /** The line that stands for a saved visual. */
  function PlaceholderLine(fname: string): (l: string)
    ensures |l| >= 2 && l[0] == '\n' && l[1] == '['
  {
    "\n" + Indexing.Placeholder(fname) + "\n"
  }

  /** A piece that is a placeholder line: a newline and then `[`. */
  predicate IsPlaceholderLine(s: string) {
    |s| >= 2 && s[0] == '\n' && s[1] == '['
  }

  function PageHeader(i: nat, text: string): string {
    "## Page " + NatToString(i + 1) + "\n" + text
  }

  function SlideHeader(i: nat): string {
    "## Slide " + NatToString(i + 1)
  }

  /** `os.path.splitext(file_path)[1].lower()` */
  function Extension(path: string): string {
    Lower(Splitext(path).1)
  }

  /** `os.path.splitext(os.path.basename(file_path))[0]` */
  function Stem(path: string): string {
    Splitext(Basename(path)).0
  }

  // -------------------------------------------------------------- the crops

  /** `f"{prefix}_visual_{i+1}.png"` */
  function CropName(prefix: string, i: nat): string {
    prefix + "_visual_" + NatToString(i + 1) + ".png"
  }

  function CropPath(dir: string, prefix: string, i: nat): string {
    PathJoin(dir, CropName(prefix, i))
  }

  /** Box `i`'s crop, when its save succeeded. */
  function Crop(dir: string, prefix: string, i: nat, written: string -> bool): seq<string> {
    if written(CropPath(dir, prefix, i)) then [CropPath(dir, prefix, i)] else []
  }

  /** The paths `_process_visuals` returns for the first `n` boxes: those whose save succeeded. */
  function SavedCrops(dir: string, prefix: string, n: nat, written: string -> bool): (ps: seq<string>)
    ensures |ps| <= n
  {
    if n == 0 then [] else SavedCrops(dir, prefix, n - 1, written) + Crop(dir, prefix, n - 1, written)
  }

  /** Every returned crop was written, under the number of one of the boxes. */
  lemma {:induction false} SavedCropsSound(dir: string, prefix: string, n: nat, written: string -> bool, p: string)
    requires p in SavedCrops(dir, prefix, n, written)
    ensures written(p) && exists i :: 0 <= i < n && p == CropPath(dir, prefix, i)
  {
    if p !in SavedCrops(dir, prefix, n - 1, written) {
      assert p == CropPath(dir, prefix, n - 1);
    } else {
      SavedCropsSound(dir, prefix, n - 1, written, p);
    }
  }

  /** A failed save drops only its own crop: every box whose crop was written is returned, under its own number. */
  lemma {:induction false} SavedCropsComplete(dir: string, prefix: string, n: nat, written: string -> bool, i: nat)
    requires i < n && written(CropPath(dir, prefix, i))
    ensures CropPath(dir, prefix, i) in SavedCrops(dir, prefix, n, written)
  {
    if i < n - 1 {
      SavedCropsComplete(dir, prefix, n - 1, written, i);
    }
  }

  /** When every save succeeds there is one crop per box, in box order. */
  lemma {:induction false} SavedCropsAll(dir: string, prefix: string, n: nat, written: string -> bool)
    requires forall i :: 0 <= i < n ==> written(CropPath(dir, prefix, i))
    ensures |SavedCrops(dir, prefix, n, written)| == n
    ensures forall k :: 0 <= k < n ==> SavedCrops(dir, prefix, n, written)[k] == CropPath(dir, prefix, k)
  {
    if n > 0 {
      SavedCropsAll(dir, prefix, n - 1, written);
    }
  }

  /** The placeholder line for a saved image: its file name, not its path. */
  function PlaceholderFor(path: string): string {
    PlaceholderLine(Basename(path))
  }

  /** The placeholder lines for saved images, in image order. */
  function PlaceholderLines(paths: seq<string>): (ls: seq<string>)
    ensures |ls| == |paths|
  {
    if paths == [] then [] else PlaceholderLines(paths[..|paths| - 1]) + [PlaceholderFor(paths[|paths| - 1])]
  }

  lemma {:induction false} PlaceholderLinesAt(paths: seq<string>)
    ensures forall k :: 0 <= k < |paths| ==> PlaceholderLines(paths)[k] == PlaceholderFor(paths[k])
  {
    if paths != [] {
      PlaceholderLinesAt(paths[..|paths| - 1]);
    }
  }

  lemma PlaceholderLinesAppend(a: seq<string>, b: seq<string>)
    ensures PlaceholderLines(a + b) == PlaceholderLines(a) + PlaceholderLines(b)
  {
    PlaceholderLinesAt(a + b);
    PlaceholderLinesAt(a);
    PlaceholderLinesAt(b);
    var l, r := PlaceholderLines(a + b), PlaceholderLines(a) + PlaceholderLines(b);
    forall k | 0 <= k < |l| ensures l[k] == r[k] {
      if k >= |a| { assert (a + b)[k] == b[k - |a|]; }
    }
  }

  /** A piece that is a placeholder line, kept; any other, dropped. */
  function PlaceholderKept(s: string): seq<string> {
    if IsPlaceholderLine(s) then [s] else []
  }

  /** The placeholder lines among the pieces, in order. */
  function PlaceholdersIn(pieces: seq<string>): seq<string> {
    if pieces == [] then [] else PlaceholdersIn(pieces[..|pieces| - 1]) + PlaceholderKept(pieces[|pieces| - 1])
  }

  lemma {:induction false} PlaceholdersInAppend(a: seq<string>, b: seq<string>)
    ensures PlaceholdersIn(a + b) == PlaceholdersIn(a) + PlaceholdersIn(b)
    decreases |b|
  {
    if b == [] {
      assert a + b == a;
    } else {
      var b', last := b[..|b| - 1], b[|b| - 1];
      PlaceholdersInAppend(a, b');
      assert (a + b)[..|a + b| - 1] == a + b' && (a + b)[|a + b| - 1] == last;
      assert PlaceholdersIn(a + b) == PlaceholdersIn(a + b') + PlaceholderKept(last);
      assert PlaceholdersIn(b) == PlaceholdersIn(b') + PlaceholderKept(last);
    }
  }

  lemma {:induction false} PlaceholdersInLines(paths: seq<string>)
    ensures PlaceholdersIn(PlaceholderLines(paths)) == PlaceholderLines(paths)
  {
    if paths != [] {
      var front := paths[..|paths| - 1];
      PlaceholdersInLines(front);
      var line := PlaceholderFor(paths[|paths| - 1]);
      PlaceholdersInAppend(PlaceholderLines(front), [line]);
      assert [line][..0] == [];
    }
  }

  /** Pieces none of which is a placeholder line add none. */
  lemma {:induction false} PlaceholdersInNone(pieces: seq<string>)
    requires forall k :: 0 <= k < |pieces| ==> !IsPlaceholderLine(pieces[k])
    ensures PlaceholdersIn(pieces) == []
  {
    if pieces != [] {
      PlaceholdersInNone(pieces[..|pieces| - 1]);
    }
  }

  // ------------------------------------------------------------- assemblies

  /** The text pieces and the saved images of a document, in emission order. */
  datatype Assembly = Assembly(pieces: seq<string>, images: seq<string>)

  function Cat(a: Assembly, b: Assembly): Assembly {
    Assembly(a.pieces + b.pieces, a.images + b.images)
  }

  /** Appending a part's pieces and images to an assembly. */
  lemma CatParts(acc: Assembly, part: Assembly, heads: seq<string>, lines: seq<string>, crops: seq<string>)
    requires part == Assembly(heads + lines, crops)
    ensures Cat(acc, part) == Assembly(acc.pieces + heads + lines, acc.images + crops)
  {
    assert acc.pieces + heads + lines == acc.pieces + (heads + lines);
  }

  /** Each saved image has its placeholder among the pieces, in image order, and no other placeholder is there. */
  predicate Aligned(a: Assembly) {
    PlaceholdersIn(a.pieces) == PlaceholderLines(a.images)
  }

  lemma CatAligned(a: Assembly, b: Assembly)
    requires Aligned(a) && Aligned(b)
    ensures Aligned(Cat(a, b))
  {
    PlaceholdersInAppend(a.pieces, b.pieces);
    PlaceholderLinesAppend(a.images, b.images);
  }

  /** Heading pieces, none a placeholder line, followed by the placeholders of the crops, are aligned. */
  lemma HeadedAligned(heads: seq<string>, crops: seq<string>)
    requires forall k :: 0 <= k < |heads| ==> !IsPlaceholderLine(heads[k])
    ensures Aligned(Assembly(heads + PlaceholderLines(crops), crops))
  {
    PlaceholdersInNone(heads);
    PlaceholdersInAppend(heads, PlaceholderLines(crops));
    PlaceholdersInLines(crops);
  }

  lemma HeaderIsNotPlaceholder(i: nat, text: string)
    ensures !IsPlaceholderLine(PageHeader(i, text))
    ensures !IsPlaceholderLine(SlideHeader(i))
  {
    assert PageHeader(i, text)[0] == '#';
    assert SlideHeader(i)[0] == '#';
  }

  // ----------------------------------------------------------------- a PDF

  /** The crops `_process_visuals` saves for one rendered page. */
  function PageCrops(loaded: bool, dir: string, prefix: string, img: PageImage, written: string -> bool): seq<string> {
    SavedCrops(dir, prefix, |Detection(loaded, img)|, written)
  }

  function PagePrefix(i: nat): string { "page" + NatToString(i + 1) }

  /** Page `i`: its heading and text, then a placeholder per saved crop. */
  function PdfPageAssembly(i: nat, page: PdfPage, loaded: bool, dir: string, written: string -> bool): Assembly {
    var crops := PageCrops(loaded, dir, PagePrefix(i), page.render, written);
    Assembly([PageHeader(i, page.text)] + PlaceholderLines(crops), crops)
  }

  /** `_extract_from_pdf` over the pages. */
  function PdfAssembly(pages: seq<PdfPage>, loaded: bool, dir: string, written: string -> bool): Assembly {
    if pages == [] then Assembly([], [])
    else
      var i := |pages| - 1;
      Cat(PdfAssembly(pages[..i], loaded, dir, written), PdfPageAssembly(i, pages[i], loaded, dir, written))
  }

  lemma PdfAssemblySnoc(pages: seq<PdfPage>, i: nat, loaded: bool, dir: string, written: string -> bool)
    requires i < |pages|
    ensures PdfAssembly(pages[..i + 1], loaded, dir, written)
         == Cat(PdfAssembly(pages[..i], loaded, dir, written), PdfPageAssembly(i, pages[i], loaded, dir, written))
  {
    assert pages[..i + 1][..i] == pages[..i];
  }

  /** One round of the page loop extends the assembly by page `i`. */
  lemma PdfAssemblyStep(pages: seq<PdfPage>, i: nat, loaded: bool, dir: string, written: string -> bool,
                        acc: Assembly, header: string, crops: seq<string>, lines: seq<string>)
    requires i < |pages| && acc == PdfAssembly(pages[..i], loaded, dir, written)
    requires header == PageHeader(i, pages[i].text)
    requires crops == PageCrops(loaded, dir, PagePrefix(i), pages[i].render, written) && lines == PlaceholderLines(crops)
    ensures Assembly(acc.pieces + [header] + lines, acc.images + crops) == PdfAssembly(pages[..i + 1], loaded, dir, written)
  {
    PdfAssemblySnoc(pages, i, loaded, dir, written);
    CatParts(acc, PdfPageAssembly(i, pages[i], loaded, dir, written), [header], lines, crops);
  }

  /** In a PDF the placeholders appear in the same order as the returned images, one for each. */
  lemma {:induction false} PdfPlaceholdersFollowImages(pages: seq<PdfPage>, loaded: bool, dir: string, written: string -> bool)
    ensures Aligned(PdfAssembly(pages, loaded, dir, written))
  {
    if pages != [] {
      var i := |pages| - 1;
      PdfPlaceholdersFollowImages(pages[..i], loaded, dir, written);
      HeaderIsNotPlaceholder(i, pages[i].text);
      var crops := PageCrops(loaded, dir, PagePrefix(i), pages[i].render, written);
      HeadedAligned([PageHeader(i, pages[i].text)], crops);
      CatAligned(PdfAssembly(pages[..i], loaded, dir, written), PdfPageAssembly(i, pages[i], loaded, dir, written));
    }
  }

  /** Each page contributes its heading and one piece per saved crop. */
  lemma {:induction false} PdfPieceCount(pages: seq<PdfPage>, loaded: bool, dir: string, written: string -> bool)
    ensures var a := PdfAssembly(pages, loaded, dir, written);
            |a.pieces| == |pages| + |a.images|
  {
    if pages != [] {
      PdfPieceCount(pages[..|pages| - 1], loaded, dir, written);
    }
  }

  // ----------------------------------------------------------------- a DOCX

  const MinDocxSide := 200

  /** The loop's state over the package's relationships: `count`, and the placeholders and images so far. */
  datatype DocxAcc = DocxAcc(count: nat, pieces: seq<string>, images: seq<string>)

  function DocxName(count: nat): string {
    "docx_visual_" + NatToString(count) + ".png"
  }

  /** A relationship that `_extract_from_docx` numbers: an image reference whose image opens and is over 200 pixels each way. */
  predicate LargeImage(rel: Rel) {
    Strings.Contains(rel.targetRef, "image") && rel.image.Ok?
    && rel.image.value.width > MinDocxSide && rel.image.value.height > MinDocxSide
  }

  /**
   * One relationship: a large image takes the next number and adds a
   * placeholder and its path when the save succeeds; a failed save keeps
   * the number used.
   */
  function DocxStep(acc: DocxAcc, rel: Rel, dir: string, written: string -> bool): DocxAcc {
    if !LargeImage(rel) then acc
    else
      var count := acc.count + 1;
      var path := PathJoin(dir, DocxName(count));
      if written(path) then DocxAcc(count, acc.pieces + [PlaceholderLine(DocxName(count))], acc.images + [path])
      else DocxAcc(count, acc.pieces, acc.images)
  }

  function DocxFold(rels: seq<Rel>, dir: string, written: string -> bool): DocxAcc {
    if rels == [] then DocxAcc(0, [], [])
    else DocxStep(DocxFold(rels[..|rels| - 1], dir, written), rels[|rels| - 1], dir, written)
  }

  function CountLarge(rels: seq<Rel>): nat {
    if rels == [] then 0 else CountLarge(rels[..|rels| - 1]) + (if LargeImage(rels[|rels| - 1]) then 1 else 0)
  }

  lemma DocxNameSlashFree(count: nat)
    ensures forall j :: 0 <= j < |DocxName(count)| ==> DocxName(count)[j] != '/'
  {
    var d := NatToString(count);
    NatToStringDigits(count);
    var n := DocxName(count);
    assert n == "docx_visual_" + d + ".png";
    forall j | 0 <= j < |n| ensures n[j] != '/' {
      if 12 <= j < 12 + |d| { assert n[j] == d[j - 12]; }
    }
  }

  /** The loop numbers exactly the large images, and saves at most that many. */
  lemma {:induction false} DocxCount(rels: seq<Rel>, dir: string, written: string -> bool)
    ensures DocxFold(rels, dir, written).count == CountLarge(rels)
    ensures |DocxFold(rels, dir, written).images| <= CountLarge(rels)
  {
    if rels != [] {
      DocxCount(rels[..|rels| - 1], dir, written);
    }
  }

  /** Each saved image has the placeholder of its own name, in image order. */
  predicate Paired(acc: DocxAcc) {
    |acc.pieces| == |acc.images| && forall k :: 0 <= k < |acc.images| ==> acc.pieces[k] == PlaceholderFor(acc.images[k])
  }

  lemma DocxStepPaired(acc: DocxAcc, rel: Rel, dir: string, written: string -> bool)
    requires Paired(acc)
    ensures Paired(DocxStep(acc, rel, dir, written))
  {
    var name := DocxName(acc.count + 1);
    var path := PathJoin(dir, name);
    if LargeImage(rel) && written(path) {
      DocxNameSlashFree(acc.count + 1);
      BasenameOfSlashFree(dir, name);
      var next := DocxStep(acc, rel, dir, written);
      assert next.pieces == acc.pieces + [PlaceholderLine(name)] && next.images == acc.images + [path];
      forall k | 0 <= k < |next.images| ensures next.pieces[k] == PlaceholderFor(next.images[k]) {
        if k < |acc.images| {
          assert next.pieces[k] == acc.pieces[k] && next.images[k] == acc.images[k];
        }
      }
    }
  }

  lemma {:induction false} DocxPaired(rels: seq<Rel>, dir: string, written: string -> bool)
    ensures Paired(DocxFold(rels, dir, written))
  {
    if rels != [] {
      DocxPaired(rels[..|rels| - 1], dir, written);
      DocxStepPaired(DocxFold(rels[..|rels| - 1], dir, written), rels[|rels| - 1], dir, written);
    }
  }

  /** The images are `docx_visual_1.png`, `docx_visual_2.png`, … with no gap. */
  predicate Consecutive(acc: DocxAcc, dir: string) {
    |acc.images| == acc.count && forall k :: 0 <= k < |acc.images| ==> acc.images[k] == PathJoin(dir, DocxName(k + 1))
  }

  lemma DocxStepConsecutive(acc: DocxAcc, rel: Rel, dir: string, written: string -> bool)
    requires Consecutive(acc, dir)
    requires LargeImage(rel) ==> written(PathJoin(dir, DocxName(acc.count + 1)))
    ensures Consecutive(DocxStep(acc, rel, dir, written), dir)
  {
    if LargeImage(rel) {
      var next := DocxStep(acc, rel, dir, written);
      assert next.images == acc.images + [PathJoin(dir, DocxName(acc.count + 1))];
      forall k | 0 <= k < |next.images| ensures next.images[k] == PathJoin(dir, DocxName(k + 1)) {
        if k < |acc.images| {
          assert next.images[k] == acc.images[k];
        }
      }
    }
  }

  /** When every save succeeds the DOCX images are numbered from 1 with no gap. */
  lemma {:induction false} DocxConsecutive(rels: seq<Rel>, dir: string, written: string -> bool)
    requires forall c :: 1 <= c <= CountLarge(rels) ==> written(PathJoin(dir, DocxName(c)))
    ensures Consecutive(DocxFold(rels, dir, written), dir)
  {
    if rels != [] {
      var front := rels[..|rels| - 1];
      DocxCount(front, dir, written);
      DocxConsecutive(front, dir, written);
      DocxStepConsecutive(DocxFold(front, dir, written), rels[|rels| - 1], dir, written);
    }
  }

  // ----------------------------------------------------------------- a PPTX

  /** A shape's text when it has one that is not blank. */
  function ShapeText(s: Shape): seq<string> {
    if s.text.Some? && !IsBlank(s.text.value) then [s.text.value] else []
  }

  /** `hasattr(shape, "text") and shape.text.strip()`: the texts the PPTX loop keeps. */
  function ShapeTexts(shapes: seq<Shape>): seq<string> {
    if shapes == [] then [] else ShapeTexts(shapes[..|shapes| - 1]) + ShapeText(shapes[|shapes| - 1])
  }

  /** No kept text is blank, and there are no more of them than shapes. */
  lemma {:induction false} ShapeTextsNotBlank(shapes: seq<Shape>)
    ensures forall k :: 0 <= k < |ShapeTexts(shapes)| ==> !IsBlank(ShapeTexts(shapes)[k])
    ensures |ShapeTexts(shapes)| <= |shapes|
  {
    if shapes != [] {
      ShapeTextsNotBlank(shapes[..|shapes| - 1]);
    }
  }

  /** Every shape's text that is not blank is kept. */
  lemma {:induction false} ShapeTextsComplete(shapes: seq<Shape>, j: nat)
    requires j < |shapes| && shapes[j].text.Some? && !IsBlank(shapes[j].text.value)
    ensures shapes[j].text.value in ShapeTexts(shapes)
  {
    var front := shapes[..|shapes| - 1];
    if j < |front| {
      ShapeTextsComplete(front, j);
      assert front[j] == shapes[j];
    }
  }

  lemma {:induction false} ShapeTextsAreNotPlaceholders(shapes: seq<Shape>)
    requires forall j :: 0 <= j < |shapes| && shapes[j].text.Some? ==> !IsPlaceholderLine(shapes[j].text.value)
    ensures forall k :: 0 <= k < |ShapeTexts(shapes)| ==> !IsPlaceholderLine(ShapeTexts(shapes)[k])
  {
    if shapes != [] {
      ShapeTextsAreNotPlaceholders(shapes[..|shapes| - 1]);
    }
  }

  function SlidePrefix(i: nat): string { "slide" + NatToString(i + 1) }

  /** Slide `i`'s crops: none when the slide was not rendered. */
  function SlideCrops(i: nat, renders: seq<PageImage>, loaded: bool, dir: string, written: string -> bool): seq<string> {
    if i < |renders| then PageCrops(loaded, dir, SlidePrefix(i), renders[i], written) else []
  }

  /** Slide `i`: its heading, its non-blank shape texts, then a placeholder per saved crop. */
  function SlideAssembly(i: nat, slide: Slide, renders: seq<PageImage>, loaded: bool, dir: string, written: string -> bool): Assembly {
    var crops := SlideCrops(i, renders, loaded, dir, written);
    Assembly([SlideHeader(i)] + ShapeTexts(slide.shapes) + PlaceholderLines(crops), crops)
  }

  /** `_extract_from_pptx` over the slides. */
  function PptxAssembly(slides: seq<Slide>, renders: seq<PageImage>, loaded: bool, dir: string, written: string -> bool): Assembly {
    if slides == [] then Assembly([], [])
    else
      var i := |slides| - 1;
      Cat(PptxAssembly(slides[..i], renders, loaded, dir, written), SlideAssembly(i, slides[i], renders, loaded, dir, written))
  }

  lemma PptxAssemblySnoc(slides: seq<Slide>, i: nat, renders: seq<PageImage>, loaded: bool, dir: string, written: string -> bool)
    requires i < |slides|
    ensures PptxAssembly(slides[..i + 1], renders, loaded, dir, written)
         == Cat(PptxAssembly(slides[..i], renders, loaded, dir, written), SlideAssembly(i, slides[i], renders, loaded, dir, written))
  {
    assert slides[..i + 1][..i] == slides[..i];
  }

  /** One round of the slide loop extends the assembly by slide `i`. */
  lemma PptxAssemblyStep(slides: seq<Slide>, i: nat, renders: seq<PageImage>, loaded: bool, dir: string, written: string -> bool,
                         acc: Assembly, header: string, texts: seq<string>, crops: seq<string>, lines: seq<string>)
    requires i < |slides| && acc == PptxAssembly(slides[..i], renders, loaded, dir, written)
    requires header == SlideHeader(i) && texts == ShapeTexts(slides[i].shapes)
    requires crops == SlideCrops(i, renders, loaded, dir, written) && lines == PlaceholderLines(crops)
    ensures Assembly(acc.pieces + [header] + texts + lines, acc.images + crops) == PptxAssembly(slides[..i + 1], renders, loaded, dir, written)
  {
    PptxAssemblySnoc(slides, i, renders, loaded, dir, written);
    CatParts(acc, SlideAssembly(i, slides[i], renders, loaded, dir, written), [header] + texts, lines, crops);
    assert acc.pieces + [header] + texts == acc.pieces + ([header] + texts);
  }

  /** A slide beyond the rendered ones, or every slide when the conversion failed, yields no crop. */
  lemma {:induction false} UnrenderedSlidesHaveNoCrops(slides: seq<Slide>, loaded: bool, dir: string, written: string -> bool)
    ensures PptxAssembly(slides, [], loaded, dir, written).images == []
  {
    if slides != [] {
      UnrenderedSlidesHaveNoCrops(slides[..|slides| - 1], loaded, dir, written);
    }
  }

  /** No shape of the slide has a text that starts like a placeholder line. */
  predicate NoPlaceholderText(slide: Slide) {
    forall j :: 0 <= j < |slide.shapes| && slide.shapes[j].text.Some? ==> !IsPlaceholderLine(slide.shapes[j].text.value)
  }

  lemma SlideAligned(i: nat, slide: Slide, renders: seq<PageImage>, loaded: bool, dir: string, written: string -> bool)
    requires NoPlaceholderText(slide)
    ensures Aligned(SlideAssembly(i, slide, renders, loaded, dir, written))
  {
    HeaderIsNotPlaceholder(i, "");
    ShapeTextsAreNotPlaceholders(slide.shapes);
    HeadedAligned([SlideHeader(i)] + ShapeTexts(slide.shapes), SlideCrops(i, renders, loaded, dir, written));
  }

  /**
   * In a PPTX whose shape texts do not themselves start like a placeholder
   * line, the placeholders appear in the same order as the returned images.
   */
  lemma {:induction false} PptxPlaceholdersFollowImages(slides: seq<Slide>, renders: seq<PageImage>, loaded: bool, dir: string, written: string -> bool)
    requires forall k :: 0 <= k < |slides| ==> NoPlaceholderText(slides[k])
    ensures Aligned(PptxAssembly(slides, renders, loaded, dir, written))
  {
    if slides != [] {
      var i := |slides| - 1;
      PptxPlaceholdersFollowImages(slides[..i], renders, loaded, dir, written);
      SlideAligned(i, slides[i], renders, loaded, dir, written);
      CatAligned(PptxAssembly(slides[..i], renders, loaded, dir, written), SlideAssembly(i, slides[i], renders, loaded, dir, written));
    }
  }

  // --------------------------------------------------------------- dispatch

  /** What `parse` returns for an existing file, once its asset directory is `dir`. */
  function ParseExisting(ext: string, file: SourceFile, loaded: bool, dir: string, written: string -> bool): Result<Parsed, ParseError> {
    if ext == ".pdf" then
      match file.pdf
      case Err(m) => Err(ReadFailed(m))
      case Ok(pages) =>
        var a := PdfAssembly(pages, loaded, dir, written);
        Ok(Parsed(Join("\n", a.pieces), a.images))
    else if ext == ".docx" then
      match file.docx
      case Err(m) => Err(ReadFailed(m))
      case Ok(d) =>
        var a := DocxFold(d.rels, dir, written);
        Ok(Parsed(Join("\n\n", d.paragraphs + a.pieces), a.images))
    else if ext == ".pptx" then
      match file.pptx
      case Err(m) => Err(ReadFailed(m))
      case Ok(slides) =>
        var a := PptxAssembly(slides, Rendered(file), loaded, dir, written);
        Ok(Parsed(Join("\n\n", a.pieces), a.images))
    else Err(UnsupportedFormat(ext))
  }

  /**
   * A missing file is reported before anything else; an extension other
   * than .pdf, .docx or .pptx (in any ASCII case) is refused; a supported
   * file fails only when its library cannot read it, never because a save
   * or the slide conversion failed.
   */
  lemma ParseErrors(path: string, file: SourceFile, loaded: bool, dir: string, written: string -> bool)
    requires file.present
    ensures var r := ParseExisting(Extension(path), file, loaded, dir, written);
            var ext := Extension(path);
            && (r == Err(UnsupportedFormat(ext)) <==> ext != ".pdf" && ext != ".docx" && ext != ".pptx")
            && (ext == ".pdf" ==> (r.Ok? <==> file.pdf.Ok?))
            && (ext == ".docx" ==> (r.Ok? <==> file.docx.Ok?))
            && (ext == ".pptx" ==> (r.Ok? <==> file.pptx.Ok?))
  {
  }

  class DocumentParser {
    const outputDir: string
    const detector: ChartDetector
    var fileOutputDir: string

    constructor(detector: ChartDetector, outputDir: string)
      ensures this.detector == detector && this.outputDir == outputDir
    {
      this.outputDir := outputDir;
      this.detector := detector;
    }

    /**
     * `parse(file_path)`: FileNotFoundError for a missing file; otherwise
     * the file's asset directory becomes `output_dir/<stem>` and the file is
     * read by the extractor its lower-cased extension picks.
     */
    method Parse(filePath: string, file: SourceFile, written: string -> bool) returns (r: Result<Parsed, ParseError>)
      modifies this
      ensures !file.present ==> r == Err(FileNotFound(filePath)) && fileOutputDir == old(fileOutputDir)
      ensures file.present ==> fileOutputDir == PathJoin(outputDir, Stem(filePath))
      ensures file.present ==> r == ParseExisting(Extension(filePath), file, detector.isLoaded, fileOutputDir, written)
    {
      if !file.present {
        return Err(FileNotFound(filePath));
      }
      var fileExt := Lower(Splitext(filePath).1);
      var fileName := Splitext(Basename(filePath)).0;
      fileOutputDir := PathJoin(outputDir, fileName);
      if fileExt == ".pdf" {
        if file.pdf.Err? {
          return Err(ReadFailed(file.pdf.error));
        }
        var text, images := ExtractFromPdf(file.pdf.value, written);
        r := Ok(Parsed(text, images));
      } else if fileExt == ".docx" {
        if file.docx.Err? {
          return Err(ReadFailed(file.docx.error));
        }
        var text, images := ExtractFromDocx(file.docx.value, written);
        r := Ok(Parsed(text, images));
      } else if fileExt == ".pptx" {
        if file.pptx.Err? {
          return Err(ReadFailed(file.pptx.error));
        }
        var slideImages := ConvertPptxToImages(file);
        var text, images := ExtractFromPptx(file.pptx.value, slideImages, written);
        r := Ok(Parsed(text, images));
      } else {
        r := Err(UnsupportedFormat(fileExt));
      }
    }

    /** `_process_visuals`: one crop per detected box, named by its box number, kept when its save succeeded. */
    method ProcessVisuals(pageImage: PageImage, prefix: string, written: string -> bool) returns (savedPaths: seq<string>)
      ensures savedPaths == PageCrops(detector.isLoaded, fileOutputDir, prefix, pageImage, written)
    {
      var bboxes := detector.Detect(pageImage);
      savedPaths := [];
      for i := 0 to |bboxes|
        invariant savedPaths == SavedCrops(fileOutputDir, prefix, i, written)
      {
        var fname := prefix + "_visual_" + NatToString(i + 1) + ".png";
        var path := PathJoin(fileOutputDir, fname);
        if written(path) {
          savedPaths := savedPaths + [path];
        }
      }
    }

    /** The loop over a page's crops: one placeholder line per crop, in order. */
    method PlaceholdersFor(crops: seq<string>) returns (lines: seq<string>)
      ensures lines == PlaceholderLines(crops)
    {
      lines := [];
      for j := 0 to |crops|
        invariant lines == PlaceholderLines(crops[..j])
      {
        assert crops[..j + 1][..j] == crops[..j];
        var filename := Basename(crops[j]);
        lines := lines + [PlaceholderLine(filename)];
      }
      assert crops[..|crops|] == crops;
    }

    /** The loop over a slide's shapes: the texts that are present and not blank. */
    method TextsOf(shapes: seq<Shape>) returns (texts: seq<string>)
      ensures texts == ShapeTexts(shapes)
    {
      texts := [];
      for j := 0 to |shapes|
        invariant texts == ShapeTexts(shapes[..j])
      {
        assert shapes[..j + 1][..j] == shapes[..j];
        if shapes[j].text.Some? && !IsBlank(shapes[j].text.value) {
          texts := texts + [shapes[j].text.value];
        }
      }
      assert shapes[..|shapes|] == shapes;
    }

    /** `_extract_from_pdf`: the pages' headings, texts and placeholders joined by newlines, and the saved crops. */
    method ExtractFromPdf(pages: seq<PdfPage>, written: string -> bool) returns (text: string, images: seq<string>)
      ensures var a := PdfAssembly(pages, detector.isLoaded, fileOutputDir, written);
              text == Join("\n", a.pieces) && images == a.images
    {
      var fullText: seq<string> := [];
      images := [];
      for i := 0 to |pages|
        invariant Assembly(fullText, images) == PdfAssembly(pages[..i], detector.isLoaded, fileOutputDir, written)
      {
        ghost var acc := Assembly(fullText, images);
        var header := "## Page " + NatToString(i + 1) + "\n" + pages[i].text;
        fullText := fullText + [header];
        var crops := ProcessVisuals(pages[i].render, "page" + NatToString(i + 1), written);
        images := images + crops;
        var lines := PlaceholdersFor(crops);
        PdfAssemblyStep(pages, i, detector.isLoaded, fileOutputDir, written, acc, header, crops, lines);
        fullText := fullText + lines;
      }
      assert pages[..|pages|] == pages;
      text := Join("\n", fullText);
    }

    /** `_extract_from_docx`: the paragraphs, then a placeholder per saved large image, joined by blank lines. */
    method ExtractFromDocx(doc: DocxContent, written: string -> bool) returns (text: string, images: seq<string>)
      ensures var a := DocxFold(doc.rels, fileOutputDir, written);
              text == Join("\n\n", doc.paragraphs + a.pieces) && images == a.images
    {
      var fullText := doc.paragraphs;
      images := [];
      var count := 0;
      var rels := doc.rels;
      ghost var pieces: seq<string> := [];
      for i := 0 to |rels|
        invariant DocxAcc(count, pieces, images) == DocxFold(rels[..i], fileOutputDir, written)
        invariant fullText == doc.paragraphs + pieces
      {
        assert rels[..i + 1][..i] == rels[..i];
        var rel := rels[i];
        if Strings.Contains(rel.targetRef, "image") && rel.image.Ok? {
          var img := rel.image.value;
          if img.width > 200 && img.height > 200 {
            count := count + 1;
            var fname := "docx_visual_" + NatToString(count) + ".png";
            var savePath := PathJoin(fileOutputDir, fname);
            if written(savePath) {
              images := images + [savePath];
              fullText := fullText + [PlaceholderLine(fname)];
              pieces := pieces + [PlaceholderLine(fname)];
            }
          }
        }
      }
      assert rels[..|rels|] == rels;
      text := Join("\n\n", fullText);
    }

    /** `_extract_from_pptx`: each slide's heading, shape texts and placeholders, joined by blank lines, and the saved crops. */
    method ExtractFromPptx(slides: seq<Slide>, slideImages: seq<PageImage>, written: string -> bool) returns (text: string, images: seq<string>)
      ensures var a := PptxAssembly(slides, slideImages, detector.isLoaded, fileOutputDir, written);
              text == Join("\n\n", a.pieces) && images == a.images
    {
      var fullText: seq<string> := [];
      images := [];
      for i := 0 to |slides|
        invariant Assembly(fullText, images) == PptxAssembly(slides[..i], slideImages, detector.isLoaded, fileOutputDir, written)
      {
        ghost var acc := Assembly(fullText, images);
        var header := "## Slide " + NatToString(i + 1);
        fullText := fullText + [header];
        var texts := TextsOf(slides[i].shapes);
        fullText := fullText + texts;
        var crops: seq<string> := [];
        var lines: seq<string> := [];
        if i < |slideImages| {
          crops := ProcessVisuals(slideImages[i], "slide" + NatToString(i + 1), written);
          images := images + crops;
          lines := PlaceholdersFor(crops);
          fullText := fullText + lines;
        } else {
          assert images == acc.images + crops && fullText == fullText + lines;
        }
        PptxAssemblyStep(slides, i, slideImages, detector.isLoaded, fileOutputDir, written, acc, header, texts, crops, lines);
      }
      assert slides[..|slides|] == slides;
      text := Join("\n\n", fullText);
    }

    /** `_convert_pptx_to_images`: the rendered slides, or none when the conversion failed or timed out. */
    method ConvertPptxToImages(file: SourceFile) returns (images: seq<PageImage>)
      ensures file.slideRenders.Ok? ==> images == file.slideRenders.value
      ensures file.slideRenders.Err? ==> images == []
    {
      images := [];
      if file.slideRenders.Ok? {
        images := file.slideRenders.value;
      }
    }
  }
}
