/**
 * Where the parser's markdown meets the chunker: the parser heads PPTX
 * slides with `## Slide N`, which the chunker's `(## Page \d+)` does not
 * match, so unless a slide's own text carries a page marker, all of a
 * presentation's text is one stretch attributed to page 0.
 */
module Handoff {
  import opened Wrappers
  import opened Strings
  import opened Chunking
  import P = Parser
  import Detector

  /** No `## Page N` marker anywhere in `s`. */
  predicate NoMarker(s: string) {
    forall j :: 0 <= j < |s| ==> !MarkerAt(s, j)
  }

  /** `s` holds neither `#` nor `/`. */
  predicate Plain(s: string) {
    forall k :: 0 <= k < |s| ==> s[k] != '#' && s[k] != '/'
  }

  lemma PlainConcat(a: string, b: string)
    requires Plain(a) && Plain(b)
    ensures Plain(a + b)
  {
    forall k | 0 <= k < |a + b| ensures (a + b)[k] != '#' && (a + b)[k] != '/' {
      if k >= |a| { assert (a + b)[k] == b[k - |a|]; }
    }
  }

  /** A marker starts with `#`, so text without one has no marker. */
  lemma PlainHasNoMarker(s: string)
    requires Plain(s)
    ensures NoMarker(s)
  {
    forall j | 0 <= j < |s| ensures !MarkerAt(s, j) {
      if j + 8 < |s| {
        assert s[j..j + 8][0] == s[j];
      }
    }
  }

  lemma NumberIsPlain(n: nat)
    ensures Plain(NatToString(n))
  {
    NatToStringDigits(n);
  }

  /** A crop's file name, `{prefix}_visual_{k}.png`, for a plain prefix. */
  lemma CropNameIsPlain(prefix: string, i: nat)
    requires Plain(prefix)
    ensures Plain(P.CropName(prefix, i))
  {
    NumberIsPlain(i + 1);
    PlainConcat(prefix, "_visual_");
    PlainConcat(prefix + "_visual_", NatToString(i + 1));
    PlainConcat(prefix + "_visual_" + NatToString(i + 1), ".png");
  }

  /** The placeholder line of a plain file name has no marker. */
  lemma PlaceholderLineHasNoMarker(fname: string)
    requires Plain(fname)
    ensures NoMarker(P.PlaceholderLine(fname))
  {
    PlainConcat("[CHART_PLACEHOLDER:", fname);
    PlainConcat("[CHART_PLACEHOLDER:" + fname, "]");
    PlainConcat("\n", "[CHART_PLACEHOLDER:" + fname + "]");
    PlainConcat("\n[CHART_PLACEHOLDER:" + fname + "]", "\n");
    PlainHasNoMarker(P.PlaceholderLine(fname));
  }

  /** `## Slide N` is not `## Page N`. */
  lemma SlideHeaderHasNoMarker(i: nat)
    ensures NoMarker(P.SlideHeader(i))
  {
    var h := P.SlideHeader(i);
    var d := NatToString(i + 1);
    NumberIsPlain(i + 1);
    forall j | 0 <= j < |h| ensures !MarkerAt(h, j) {
      if j + 8 < |h| {
        var w := h[j..j + 8];
        if j == 0 {
          assert w[3] == 'S';
        } else if j == 1 {
          assert w[1] == ' ';
        } else if j < 9 {
          assert w[0] == h[j];
        } else {
          assert w[0] == d[j - 9];
        }
      }
    }
  }

  /** The placeholders of slide `i`'s crops carry no marker. */
  lemma SlideCropLinesHaveNoMarker(i: nat, renders: seq<Detector.PageImage>, loaded: bool, dir: string, written: string -> bool)
    ensures AllNoMarker(P.PlaceholderLines(P.SlideCrops(i, renders, loaded, dir, written)))
  {
    var crops := P.SlideCrops(i, renders, loaded, dir, written);
    var lines := P.PlaceholderLines(crops);
    P.PlaceholderLinesAt(crops);
    NumberIsPlain(i + 1);
    PlainConcat("slide", NatToString(i + 1));
    forall k | 0 <= k < |lines| ensures NoMarker(lines[k]) {
      assert crops[k] in crops;
      var n := |Detector.Detection(loaded, renders[i])|;
      P.SavedCropsSound(dir, P.SlidePrefix(i), n, written, crops[k]);
      var m :| 0 <= m < n && crops[k] == P.CropPath(dir, P.SlidePrefix(i), m);
      CropNameIsPlain(P.SlidePrefix(i), m);
      BasenameOfSlashFree(dir, P.CropName(P.SlidePrefix(i), m));
      PlaceholderLineHasNoMarker(P.CropName(P.SlidePrefix(i), m));
    }
  }

  /** Every text the PPTX loop keeps is the text of one of the shapes. */
  lemma {:induction false} ShapeTextsFromShapes(shapes: seq<P.Shape>)
    ensures forall t :: t in P.ShapeTexts(shapes) ==> exists j :: 0 <= j < |shapes| && shapes[j].text == Some(t)
  {
    if shapes != [] {
      var front := shapes[..|shapes| - 1];
      ShapeTextsFromShapes(front);
      forall t | t in P.ShapeTexts(shapes) ensures exists j :: 0 <= j < |shapes| && shapes[j].text == Some(t) {
        if t in P.ShapeTexts(front) {
          var j :| 0 <= j < |front| && front[j].text == Some(t);
          assert shapes[j] == front[j];
        } else {
          assert shapes[|shapes| - 1].text == Some(t);
        }
      }
    }
  }

  /** No shape of the slide has a marker in its text. */
  predicate SlideHasNoMarker(slide: P.Slide) {
    forall j :: 0 <= j < |slide.shapes| && slide.shapes[j].text.Some? ==> NoMarker(slide.shapes[j].text.value)
  }

  predicate SlidesHaveNoMarker(slides: seq<P.Slide>) {
    forall k :: 0 <= k < |slides| ==> SlideHasNoMarker(slides[k])
  }

  /** Every string in `ps` is marker-free. */
  predicate AllNoMarker(ps: seq<string>) {
    forall k :: 0 <= k < |ps| ==> NoMarker(ps[k])
  }

  lemma AllNoMarkerAppend(a: seq<string>, b: seq<string>)
    requires AllNoMarker(a) && AllNoMarker(b)
    ensures AllNoMarker(a + b)
  {
    forall k | 0 <= k < |a + b| ensures NoMarker((a + b)[k]) {
      if k >= |a| { assert (a + b)[k] == b[k - |a|]; }
    }
  }

  /** A slide's texts it keeps are marker-free when its shapes' texts are. */
  lemma ShapeTextsHaveNoMarker(slide: P.Slide)
    requires SlideHasNoMarker(slide)
    ensures AllNoMarker(P.ShapeTexts(slide.shapes))
  {
    var texts := P.ShapeTexts(slide.shapes);
    ShapeTextsFromShapes(slide.shapes);
    forall k | 0 <= k < |texts| ensures NoMarker(texts[k]) {
      assert texts[k] in texts;
    }
  }

  /** Slide `i`'s heading, texts and placeholder lines are marker-free. */
  lemma SlidePiecesHaveNoMarker(i: nat, slide: P.Slide, renders: seq<Detector.PageImage>, loaded: bool, dir: string, written: string -> bool)
    requires SlideHasNoMarker(slide)
    ensures AllNoMarker(P.SlideAssembly(i, slide, renders, loaded, dir, written).pieces)
  {
    var texts := P.ShapeTexts(slide.shapes);
    var lines := P.PlaceholderLines(P.SlideCrops(i, renders, loaded, dir, written));
    SlideHeaderHasNoMarker(i);
    assert AllNoMarker([P.SlideHeader(i)]);
    SlideCropLinesHaveNoMarker(i, renders, loaded, dir, written);
    ShapeTextsHaveNoMarker(slide);
    AllNoMarkerAppend([P.SlideHeader(i)], texts);
    AllNoMarkerAppend([P.SlideHeader(i)] + texts, lines);
  }

  /** Every piece of a presentation's text is marker-free when its shapes' texts are. */
  lemma {:induction false} PptxPiecesHaveNoMarker(slides: seq<P.Slide>, renders: seq<Detector.PageImage>, loaded: bool, dir: string, written: string -> bool)
    requires SlidesHaveNoMarker(slides)
    ensures AllNoMarker(P.PptxAssembly(slides, renders, loaded, dir, written).pieces)
  {
    if slides != [] {
      var i := |slides| - 1;
      var front := slides[..i];
      assert SlidesHaveNoMarker(front) by {
        forall k | 0 <= k < |front| ensures front[k] == slides[k] { }
      }
      PptxPiecesHaveNoMarker(front, renders, loaded, dir, written);
      SlidePiecesHaveNoMarker(i, slides[i], renders, loaded, dir, written);
      AllNoMarkerAppend(P.PptxAssembly(front, renders, loaded, dir, written).pieces, P.SlideAssembly(i, slides[i], renders, loaded, dir, written).pieces);
    }
  }

  /**
   * Joining with a blank line cannot create a marker: a marker holds no
   * newline, so one in the joined text lies within one side.
   */
  lemma BlankLineJoin(a: string, b: string)
    requires NoMarker(a) && NoMarker(b)
    ensures NoMarker(a + "\n\n" + b)
  {
    var s := a + "\n\n" + b;
    assert s[..|a|] == a && s[|a| + 2..] == b;
    assert s[|a|] == '\n' && s[|a| + 1] == '\n';
    forall j | 0 <= j < |s| ensures !MarkerAt(s, j) {
      if j + 8 < |s| {
        var w := s[j..j + 8];
        if j + 8 < |a| {
          assert a[j..j + 8] == s[..|a|][j..j + 8] == w;
          assert a[j + 8] == s[j + 8];
          assert !MarkerAt(a, j);
        } else if j >= |a| + 2 {
          var j' := j - |a| - 2;
          assert b[j'..j' + 8] == s[|a| + 2..][j'..j' + 8] == w;
          assert b[j' + 8] == s[j + 8];
          assert !MarkerAt(b, j');
        } else if j + 8 == |a| {
          assert s[j + 8] == s[|a|];
        } else if j <= |a| {
          assert w[|a| - j] == s[|a|];
        } else {
          assert w[0] == s[|a| + 1];
        }
      }
    }
  }

  lemma {:induction false} JoinHasNoMarker(parts: seq<string>)
    requires AllNoMarker(parts)
    ensures NoMarker(Join("\n\n", parts))
  {
    if |parts| > 1 {
      JoinHasNoMarker(parts[1..]);
      BlankLineJoin(parts[0], Join("\n\n", parts[1..]));
    }
  }

  /** Text without a marker is one stretch on the page the chunker starts from. */
  lemma NoMarkerIsOnePage(text: string, page: int)
    requires NoMarker(text)
    ensures Attribute(text, page) == Keep(page, text)
    ensures PageSegments(SplitOnMarkers(text), page) == Keep(page, text)
  {
    assert FirstMarker(text, 0).None?;
    SegmentsFollowMarkers(text, page);
  }

  /**
   * A parsed presentation reaches the chunker as one stretch on page 0
   * (nothing when it is blank): the slide headings never start a page.
   */
  lemma PptxTextIsPageZero(file: P.SourceFile, loaded: bool, dir: string, written: string -> bool)
    requires file.pptx.Ok? && SlidesHaveNoMarker(file.pptx.value)
    ensures var r := P.ParseExisting(".pptx", file, loaded, dir, written);
            r.Ok? && Attribute(r.value.text, 0) == Keep(0, r.value.text)
  {
    var pieces := P.PptxAssembly(file.pptx.value, P.Rendered(file), loaded, dir, written).pieces;
    PptxPiecesHaveNoMarker(file.pptx.value, P.Rendered(file), loaded, dir, written);
    JoinHasNoMarker(pieces);
    NoMarkerIsOnePage(Join("\n\n", pieces), 0);
  }
}
