/**
 * The Xournal (.xoj) format as `loadXOJ` reads it and `saveXOJ` writes it.
 * Xournal stores one width per segment instead of one pressure per point:
 * the writer turns pressures into widths, the reader turns widths back into
 * pressures by a recurrence, and these are exact inverses only when the
 * first pressure is 1.
 */
module Xoj {
  import opened Model
  import opened Fields
  import opened Colors
  import opened Stream

  /** The width saveXOJ writes for a segment whose end pressures are a and b. */
  function Mean(penWidth: real, a: real, b: real): real
  {
    0.5 * (a + b) * penWidth
  }

  /** The pressure loadXOJ derives from a segment's width and the pressure before it. */
  function Next(penWidth: real, width: real, previous: real): real
    requires penWidth != 0.0
  {
    2.0 * width / penWidth - previous
  }

  /** Segment k's width as saveXOJ writes it: the mean of its two end pressures times the pen width. */
  function SegmentWidths(penWidth: real, pressures: seq<real>): seq<real>
  {
    seq(if |pressures| > 0 then |pressures| - 1 else 0,
        k requires 0 <= k < |pressures| - 1 => Mean(penWidth, pressures[k], pressures[k + 1]))
  }

  /**
   * The pressures loadXOJ computes from the widths after the pen width: the
   * first is penWidth / penWidth, and each next one is chosen so that the
   * mean with its predecessor, times the pen width, is the segment's width.
   */
  function Recover(penWidth: real, widths: seq<real>): (pressures: seq<real>)
    requires penWidth != 0.0
    ensures |pressures| == |widths| + 1 && pressures[0] == 1.0
    decreases |widths|
  {
    if widths == [] then [1.0]
    else
      var p := Recover(penWidth, widths[..|widths| - 1]);
      p + [Next(penWidth, widths[|widths| - 1], p[|p| - 1])]
  }

  /** Each recovered pressure after the first follows from its segment's width and the pressure before it. */
  lemma {:induction false} RecoverAt(penWidth: real, widths: seq<real>, k: nat)
    requires penWidth != 0.0 && k < |widths|
    ensures Recover(penWidth, widths)[k + 1] == Next(penWidth, widths[k], Recover(penWidth, widths)[k])
    decreases |widths|
  {
    var init := widths[..|widths| - 1];
    if k < |init| {
      RecoverAt(penWidth, init, k);
      assert Recover(penWidth, widths)[..|widths|] == Recover(penWidth, init);
      assert init[k] == widths[k];
    }
  }

  lemma MeanOfNext(penWidth: real, width: real, previous: real)
    requires penWidth != 0.0
    ensures Mean(penWidth, previous, Next(penWidth, width, previous)) == width
  {
    assert previous + (2.0 * width / penWidth - previous) == 2.0 * width / penWidth;
    assert 0.5 * (2.0 * width / penWidth) == width / penWidth;
  }

  /** A pressure that is off by d from a leads to the next one off by -d from b. */
  lemma NextOfMean(penWidth: real, a: real, b: real, d: real)
    requires penWidth != 0.0
    ensures Next(penWidth, Mean(penWidth, a, b), a + d) == b - d
  {
    assert 2.0 * (0.5 * (a + b) * penWidth) == (a + b) * penWidth;
    assert (a + b) * penWidth / penWidth == a + b;
  }

  /** Every recovered pressure pair, averaged and scaled by the pen width, gives back its segment's width. */
  lemma {:induction false} RecoverMeans(penWidth: real, widths: seq<real>)
    requires penWidth != 0.0
    ensures forall k :: 0 <= k < |widths| ==> Mean(penWidth, Recover(penWidth, widths)[k], Recover(penWidth, widths)[k + 1]) == widths[k]
  {
    var p := Recover(penWidth, widths);
    forall k | 0 <= k < |widths|
      ensures Mean(penWidth, p[k], p[k + 1]) == widths[k]
    {
      RecoverAt(penWidth, widths, k);
      MeanOfNext(penWidth, widths[k], p[k]);
    }
  }

  /** Whatever widths are read, the recovered pressures reproduce every one of them as a segment width. */
  lemma {:induction false} RecoverReproducesWidths(penWidth: real, widths: seq<real>)
    requires penWidth != 0.0
    ensures SegmentWidths(penWidth, Recover(penWidth, widths)) == widths
  {
    RecoverMeans(penWidth, widths);
  }

  /** How far the recovered pressure k is from the written one: the first pressure's distance from 1, alternating in sign. */
  function Drift(p0: real, k: nat): real
  {
    if k % 2 == 0 then 1.0 - p0 else p0 - 1.0
  }

  lemma DriftAlternates(p0: real, k: nat)
    requires k > 0
    ensures Drift(p0, k) == -Drift(p0, k - 1)
  {
    if k % 2 == 0 {
      assert (k - 1) % 2 == 1;
    } else {
      assert (k - 1) % 2 == 0;
    }
  }

  lemma {:induction false} RecoverDriftAt(penWidth: real, pressures: seq<real>, k: nat)
    requires penWidth != 0.0 && k < |pressures|
    ensures |Recover(penWidth, SegmentWidths(penWidth, pressures))| == |pressures|
    ensures Recover(penWidth, SegmentWidths(penWidth, pressures))[k] == pressures[k] + Drift(pressures[0], k)
    decreases k
  {
    if k > 0 {
      RecoverDriftAt(penWidth, pressures, k - 1);
      var ws := SegmentWidths(penWidth, pressures);
      var r := Recover(penWidth, ws);
      var d := Drift(pressures[0], k - 1);
      RecoverAt(penWidth, ws, k - 1);
      NextOfMean(penWidth, pressures[k - 1], pressures[k], d);
      DriftAlternates(pressures[0], k);
    }
  }

  /**
   * Writing pressures as widths and reading them back gives every pressure
   * off by the first pressure's distance from 1, with alternating sign.
   */
  lemma {:induction false} RecoverFromWidths(penWidth: real, pressures: seq<real>)
    requires penWidth != 0.0 && |pressures| > 0
    ensures var r := Recover(penWidth, SegmentWidths(penWidth, pressures));
      |r| == |pressures| && forall k :: 0 <= k < |r| ==> r[k] == pressures[k] + Drift(pressures[0], k)
  {
    RecoverDriftAt(penWidth, pressures, 0);
    forall k | 0 <= k < |pressures|
      ensures Recover(penWidth, SegmentWidths(penWidth, pressures))[k] == pressures[k] + Drift(pressures[0], k)
    {
      RecoverDriftAt(penWidth, pressures, k);
    }
  }

  /** The pressures come back exactly if and only if the first one is 1. */
  lemma {:induction false} RecoverExact(penWidth: real, pressures: seq<real>)
    requires penWidth != 0.0 && |pressures| > 0
    ensures Recover(penWidth, SegmentWidths(penWidth, pressures)) == pressures <==> pressures[0] == 1.0
  {
    RecoverFromWidths(penWidth, pressures);
    RecoverDriftAt(penWidth, pressures, 0);
  }

  /** Pressures padded with 1.0 until there is one per point; surplus pressures stay. */
  function Pad(pressures: seq<real>, n: int): seq<real>
  {
    if |pressures| >= n then pressures else pressures + seq(n - |pressures|, _ => 1.0)
  }

  /** The padding loop of loadXOJ (document.cpp:219-222). */
  method PadPressures(pressures: seq<real>, n: nat) returns (padded: seq<real>)
    ensures |padded| == if n > |pressures| then n else |pressures|
    ensures padded[..|pressures|] == pressures
    ensures forall k :: |pressures| <= k < |padded| ==> padded[k] == 1.0
    ensures padded == Pad(pressures, n)
  {
    padded := pressures;
    while n > |padded|
      invariant |pressures| <= |padded| <= if n > |pressures| then n else |pressures|
      invariant padded[..|pressures|] == pressures
      invariant forall k :: |pressures| <= k < |padded| ==> padded[k] == 1.0
      decreases n - |padded|
    {
      padded := padded + [1.0];
    }
  }

  /** Reading one more width extends the recovered pressures by one step of the recurrence. */
  lemma RecoverSnoc(penWidth: real, widths: seq<real>, w: real)
    requires penWidth != 0.0
    ensures Recover(penWidth, widths + [w]) == Recover(penWidth, widths) + [Next(penWidth, w, Recover(penWidth, widths)[|widths|])]
  {
    assert (widths + [w])[..|widths|] == widths;
  }

  lemma {:induction false} RecoverStep(penWidth: real, widthList: Text, i: nat, pressures: seq<real>)
    requires penWidth != 0.0 && 1 <= i < |widthList|
    requires pressures == Recover(penWidth, Values(widthList[1..i]))
    ensures Recover(penWidth, Values(widthList[1..i + 1])) == pressures + [2.0 * ToDouble(widthList[i]) / penWidth - pressures[i - 1]]
  {
    var before := Values(widthList[1..i]);
    var w := ToDouble(widthList[i]);
    assert Values(widthList[1..i + 1]) == before + [w];
    assert |before| == i - 1;
    RecoverSnoc(penWidth, before, w);
  }

  /** The pressure recurrence of loadXOJ (document.cpp:207-212), over the split width attribute. */
  method ReadPressures(widthList: Text) returns (pressures: seq<real>)
    requires ToDouble(widthList[0]) != 0.0
    ensures |pressures| == |widthList| && pressures[0] == 1.0
    ensures forall k :: 0 <= k < |widthList| - 1 ==>
      Mean(ToDouble(widthList[0]), pressures[k], pressures[k + 1]) == ToDouble(widthList[k + 1])
    ensures pressures == Recover(ToDouble(widthList[0]), Values(widthList[1..]))
  {
    var penWidth := ToDouble(widthList[0]);
    pressures := [penWidth / ToDouble(widthList[0])];
    var i := 1;
    assert penWidth / penWidth == 1.0;
    assert Values(widthList[1..i]) == [];
    while i < |widthList|
      invariant 1 <= i <= |widthList|
      invariant pressures == Recover(penWidth, Values(widthList[1..i]))
    {
      RecoverStep(penWidth, widthList, i, pressures);
      pressures := pressures + [2.0 * ToDouble(widthList[i]) / penWidth - pressures[i - 1]];
      i := i + 1;
    }
    assert widthList[1..i] == widthList[1..];
    RecoveredFromWidthList(widthList, pressures);
  }

  /** The recovered pressures, stated against the fields of the width attribute. */
  lemma {:induction false} RecoveredFromWidthList(widthList: Text, pressures: seq<real>)
    requires ToDouble(widthList[0]) != 0.0
    requires pressures == Recover(ToDouble(widthList[0]), Values(widthList[1..]))
    ensures |pressures| == |widthList| && pressures[0] == 1.0
    ensures forall k :: 0 <= k < |widthList| - 1 ==>
      Mean(ToDouble(widthList[0]), pressures[k], pressures[k + 1]) == ToDouble(widthList[k + 1])
  {
    var widths := Values(widthList[1..]);
    RecoverMeans(ToDouble(widthList[0]), widths);
    forall k | 0 <= k < |widthList| - 1
      ensures widths[k] == ToDouble(widthList[k + 1])
    {
    }
  }

  /** The width attribute as saveXOJ writes it: the pen width, then one width per segment. */
  function WidthText(penWidth: real, pressures: seq<real>): Text
  {
    [Num(penWidth)] + Nums(SegmentWidths(penWidth, pressures))
  }

  /** Appending a space and the next segment's width extends the written widths by that width. */
  lemma {:induction false} WrittenWidthsStep(penWidth: real, pressures: seq<real>, k: nat, p0: real, p1: real, t: Text)
    requires k < |pressures| - 1 && p0 == pressures[k] && p1 == pressures[k + 1]
    requires t == [Num(penWidth)] + Nums(SegmentWidths(penWidth, pressures)[..k])
    ensures AppendNumber(AppendSpace(t), 0.5 * (p0 + p1) * penWidth)
         == [Num(penWidth)] + Nums(SegmentWidths(penWidth, pressures)[..k + 1])
  {
    var widths := SegmentWidths(penWidth, pressures);
    assert widths[k] == 0.5 * (p0 + p1) * penWidth;
    assert AppendNumber(AppendSpace(t), widths[k]) == t + [Num(widths[k])];
    assert Nums(widths[..k + 1]) == Nums(widths[..k]) + [Num(widths[k])];
  }

  /** The width attribute holds the pen width, then segment k's width at position k + 1. */
  lemma {:induction false} WidthTextAt(penWidth: real, pressures: seq<real>)
    ensures var t := WidthText(penWidth, pressures);
      && |t| == (if |pressures| > 0 then |pressures| else 1)
      && t[0] == Num(penWidth)
      && forall k :: 0 <= k < |t| - 1 ==> t[k + 1] == Num(Mean(penWidth, pressures[k], pressures[k + 1]))
  {
    var t := WidthText(penWidth, pressures);
    forall k | 0 <= k < |t| - 1
      ensures t[k + 1] == Num(Mean(penWidth, pressures[k], pressures[k + 1]))
    {
      assert t[k + 1] == Nums(SegmentWidths(penWidth, pressures))[k];
    }
  }

  /** The width-writing loop of saveXOJ (document.cpp:283-293). */
  method WriteWidths(penWidth: real, pressures: seq<real>) returns (t: Text)
    ensures |t| == if |pressures| > 0 then |pressures| else 1
    ensures t[0] == Num(penWidth)
    ensures forall k :: 0 <= k < |t| - 1 ==> t[k + 1] == Num(Mean(penWidth, pressures[k], pressures[k + 1]))
    ensures t == WidthText(penWidth, pressures)
  {
    t := AppendNumber(BLANK, penWidth);
    var k := 0;
    while k < |pressures| - 1
      invariant 0 <= k <= |SegmentWidths(penWidth, pressures)|
      invariant t == [Num(penWidth)] + Nums(SegmentWidths(penWidth, pressures)[..k])
    {
      var p0 := pressures[k];
      var p1 := pressures[k + 1];
      WrittenWidthsStep(penWidth, pressures, k, p0, p1, t);
      t := AppendSpace(t);
      t := AppendNumber(t, 0.5 * (p0 + p1) * penWidth);
      k := k + 1;
    }
    assert SegmentWidths(penWidth, pressures)[..k] == SegmentWidths(penWidth, pressures);
    WidthTextAt(penWidth, pressures);
  }

  /** Elements whose handling uses `pages.last()`. */
  predicate NeedsPage(e: Element)
  {
    e.BackgroundElem? || IsPen(e)
  }

  /** The recurrence divides by the pen width, so a pen stroke must not carry width 0. */
  predicate PenWidthNonzero(e: Element)
  {
    IsPen(e) ==> ToDouble(e.strokeWidth[0]) != 0.0
  }

  /**
   * What loadXOJ needs of its input, given whether a page already exists:
   * a page element comes before every element that uses the last page, and
   * no pen stroke has width 0.
   */
  predicate Readable(havePage: bool, es: seq<Element>)
    decreases |es|
  {
    es == [] ||
    ((NeedsPage(es[0]) ==> havePage) && PenWidthNonzero(es[0]) && Readable(havePage || es[0].PageElem?, es[1..]))
  }

  lemma {:induction false} ReadableMonotone(have: bool, have': bool, es: seq<Element>)
    requires Readable(have, es) && (have ==> have')
    ensures Readable(have', es)
    decreases |es|
  {
    if es != [] {
      ReadableMonotone(have || es[0].PageElem?, have' || es[0].PageElem?, es[1..]);
    }
  }

  lemma {:induction false} ReadableJoin(have: bool, a: seq<Element>, b: seq<Element>)
    requires Readable(have, a) && Readable(have, b)
    ensures Readable(have, a + b)
    decreases |a|
  {
    if a == [] {
      assert a + b == b;
    } else {
      assert (a + b)[0] == a[0];
      assert (a + b)[1..] == a[1..] + b;
      ReadableMonotone(have, have || a[0].PageElem?, b);
      ReadableJoin(have || a[0].PageElem?, a[1..], b);
    }
  }

  /** The stroke loadXOJ builds from a pen stroke element (document.cpp:201-222). */
  function DecodeStroke(palette: ColorTable, e: Element): Stroke
    requires IsPen(e) && PenWidthNonzero(e)
  {
    var penWidth := ToDouble(e.strokeWidth[0]);
    var points := Pairs(e.text);
    Stroke(points, Pad(Recover(penWidth, Values(e.strokeWidth[1..])), |points|), penWidth, ColorOf(palette, e.color), Solid)
  }

  /** One pass of loadXOJ's loop body (document.cpp:177-227). */
  function Step(defaults: PageDefaults, palette: ColorTable, pages: seq<Page>, e: Element): (r: seq<Page>)
    requires NeedsPage(e) ==> pages != []
    requires PenWidthNonzero(e)
    ensures |r| == |pages| + if e.PageElem? then 1 else 0
    ensures forall i :: 0 <= i < |pages| - 1 ==> r[i] == pages[i]
    ensures !e.PageElem? && !NeedsPage(e) ==> r == pages
    ensures IsPen(e) ==> r[|r| - 1].strokes == pages[|pages| - 1].strokes + [DecodeStroke(palette, e)]
  {
    match e
    case PageElem(width, height) => OpenPage(defaults, pages, width, height)
    case BackgroundElem(color) => PaintBackground(palette, pages, color)
    case StrokeElem(tool, _, _, _, _, _) => if tool == "pen" then AddStroke(pages, DecodeStroke(palette, e)) else pages
    case Other(_) => pages
  }

  /** loadXOJ's loop from the given pages over the given elements. */
  function Fold(defaults: PageDefaults, palette: ColorTable, pages: seq<Page>, es: seq<Element>): seq<Page>
    requires Readable(pages != [], es)
    decreases |es|
  {
    if es == [] then pages else Fold(defaults, palette, Step(defaults, palette, pages, es[0]), es[1..])
  }

  /** loadXOJ's loop from element i on is one step, then the loop from element i + 1. */
  lemma FoldFrom(defaults: PageDefaults, palette: ColorTable, pages: seq<Page>, es: seq<Element>, i: nat)
    requires i < |es| && Readable(pages != [], es[i..])
    ensures (NeedsPage(es[i]) ==> pages != []) && PenWidthNonzero(es[i])
    ensures Readable(Step(defaults, palette, pages, es[i]) != [], es[i + 1..])
    ensures Fold(defaults, palette, pages, es[i..]) == Fold(defaults, palette, Step(defaults, palette, pages, es[i]), es[i + 1..])
  {
    assert es[i..][0] == es[i];
    assert es[i..][1..] == es[i + 1..];
  }

  /** Reading a + b is reading a, then reading b from where a left off. */
  lemma {:induction false} FoldAppend(defaults: PageDefaults, palette: ColorTable, pages: seq<Page>, a: seq<Element>, b: seq<Element>)
    requires Readable(pages != [], a + b)
    ensures Readable(pages != [], a)
    ensures Readable(Fold(defaults, palette, pages, a) != [], b)
    ensures Fold(defaults, palette, pages, a + b) == Fold(defaults, palette, Fold(defaults, palette, pages, a), b)
    decreases |a|
  {
    if a == [] {
      assert a + b == b;
    } else {
      assert (a + b)[0] == a[0];
      assert (a + b)[1..] == a[1..] + b;
      FoldAppend(defaults, palette, Step(defaults, palette, pages, a[0]), a[1..], b);
    }
  }

  /** The stroke element saveXOJ writes (document.cpp:280-301). */
  function EncodeStroke(s: Stroke): Element
  {
    StrokeElem("pen", ToRGBA(HexArgb(s.color)), "", WidthText(s.penWidth, s.pressures), BLANK, Flatten(s.points) + [Empty])
  }

  /** The stroke-writing part of saveXOJ's loop (document.cpp:280-301). */
  method WriteStroke(s: Stroke) returns (e: Element)
    ensures e == EncodeStroke(s)
  {
    var widths := WriteWidths(s.penWidth, s.pressures);
    var points := WritePoints(s.points);
    e := StrokeElem("pen", ToRGBA(HexArgb(s.color)), "", widths, BLANK, points);
  }

  function EncodeStrokes(strokes: seq<Stroke>): seq<Element>
    decreases |strokes|
  {
    if strokes == [] then [] else EncodeStrokes(strokes[..|strokes| - 1]) + [EncodeStroke(strokes[|strokes| - 1])]
  }

  function EncodePage(p: Page): seq<Element>
  {
    PageHead(p) + EncodeStrokes(p.strokes)
  }

  lemma EncodeStrokesStep(strokes: seq<Stroke>, j: nat)
    requires j < |strokes|
    ensures EncodeStrokes(strokes[..j + 1]) == EncodeStrokes(strokes[..j]) + [EncodeStroke(strokes[j])]
  {
    assert strokes[..j + 1][..j] == strokes[..j];
  }

  /** Appending the next stroke's element extends the written page by that stroke. */
  lemma {:induction false} WrittenStrokesStep(p: Page, j: nat, written: seq<Element>, e: Element)
    requires j < |p.strokes|
    requires written == PageHead(p) + EncodeStrokes(p.strokes[..j])
    requires e == EncodeStroke(p.strokes[j])
    ensures written + [e] == PageHead(p) + EncodeStrokes(p.strokes[..j + 1])
  {
    EncodeStrokesStep(p.strokes, j);
  }

  /** One page of the writer's loop: its head elements, then its strokes in order (document.cpp:269-305). */
  method WritePage(p: Page) returns (written: seq<Element>)
    ensures written == EncodePage(p)
  {
    written := PageHead(p);
    var j := 0;
    while j < |p.strokes|
      invariant 0 <= j <= |p.strokes|
      invariant written == PageHead(p) + EncodeStrokes(p.strokes[..j])
    {
      var e := WriteStroke(p.strokes[j]);
      WrittenStrokesStep(p, j, written, e);
      written := written + [e];
      j := j + 1;
    }
    assert p.strokes[..j] == p.strokes;
  }

  function EncodePages(pages: seq<Page>): seq<Element>
    decreases |pages|
  {
    if pages == [] then [] else EncodePages(pages[..|pages| - 1]) + EncodePage(pages[|pages| - 1])
  }

  const HEADER: seq<Element> := [Other("xournal"), Other("title")]

  /** The start elements of the document saveXOJ writes (document.cpp:259-308). */
  function EncodeDocument(pages: seq<Page>): seq<Element>
  {
    HEADER + EncodePages(pages)
  }

  /** A stroke saveXOJ can write in a form loadXOJ can read: the recurrence needs a nonzero pen width. */
  predicate Writable(pages: seq<Page>)
  {
    forall i :: 0 <= i < |pages| ==> PenWidthsNonzero(pages[i].strokes)
  }

  /** What a written stroke reads back as: same points and pen width, pressures recovered from widths, solid pattern. */
  function ReloadedStroke(palette: ColorTable, s: Stroke): Stroke
    requires s.penWidth != 0.0
  {
    Stroke(s.points, Pad(Recover(s.penWidth, SegmentWidths(s.penWidth, s.pressures)), |s.points|),
           s.penWidth, ColorOf(palette, ToRGBA(HexArgb(s.color))), Solid)
  }

  function ReloadedPage(palette: ColorTable, p: Page): Page
    requires PenWidthsNonzero(p.strokes)
  {
    Page(p.width, p.height, ColorOf(palette, ToRGBA(HexArgb(p.background))), ReloadedStrokes(palette, p.strokes))
  }

  /** The pages of a written document, each as it reads back. */
  function ReloadedPages(palette: ColorTable, pages: seq<Page>): seq<Page>
    requires Writable(pages)
    decreases |pages|
  {
    if pages == [] then []
    else ReloadedPages(palette, pages[..|pages| - 1]) + [ReloadedPage(palette, pages[|pages| - 1])]
  }

  /** Page i of the reloaded document is page i reloaded. */
  lemma {:induction false} ReloadedPagesAt(palette: ColorTable, pages: seq<Page>)
    requires Writable(pages)
    ensures |ReloadedPages(palette, pages)| == |pages|
    ensures forall i :: 0 <= i < |pages| ==> ReloadedPages(palette, pages)[i] == ReloadedPage(palette, pages[i])
  {
    if pages != [] {
      ReloadedPageAt(palette, pages, 0);
      forall i | 0 <= i < |pages|
        ensures ReloadedPages(palette, pages)[i] == ReloadedPage(palette, pages[i])
      {
        ReloadedPageAt(palette, pages, i);
      }
    }
  }

  lemma {:induction false} ReloadedPageAt(palette: ColorTable, pages: seq<Page>, i: nat)
    requires Writable(pages) && i < |pages|
    ensures |ReloadedPages(palette, pages)| == |pages|
    ensures ReloadedPages(palette, pages)[i] == ReloadedPage(palette, pages[i])
    decreases |pages|
  {
    var init := pages[..|pages| - 1];
    WritableInit(pages);
    ReloadedPagesLength(palette, init);
    assert ReloadedPages(palette, pages) == ReloadedPages(palette, init) + [ReloadedPage(palette, pages[|pages| - 1])];
    if i < |init| {
      ReloadedPageAt(palette, init, i);
      assert init[i] == pages[i];
    }
  }

  lemma {:induction false} ReloadedPagesLength(palette: ColorTable, pages: seq<Page>)
    requires Writable(pages)
    ensures |ReloadedPages(palette, pages)| == |pages|
    decreases |pages|
  {
    if pages != [] {
      WritableInit(pages);
      ReloadedPagesLength(palette, pages[..|pages| - 1]);
    }
  }

  lemma WritableInit(pages: seq<Page>)
    requires Writable(pages) && pages != []
    ensures Writable(pages[..|pages| - 1])
  {
    var init := pages[..|pages| - 1];
    forall k | 0 <= k < |init|
      ensures PenWidthsNonzero(init[k].strokes)
    {
      assert init[k] == pages[k];
    }
  }

  /** loadXOJ's reading of a stroke element saveXOJ wrote. */
  lemma {:induction false} DecodeEncodedStroke(palette: ColorTable, s: Stroke)
    requires s.penWidth != 0.0
    ensures IsPen(EncodeStroke(s)) && PenWidthNonzero(EncodeStroke(s))
    ensures DecodeStroke(palette, EncodeStroke(s)) == ReloadedStroke(palette, s)
  {
    var e := EncodeStroke(s);
    PairsOfFlatten(s.points, [Empty]);
    assert e.strokeWidth[1..] == Nums(SegmentWidths(s.penWidth, s.pressures));
    ValuesOfNums(SegmentWidths(s.penWidth, s.pressures));
  }

  /** Every stroke of the list has a nonzero pen width. */
  predicate PenWidthsNonzero(strokes: seq<Stroke>)
  {
    forall j :: 0 <= j < |strokes| ==> strokes[j].penWidth != 0.0
  }

  /** The strokes of a written page, each as it reads back. */
  function ReloadedStrokes(palette: ColorTable, strokes: seq<Stroke>): seq<Stroke>
    requires PenWidthsNonzero(strokes)
    decreases |strokes|
  {
    if strokes == [] then []
    else ReloadedStrokes(palette, strokes[..|strokes| - 1]) + [ReloadedStroke(palette, strokes[|strokes| - 1])]
  }

  /** Stroke j of the reloaded list is stroke j reloaded. */
  lemma {:induction false} ReloadedStrokesAt(palette: ColorTable, strokes: seq<Stroke>)
    requires PenWidthsNonzero(strokes)
    ensures |ReloadedStrokes(palette, strokes)| == |strokes|
    ensures forall j :: 0 <= j < |strokes| ==> ReloadedStrokes(palette, strokes)[j] == ReloadedStroke(palette, strokes[j])
  {
    if strokes != [] {
      ReloadedStrokeAt(palette, strokes, 0);
      forall j | 0 <= j < |strokes|
        ensures ReloadedStrokes(palette, strokes)[j] == ReloadedStroke(palette, strokes[j])
      {
        ReloadedStrokeAt(palette, strokes, j);
      }
    }
  }

  lemma {:induction false} ReloadedStrokeAt(palette: ColorTable, strokes: seq<Stroke>, j: nat)
    requires PenWidthsNonzero(strokes) && j < |strokes|
    ensures |ReloadedStrokes(palette, strokes)| == |strokes|
    ensures ReloadedStrokes(palette, strokes)[j] == ReloadedStroke(palette, strokes[j])
    decreases |strokes|
  {
    var init := strokes[..|strokes| - 1];
    PenWidthsNonzeroInit(strokes);
    ReloadedStrokesLength(palette, init);
    assert ReloadedStrokes(palette, strokes) == ReloadedStrokes(palette, init) + [ReloadedStroke(palette, strokes[|strokes| - 1])];
    if j < |init| {
      ReloadedStrokeAt(palette, init, j);
      assert init[j] == strokes[j];
    }
  }

  lemma {:induction false} ReloadedStrokesLength(palette: ColorTable, strokes: seq<Stroke>)
    requires PenWidthsNonzero(strokes)
    ensures |ReloadedStrokes(palette, strokes)| == |strokes|
    decreases |strokes|
  {
    if strokes != [] {
      PenWidthsNonzeroInit(strokes);
      ReloadedStrokesLength(palette, strokes[..|strokes| - 1]);
    }
  }

  lemma PenWidthsNonzeroInit(strokes: seq<Stroke>)
    requires PenWidthsNonzero(strokes) && strokes != []
    ensures PenWidthsNonzero(strokes[..|strokes| - 1])
  {
    var init := strokes[..|strokes| - 1];
    forall k | 0 <= k < |init|
      ensures init[k].penWidth != 0.0
    {
      assert init[k] == strokes[k];
    }
  }

  lemma {:induction false} FoldOneStroke(defaults: PageDefaults, palette: ColorTable, pages: seq<Page>, q: Page, s: Stroke)
    requires s.penWidth != 0.0
    ensures Readable(true, [EncodeStroke(s)])
    ensures Fold(defaults, palette, pages + [q], [EncodeStroke(s)]) == pages + [q.(strokes := q.strokes + [ReloadedStroke(palette, s)])]
  {
    DecodeEncodedStroke(palette, s);
    var e := EncodeStroke(s);
    assert [e][1..] == [];
    var r := Step(defaults, palette, pages + [q], e);
    assert r == pages + [q.(strokes := q.strokes + [ReloadedStroke(palette, s)])];
  }

  /** Reading a + b when a reads to `middle` and b reads on from there to `last`. */
  lemma {:induction false} FoldThen(defaults: PageDefaults, palette: ColorTable, pages: seq<Page>, a: seq<Element>, b: seq<Element>,
                                    middle: seq<Page>, last: seq<Page>)
    requires Readable(pages != [], a + b)
    requires Readable(pages != [], a) && Fold(defaults, palette, pages, a) == middle
    requires Readable(middle != [], b) && Fold(defaults, palette, middle, b) == last
    ensures Fold(defaults, palette, pages, a + b) == last
  {
    FoldAppend(defaults, palette, pages, a, b);
  }

  lemma {:induction false} FoldStrokes(defaults: PageDefaults, palette: ColorTable, pages: seq<Page>, p: Page, strokes: seq<Stroke>)
    requires PenWidthsNonzero(strokes)
    ensures Readable(true, EncodeStrokes(strokes))
    ensures Fold(defaults, palette, pages + [p], EncodeStrokes(strokes))
         == pages + [p.(strokes := p.strokes + ReloadedStrokes(palette, strokes))]
    decreases |strokes|
  {
    if strokes == [] {
      assert p.strokes + ReloadedStrokes(palette, strokes) == p.strokes;
    } else {
      var init := strokes[..|strokes| - 1];
      var last := strokes[|strokes| - 1];
      var q := p.(strokes := p.strokes + ReloadedStrokes(palette, init));
      assert q.(strokes := q.strokes + [ReloadedStroke(palette, last)]) == p.(strokes := p.strokes + ReloadedStrokes(palette, strokes)) by {
        assert (p.strokes + ReloadedStrokes(palette, init)) + [ReloadedStroke(palette, last)] == p.strokes + ReloadedStrokes(palette, strokes);
      }
      FoldStrokes(defaults, palette, pages, p, init);
      FoldOneStroke(defaults, palette, pages, q, last);
      ReadableJoin(true, EncodeStrokes(init), [EncodeStroke(last)]);
      FoldThen(defaults, palette, pages + [p], EncodeStrokes(init), [EncodeStroke(last)], pages + [q],
               pages + [p.(strokes := p.strokes + ReloadedStrokes(palette, strokes))]);
    }
  }

  /** The page, background and layer elements open a page with the written size and background and no strokes. */
  lemma {:induction false} FoldPageHead(defaults: PageDefaults, palette: ColorTable, pages: seq<Page>, p: Page)
    ensures Readable(false, PageHead(p))
    ensures Fold(defaults, palette, pages, PageHead(p))
         == pages + [Page(p.width, p.height, ColorOf(palette, ToRGBA(HexArgb(p.background))), [])]
  {
    var head := PageHead(p);
    var background := BackgroundElem(ToRGBA(HexArgb(p.background)));
    assert head[1..] == [background, Other("layer")];
    assert head[1..][1..] == [Other("layer")];
    assert head[1..][1..][1..] == [];
    assert Readable(true, head[1..]);
    var started := Step(defaults, palette, pages, head[0]);
    assert started == pages + [Page(p.width, p.height, defaults.background, [])];
    var colored := Step(defaults, palette, started, background);
    assert colored == pages + [Page(p.width, p.height, ColorOf(palette, ToRGBA(HexArgb(p.background))), [])];
    assert Fold(defaults, palette, colored, [Other("layer")]) == colored;
    assert Fold(defaults, palette, started, head[1..]) == colored;
  }

  lemma {:induction false} FoldPage(defaults: PageDefaults, palette: ColorTable, pages: seq<Page>, p: Page)
    requires PenWidthsNonzero(p.strokes)
    ensures Readable(false, EncodePage(p))
    ensures Readable(pages != [], EncodePage(p))
    ensures Fold(defaults, palette, pages, EncodePage(p)) == pages + [ReloadedPage(palette, p)]
  {
    var head := PageHead(p);
    var rest := EncodeStrokes(p.strokes);
    var blank := Page(p.width, p.height, ColorOf(palette, ToRGBA(HexArgb(p.background))), []);
    FoldPageHead(defaults, palette, pages, p);
    FoldStrokes(defaults, palette, pages, blank, p.strokes);
    ReadableAfterPage(head, rest);
    ReadableMonotone(false, pages != [], head + rest);
    FoldAppend(defaults, palette, pages, head, rest);
    assert blank.(strokes := blank.strokes + ReloadedStrokes(palette, p.strokes)) == ReloadedPage(palette, p);
  }

  /** Elements readable with a page present may follow a run that starts with a page element. */
  lemma {:induction false} ReadableAfterPage(head: seq<Element>, rest: seq<Element>)
    requires Readable(false, head) && head != [] && head[0].PageElem?
    requires Readable(true, rest)
    ensures Readable(false, head + rest)
  {
    assert Readable(true, head[1..]);
    ReadableJoin(true, head[1..], rest);
    assert (head + rest)[1..] == head[1..] + rest;
  }

  lemma {:induction false} FoldPages(defaults: PageDefaults, palette: ColorTable, pages: seq<Page>)
    requires Writable(pages)
    ensures Readable(false, EncodePages(pages))
    ensures Fold(defaults, palette, [], EncodePages(pages)) == ReloadedPages(palette, pages)
    decreases |pages|
  {
    if pages != [] {
      var init := pages[..|pages| - 1];
      var last := pages[|pages| - 1];
      var reloaded := ReloadedPages(palette, init);
      FoldPages(defaults, palette, init);
      FoldPage(defaults, palette, reloaded, last);
      ReadableJoin(false, EncodePages(init), EncodePage(last));
      FoldThen(defaults, palette, [], EncodePages(init), EncodePage(last), reloaded, reloaded + [ReloadedPage(palette, last)]);
    }
  }

  /**
   * loadXOJ reads what saveXOJ wrote, assuming the XML reader reports the
   * start elements the writer emitted: the same pages, with each stroke's
   * pressures recovered from the written widths and padded to one per point.
   */
  lemma {:induction false} LoadSaved(defaults: PageDefaults, palette: ColorTable, pages: seq<Page>)
    requires Writable(pages)
    ensures Readable(false, EncodeDocument(pages))
    ensures Fold(defaults, palette, [], EncodeDocument(pages)) == ReloadedPages(palette, pages)
  {
    FoldPages(defaults, palette, pages);
    assert Readable(false, HEADER);
    ReadableJoin(false, HEADER, EncodePages(pages));
    FoldAppend(defaults, palette, [], HEADER, EncodePages(pages));
  }

  lemma EncodePagesStep(pages: seq<Page>, i: nat)
    requires i < |pages|
    ensures EncodePages(pages[..i + 1]) == EncodePages(pages[..i]) + EncodePage(pages[i])
  {
    assert pages[..i + 1][..i] == pages[..i];
  }

  /** Appending the next page's elements extends the written document by that page. */
  lemma {:induction false} WrittenPagesStep(pages: seq<Page>, i: nat, written: seq<Element>, page: seq<Element>)
    requires i < |pages|
    requires written == HEADER + EncodePages(pages[..i])
    requires page == EncodePage(pages[i])
    ensures written + page == HEADER + EncodePages(pages[..i + 1])
  {
    EncodePagesStep(pages, i);
  }

  /** The writer's document: the header elements, then every page in order (document.cpp:259-308). */
  method WriteDocument(pages: seq<Page>) returns (written: seq<Element>)
    ensures written == EncodeDocument(pages)
  {
    written := HEADER;
    var i := 0;
    while i < |pages|
      invariant 0 <= i <= |pages|
      invariant written == HEADER + EncodePages(pages[..i])
    {
      var page := WritePage(pages[i]);
      WrittenPagesStep(pages, i, written, page);
      written := written + page;
      i := i + 1;
    }
    assert pages[..i] == pages;
  }

  /** A stroke the Xournal format carries exactly. */
  predicate Exact(s: Stroke)
  {
    && s.penWidth != 0.0
    && WellFormed(s.color)
    && s.pattern == Solid
    && |s.pressures| > 0
    && s.pressures[0] == 1.0
    && |s.pressures| >= |s.points|
  }

  /** An exact stroke reads back as itself. */
  lemma {:induction false} ReloadedStrokeExact(palette: ColorTable, s: Stroke)
    requires Exact(s)
    ensures ReloadedStroke(palette, s) == s
  {
    ColorRoundTrip(palette, s.color);
    RecoverExact(s.penWidth, s.pressures);
    assert Pad(s.pressures, |s.points|) == s.pressures;
  }

  /** A page with a well-formed background whose strokes are all exact reads back as itself. */
  lemma {:induction false} ReloadedPageExact(palette: ColorTable, p: Page)
    requires WellFormed(p.background)
    requires forall j :: 0 <= j < |p.strokes| ==> Exact(p.strokes[j])
    ensures PenWidthsNonzero(p.strokes)
    ensures ReloadedPage(palette, p) == p
  {
    ColorRoundTrip(palette, p.background);
    forall j | 0 <= j < |p.strokes|
      ensures ReloadedStroke(palette, p.strokes[j]) == p.strokes[j]
    {
      ReloadedStrokeExact(palette, p.strokes[j]);
    }
    ReloadedStrokesAt(palette, p.strokes);
    assert ReloadedStrokes(palette, p.strokes) == p.strokes;
  }

  /**
   * A document whose colours are well formed and whose strokes are solid,
   * start at pressure 1 and have a pressure for every point comes back
   * unchanged from saveXOJ and loadXOJ.
   */
  lemma {:induction false} LoadSavedExact(defaults: PageDefaults, palette: ColorTable, pages: seq<Page>)
    requires forall i :: 0 <= i < |pages| ==> WellFormed(pages[i].background)
    requires forall i, j :: 0 <= i < |pages| && 0 <= j < |pages[i].strokes| ==> Exact(pages[i].strokes[j])
    ensures Readable(false, EncodeDocument(pages))
    ensures Fold(defaults, palette, [], EncodeDocument(pages)) == pages
  {
    forall i | 0 <= i < |pages|
      ensures PenWidthsNonzero(pages[i].strokes) && ReloadedPage(palette, pages[i]) == pages[i]
    {
      ReloadedPageExact(palette, pages[i]);
    }
    LoadSaved(defaults, palette, pages);
    ReloadedPagesAt(palette, pages);
    assert ReloadedPages(palette, pages) == pages;
  }
}
