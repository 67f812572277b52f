/**
 * MrWriter's own format (.moj) as `loadMOJ` reads it and `saveMOJ` writes
 * it. Unlike Xournal it stores one pressure per point and the line pattern;
 * the loader refuses, part-way through, a stroke whose pressure count is not
 * its point count.
 */
module Moj {
  import opened Model
  import opened Fields
  import opened Colors
  import opened Stream

  /** The style attribute as loadMOJ reads it (document.cpp:403-421): the four names, anything else solid. */
  function StyleToPattern(style: string): (p: LinePattern)
    ensures !p.Custom?
    ensures p == Solid <==> style != "dash" && style != "dashdot" && style != "dot"
  {
    if style == "solid" then Solid
    else if style == "dash" then Dash
    else if style == "dashdot" then DashDot
    else if style == "dot" then Dot
    else Solid
  }

  /** The style attribute saveMOJ writes (document.cpp:507-526): a pattern that is none of the four named ones is written as solid. */
  function PatternToStyle(p: LinePattern): (style: string)
    ensures style == "solid" || style == "dash" || style == "dashdot" || style == "dot"
    ensures style == "solid" <==> p == Solid || p.Custom?
  {
    match p
    case Solid => "solid"
    case Dash => "dash"
    case DashDot => "dashdot"
    case Dot => "dot"
    case Custom(_) => "solid"
  }

  /** Each named pattern survives saving and loading; any other pattern comes back solid. */
  lemma StyleRoundTrip(p: LinePattern)
    ensures StyleToPattern(PatternToStyle(p)) == if p.Custom? then Solid else p
  {
  }

  /** Exactly the four style names survive loading and saving; every other style is saved as "solid". */
  lemma PatternRoundTrip(style: string)
    ensures PatternToStyle(StyleToPattern(style)) == style <==> style == "solid" || style == "dash" || style == "dashdot" || style == "dot"
    ensures style != "solid" && style != "dash" && style != "dashdot" && style != "dot" ==> PatternToStyle(StyleToPattern(style)) == "solid"
  {
  }

  /**
   * The pressure loop of loadMOJ (document.cpp:430-440) over the split,
   * trimmed attribute. Its fallback to 1.0 for an empty list is never taken:
   * the loop only runs while the index is below the list's length, and a
   * split string has at least one field anyway.
   */
  method ReadPressures(attribute: Text) returns (pressures: seq<real>)
    ensures |pressures| == |Trim(attribute)| >= 1
    ensures forall k :: 0 <= k < |pressures| ==> pressures[k] == ToDouble(Trim(attribute)[k])
    ensures pressures == Values(Trim(attribute))
  {
    var list := Trim(attribute);
    pressures := [];
    var i := 0;
    while i < |list|
      invariant 0 <= i <= |list|
      invariant pressures == Values(list[..i])
    {
      if |list| == 0 {
        assert false;
      } else {
        pressures := pressures + [ToDouble(list[i])];
      }
      assert Values(list[..i + 1]) == Values(list[..i]) + [ToDouble(list[i])];
      i := i + 1;
    }
    assert list[..i] == list;
  }

  /** The pressure-writing loop of saveMOJ (document.cpp:529-533): every pressure followed by a space. */
  method WritePressures(pressures: seq<real>) returns (t: Text)
    ensures |t| == |pressures| + 1 && t[|pressures|] == Empty
    ensures forall k :: 0 <= k < |pressures| ==> t[k] == Num(pressures[k])
    ensures t == Nums(pressures) + [Empty]
  {
    t := BLANK;
    var k := 0;
    while k < |pressures|
      invariant k <= |pressures|
      invariant t == Nums(pressures[..k]) + [Empty]
    {
      t := AppendNumber(t, pressures[k]);
      t := AppendSpace(t);
      assert Nums(pressures[..k + 1]) == Nums(pressures[..k]) + [Num(pressures[k])];
      k := k + 1;
    }
    assert pressures[..k] == pressures;
  }

  /** A pen stroke whose pressure count differs from its point count: loadMOJ returns false on it (document.cpp:441-444). */
  predicate Rejects(e: Element)
  {
    IsPen(e) && PressureCount(e) != PointCount(e)
  }

  /** The number of pressures loadMOJ reads from a stroke element. */
  function PressureCount(e: Element): nat
    requires e.StrokeElem?
  {
    |Trim(e.pressures)|
  }

  /** The number of points loadMOJ reads from a stroke element. */
  function PointCount(e: Element): nat
    requires e.StrokeElem?
  {
    |Trim(e.text)| / 2
  }

  /** Elements whose handling uses `pages.last()`; a rejected stroke never reaches it. */
  predicate NeedsPage(e: Element)
  {
    e.BackgroundElem? || (IsPen(e) && !Rejects(e))
  }

  /** The stroke loadMOJ builds from a pen stroke element it accepts (document.cpp:399-440). */
  function DecodeStroke(palette: ColorTable, e: Element): Stroke
    requires IsPen(e)
  {
    Stroke(Pairs(Trim(e.text)), Values(Trim(e.pressures)), Number(e.strokeWidth), ColorOf(palette, e.color), StyleToPattern(e.style))
  }

  /** Where loadMOJ's loop stands: still reading, or stopped by a rejected stroke with the pages built so far. */
  datatype Loading = Reading(pages: seq<Page>) | Rejected(pages: seq<Page>)

  /** One pass of loadMOJ's loop body (document.cpp:366-449). */
  function Step(defaults: PageDefaults, palette: ColorTable, pages: seq<Page>, e: Element): (r: Loading)
    requires NeedsPage(e) ==> pages != []
    ensures r.Rejected? <==> Rejects(e)
    ensures r.Rejected? ==> r.pages == pages
    ensures |r.pages| == |pages| + if e.PageElem? then 1 else 0
  {
    match e
    case PageElem(width, height) => Reading(OpenPage(defaults, pages, width, height))
    case BackgroundElem(color) => Reading(PaintBackground(palette, pages, color))
    case StrokeElem(tool, _, _, _, _, _) =>
      if tool != "pen" then Reading(pages)
      else if Rejects(e) then Rejected(pages)
      else Reading(AddStroke(pages, DecodeStroke(palette, e)))
    case Other(_) => Reading(pages)
  }

  /**
   * What loadMOJ needs of its input, given whether a page already exists:
   * up to the first rejected stroke, a page element comes before every
   * element that uses the last page.
   */
  predicate Readable(havePage: bool, es: seq<Element>)
    decreases |es|
  {
    es == [] || Rejects(es[0]) || ((NeedsPage(es[0]) ==> havePage) && Readable(havePage || es[0].PageElem?, es[1..]))
  }

  /** Once a page exists, every input is readable. */
  lemma {:induction false} ReadableWithPage(es: seq<Element>)
    ensures Readable(true, es)
    decreases |es|
  {
    if es != [] {
      ReadableWithPage(es[1..]);
    }
  }

  lemma {:induction false} ReadableJoin(have: bool, a: seq<Element>, b: seq<Element>)
    requires Readable(have, a) && Readable(have, b)
    ensures Readable(have, a + b)
    decreases |a|
  {
    if a != [] {
      assert (a + b)[0] == a[0];
      assert (a + b)[1..] == a[1..] + b;
      if !Rejects(a[0]) {
        if a[0].PageElem? {
          ReadableWithPage(b);
        }
        ReadableJoin(have || a[0].PageElem?, a[1..], b);
      }
    } else {
      assert a + b == b;
    }
  }

  /** loadMOJ's loop from the given pages over the given elements. */
  function Fold(defaults: PageDefaults, palette: ColorTable, pages: seq<Page>, es: seq<Element>): Loading
    requires Readable(pages != [], es)
    decreases |es|
  {
    if es == [] then Reading(pages)
    else
      var r := Step(defaults, palette, pages, es[0]);
      if r.Rejected? then r else Fold(defaults, palette, r.pages, es[1..])
  }

  /** loadMOJ's loop from element i on is one step, then the loop from element i + 1 unless that step rejected. */
  lemma FoldFrom(defaults: PageDefaults, palette: ColorTable, pages: seq<Page>, es: seq<Element>, i: nat)
    requires i < |es| && Readable(pages != [], es[i..])
    ensures NeedsPage(es[i]) ==> pages != []
    ensures var r := Step(defaults, palette, pages, es[i]);
      && (r.Rejected? ==> Fold(defaults, palette, pages, es[i..]) == r)
      && (r.Reading? ==> Readable(r.pages != [], es[i + 1..]) && Fold(defaults, palette, pages, es[i..]) == Fold(defaults, palette, r.pages, es[i + 1..]))
  {
    assert es[i..][0] == es[i];
    assert es[i..][1..] == es[i + 1..];
  }

  /** Reading a + b is reading a and, unless a stroke of a was rejected, then reading b. */
  lemma {:induction false} FoldAppend(defaults: PageDefaults, palette: ColorTable, pages: seq<Page>, a: seq<Element>, b: seq<Element>)
    requires Readable(pages != [], a + b)
    ensures Readable(pages != [], a)
    ensures Fold(defaults, palette, pages, a).Rejected? ==> Fold(defaults, palette, pages, a + b) == Fold(defaults, palette, pages, a)
    ensures Fold(defaults, palette, pages, a).Reading? ==>
      Readable(Fold(defaults, palette, pages, a).pages != [], b) &&
      Fold(defaults, palette, pages, a + b) == Fold(defaults, palette, Fold(defaults, palette, pages, a).pages, b)
    decreases |a|
  {
    if a == [] {
      assert a + b == b;
    } else {
      assert (a + b)[0] == a[0];
      assert (a + b)[1..] == a[1..] + b;
      var r := Step(defaults, palette, pages, a[0]);
      if r.Reading? {
        FoldAppend(defaults, palette, r.pages, a[1..], b);
      }
    }
  }

  /** loadMOJ stops with a rejection exactly when some pen stroke of its input has a pressure count unlike its point count. */
  lemma {:induction false} FoldRejectsIff(defaults: PageDefaults, palette: ColorTable, pages: seq<Page>, es: seq<Element>)
    requires Readable(pages != [], es)
    ensures Fold(defaults, palette, pages, es).Rejected? <==> exists i :: 0 <= i < |es| && Rejects(es[i])
    decreases |es|
  {
    if es != [] && !Rejects(es[0]) {
      var r := Step(defaults, palette, pages, es[0]);
      FoldRejectsIff(defaults, palette, r.pages, es[1..]);
      if exists i :: 0 <= i < |es| && Rejects(es[i]) {
        var i :| 0 <= i < |es| && Rejects(es[i]);
        assert es[1..][i - 1] == es[i];
      }
      if exists i :: 0 <= i < |es[1..]| && Rejects(es[1..][i]) {
        var i :| 0 <= i < |es[1..]| && Rejects(es[1..][i]);
        assert es[i + 1] == es[1..][i];
      }
    }
  }

  /** Every stroke has one pressure per point. */
  predicate PressurePerPoint(pages: seq<Page>)
  {
    forall i, j :: 0 <= i < |pages| && 0 <= j < |pages[i].strokes| ==>
      |pages[i].strokes[j].pressures| == |pages[i].strokes[j].points|
  }

  lemma {:induction false} StepKeepsPressurePerPoint(defaults: PageDefaults, palette: ColorTable, pages: seq<Page>, e: Element)
    requires NeedsPage(e) ==> pages != []
    requires PressurePerPoint(pages)
    ensures PressurePerPoint(Step(defaults, palette, pages, e).pages)
  {
    var r := Step(defaults, palette, pages, e).pages;
    if IsPen(e) && !Rejects(e) {
      var s := DecodeStroke(palette, e);
      assert |s.pressures| == |s.points|;
      forall i, j | 0 <= i < |r| && 0 <= j < |r[i].strokes|
        ensures |r[i].strokes[j].pressures| == |r[i].strokes[j].points|
      {
        if i == |pages| - 1 && j == |pages[i].strokes| {
          assert r[i].strokes[j] == s;
        } else {
          assert r[i].strokes[j] == pages[i].strokes[j];
        }
      }
    } else if e.PageElem? {
      forall i, j | 0 <= i < |r| && 0 <= j < |r[i].strokes|
        ensures |r[i].strokes[j].pressures| == |r[i].strokes[j].points|
      {
        assert i < |pages|;
        assert r[i] == pages[i];
      }
    } else if e.BackgroundElem? {
      forall i, j | 0 <= i < |r| && 0 <= j < |r[i].strokes|
        ensures |r[i].strokes[j].pressures| == |r[i].strokes[j].points|
      {
        assert r[i].strokes == pages[i].strokes;
      }
    }
  }

  /**
   * Every page loadMOJ builds, whether it finishes or stops at a rejected
   * stroke, holds only strokes with one pressure per point.
   */
  lemma {:induction false} FoldKeepsPressurePerPoint(defaults: PageDefaults, palette: ColorTable, pages: seq<Page>, es: seq<Element>)
    requires Readable(pages != [], es)
    requires PressurePerPoint(pages)
    ensures PressurePerPoint(Fold(defaults, palette, pages, es).pages)
    decreases |es|
  {
    if es != [] {
      StepKeepsPressurePerPoint(defaults, palette, pages, es[0]);
      var r := Step(defaults, palette, pages, es[0]);
      if r.Reading? {
        FoldKeepsPressurePerPoint(defaults, palette, r.pages, es[1..]);
      }
    }
  }

  /**
   * The loader is not atomic: when the first rejected stroke follows a run
   * of accepted elements, the result holds the pages that run built.
   */
  lemma {:induction false} RejectionKeepsPartialPages(defaults: PageDefaults, palette: ColorTable, pages: seq<Page>,
                                                      accepted: seq<Element>, bad: Element, rest: seq<Element>)
    requires Readable(pages != [], accepted) && Rejects(bad)
    requires forall i :: 0 <= i < |accepted| ==> !Rejects(accepted[i])
    ensures Readable(pages != [], accepted + [bad] + rest)
    ensures Fold(defaults, palette, pages, accepted + [bad] + rest) == Rejected(Fold(defaults, palette, pages, accepted).pages)
  {
    assert Readable(true, [bad] + rest) && Readable(false, [bad] + rest);
    assert accepted + [bad] + rest == accepted + ([bad] + rest);
    ReadableJoin(pages != [], accepted, [bad] + rest);
    FoldRejectsIff(defaults, palette, pages, accepted);
    FoldAppend(defaults, palette, pages, accepted, [bad] + rest);
  }

  /** The stroke element saveMOJ writes (document.cpp:504-544); the pen width is one number. */
  function EncodeStroke(s: Stroke): Element
  {
    StrokeElem("pen", ToRGBA(HexArgb(s.color)), PatternToStyle(s.pattern), [Num(s.penWidth)],
               Trim(Nums(s.pressures) + [Empty]), Trim(Flatten(s.points) + [Empty]))
  }

  /** The stroke-writing part of saveMOJ's loop (document.cpp:504-544). */
  method WriteStroke(s: Stroke) returns (e: Element)
    ensures e == EncodeStroke(s)
  {
    var pressures := WritePressures(s.pressures);
    var points := WritePoints(s.points);
    e := StrokeElem("pen", ToRGBA(HexArgb(s.color)), PatternToStyle(s.pattern), [Num(s.penWidth)], Trim(pressures), Trim(points));
  }

  function EncodeStrokes(strokes: seq<Stroke>): seq<Element>
    decreases |strokes|
  {
    if strokes == [] then [] else EncodeStrokes(strokes[..|strokes| - 1]) + [EncodeStroke(strokes[|strokes| - 1])]
  }

  function EncodePage(p: Page): seq<Element>
  {
    PageHead(p) + EncodeStrokes(p.strokes)
  }

  lemma EncodeStrokesStep(strokes: seq<Stroke>, j: nat)
    requires j < |strokes|
    ensures EncodeStrokes(strokes[..j + 1]) == EncodeStrokes(strokes[..j]) + [EncodeStroke(strokes[j])]
  {
    assert strokes[..j + 1][..j] == strokes[..j];
  }

  /** Appending the next stroke's element extends the written page by that stroke. */
  lemma {:induction false} WrittenStrokesStep(p: Page, j: nat, written: seq<Element>, e: Element)
    requires j < |p.strokes|
    requires written == PageHead(p) + EncodeStrokes(p.strokes[..j])
    requires e == EncodeStroke(p.strokes[j])
    ensures written + [e] == PageHead(p) + EncodeStrokes(p.strokes[..j + 1])
  {
    EncodeStrokesStep(p.strokes, j);
  }

  /** One page of the writer's loop: its head elements, then its strokes in order (document.cpp:493-548). */
  method WritePage(p: Page) returns (written: seq<Element>)
    ensures written == EncodePage(p)
  {
    written := PageHead(p);
    var j := 0;
    while j < |p.strokes|
      invariant 0 <= j <= |p.strokes|
      invariant written == PageHead(p) + EncodeStrokes(p.strokes[..j])
    {
      var e := WriteStroke(p.strokes[j]);
      WrittenStrokesStep(p, j, written, e);
      written := written + [e];
      j := j + 1;
    }
    assert p.strokes[..j] == p.strokes;
  }

  function EncodePages(pages: seq<Page>): seq<Element>
    decreases |pages|
  {
    if pages == [] then [] else EncodePages(pages[..|pages| - 1]) + EncodePage(pages[|pages| - 1])
  }

  const HEADER: seq<Element> := [Other("MrWriter"), Other("title")]

  /** The start elements of the document saveMOJ writes (document.cpp:479-551). */
  function EncodeDocument(pages: seq<Page>): seq<Element>
  {
    HEADER + EncodePages(pages)
  }

  /** The pressures a written stroke reads back as: an empty list is written as "", which reads as one pressure 0.0. */
  function ReloadedPressures(pressures: seq<real>): seq<real>
  {
    if pressures == [] then [0.0] else pressures
  }

  /** A stroke loadMOJ accepts once saveMOJ has written it. */
  predicate Accepted(s: Stroke)
  {
    |ReloadedPressures(s.pressures)| == |s.points|
  }

  /** What a written and accepted stroke reads back as. */
  function ReloadedStroke(palette: ColorTable, s: Stroke): Stroke
  {
    Stroke(s.points, ReloadedPressures(s.pressures), s.penWidth, ColorOf(palette, ToRGBA(HexArgb(s.color))), StyleToPattern(PatternToStyle(s.pattern)))
  }

  /** The strokes of a written page, each as it reads back. */
  function ReloadedStrokes(palette: ColorTable, strokes: seq<Stroke>): (r: seq<Stroke>)
    ensures |r| == |strokes| && forall j :: 0 <= j < |strokes| ==> r[j] == ReloadedStroke(palette, strokes[j])
    decreases |strokes|
  {
    if strokes == [] then []
    else ReloadedStrokes(palette, strokes[..|strokes| - 1]) + [ReloadedStroke(palette, strokes[|strokes| - 1])]
  }

  function ReloadedPage(palette: ColorTable, p: Page): Page
  {
    Page(p.width, p.height, ColorOf(palette, ToRGBA(HexArgb(p.background))), ReloadedStrokes(palette, p.strokes))
  }

  /** The pages of a written document, each as it reads back. */
  function ReloadedPages(palette: ColorTable, pages: seq<Page>): (r: seq<Page>)
    ensures |r| == |pages| && forall i :: 0 <= i < |pages| ==> r[i] == ReloadedPage(palette, pages[i])
    decreases |pages|
  {
    if pages == [] then []
    else ReloadedPages(palette, pages[..|pages| - 1]) + [ReloadedPage(palette, pages[|pages| - 1])]
  }

  lemma {:induction false} ReadWrittenPressures(pressures: seq<real>)
    ensures Values(Trim(Trim(Nums(pressures) + [Empty]))) == ReloadedPressures(pressures)
  {
    var fs := Nums(pressures);
    TrimWritten(fs);
    TrimIdempotent(fs + [Empty]);
    ValuesOfNums(pressures);
  }

  lemma {:induction false} ReadWrittenPoints(points: seq<Point>)
    ensures Pairs(Trim(Trim(Flatten(points) + [Empty]))) == points
  {
    var fs := Flatten(points);
    FlattenAt(points, 0);
    TrimWritten(fs);
    TrimIdempotent(fs + [Empty]);
    PairsOfFlatten(points, []);
    assert fs + [] == fs;
  }

  /** loadMOJ refuses a written stroke exactly when it is not `Accepted`, and reads an accepted one back as `ReloadedStroke`. */
  lemma {:induction false} DecodeEncodedStroke(palette: ColorTable, s: Stroke)
    ensures IsPen(EncodeStroke(s))
    ensures Rejects(EncodeStroke(s)) <==> !Accepted(s)
    ensures !Rejects(EncodeStroke(s)) ==> DecodeStroke(palette, EncodeStroke(s)) == ReloadedStroke(palette, s)
  {
    ReadWrittenPressures(s.pressures);
    ReadWrittenPoints(s.points);
    NumberOfWritten(s.penWidth);
  }

  /** A stroke without points is written with an empty pressure list and refused on loading. */
  lemma {:induction false} EmptyStrokeRejected(s: Stroke)
    requires s.points == [] && s.pressures == []
    ensures Rejects(EncodeStroke(s))
  {
    DecodeEncodedStroke(PALETTE_NONE, s);
  }

  const PALETTE_NONE: ColorTable := Palette([], [])

  predicate AllAccepted(strokes: seq<Stroke>)
  {
    forall j :: 0 <= j < |strokes| ==> Accepted(strokes[j])
  }

  lemma {:induction false} FoldOneStroke(defaults: PageDefaults, palette: ColorTable, pages: seq<Page>, q: Page, s: Stroke)
    requires Accepted(s)
    ensures Readable(true, [EncodeStroke(s)])
    ensures Fold(defaults, palette, pages + [q], [EncodeStroke(s)]) == Reading(pages + [q.(strokes := q.strokes + [ReloadedStroke(palette, s)])])
  {
    DecodeEncodedStroke(palette, s);
    var e := EncodeStroke(s);
    ReadableWithPage([e]);
    assert [e][1..] == [];
    var r := Step(defaults, palette, pages + [q], e);
    assert r == Reading(pages + [q.(strokes := q.strokes + [ReloadedStroke(palette, s)])]);
  }

  /** Reading a + b when a reads to `middle` and b reads on from there to `last`. */
  lemma {:induction false} FoldThen(defaults: PageDefaults, palette: ColorTable, pages: seq<Page>, a: seq<Element>, b: seq<Element>,
                                    middle: seq<Page>, last: Loading)
    requires Readable(pages != [], a + b)
    requires Readable(pages != [], a) && Fold(defaults, palette, pages, a) == Reading(middle)
    requires Readable(middle != [], b) && Fold(defaults, palette, middle, b) == last
    ensures Fold(defaults, palette, pages, a + b) == last
  {
    FoldAppend(defaults, palette, pages, a, b);
  }

  lemma {:induction false} FoldStrokes(defaults: PageDefaults, palette: ColorTable, pages: seq<Page>, p: Page, strokes: seq<Stroke>)
    requires AllAccepted(strokes)
    ensures Readable(true, EncodeStrokes(strokes))
    ensures Fold(defaults, palette, pages + [p], EncodeStrokes(strokes))
         == Reading(pages + [p.(strokes := p.strokes + ReloadedStrokes(palette, strokes))])
    decreases |strokes|
  {
    ReadableWithPage(EncodeStrokes(strokes));
    if strokes == [] {
      assert p.strokes + ReloadedStrokes(palette, strokes) == p.strokes;
    } else {
      var init := strokes[..|strokes| - 1];
      var last := strokes[|strokes| - 1];
      var q := p.(strokes := p.strokes + ReloadedStrokes(palette, init));
      assert q.(strokes := q.strokes + [ReloadedStroke(palette, last)]) == p.(strokes := p.strokes + ReloadedStrokes(palette, strokes)) by {
        assert (p.strokes + ReloadedStrokes(palette, init)) + [ReloadedStroke(palette, last)] == p.strokes + ReloadedStrokes(palette, strokes);
      }
      assert AllAccepted(init);
      FoldStrokes(defaults, palette, pages, p, init);
      FoldOneStroke(defaults, palette, pages, q, last);
      FoldThen(defaults, palette, pages + [p], EncodeStrokes(init), [EncodeStroke(last)], pages + [q],
               Reading(pages + [p.(strokes := p.strokes + ReloadedStrokes(palette, strokes))]));
    }
  }

  /** The page, background and layer elements open a page with the written size and background and no strokes. */
  lemma {:induction false} FoldPageHead(defaults: PageDefaults, palette: ColorTable, pages: seq<Page>, p: Page)
    ensures Readable(false, PageHead(p))
    ensures Fold(defaults, palette, pages, PageHead(p))
         == Reading(pages + [Page(p.width, p.height, ColorOf(palette, ToRGBA(HexArgb(p.background))), [])])
  {
    var head := PageHead(p);
    var background := BackgroundElem(ToRGBA(HexArgb(p.background)));
    assert head[1..] == [background, Other("layer")];
    assert head[1..][1..] == [Other("layer")];
    assert head[1..][1..][1..] == [];
    ReadableWithPage(head[1..]);
    var started := Step(defaults, palette, pages, head[0]).pages;
    assert started == pages + [Page(p.width, p.height, defaults.background, [])];
    var colored := Step(defaults, palette, started, background).pages;
    assert colored == pages + [Page(p.width, p.height, ColorOf(palette, ToRGBA(HexArgb(p.background))), [])];
    assert Fold(defaults, palette, colored, [Other("layer")]) == Reading(colored);
    assert Fold(defaults, palette, started, head[1..]) == Reading(colored);
  }

  /** Every page saveMOJ writes is readable, whatever its strokes. */
  lemma {:induction false} ReadableEncodedPage(p: Page)
    ensures Readable(false, EncodePage(p))
  {
    var es := EncodePage(p);
    assert es[0] == PageElem(p.width, p.height);
    ReadableWithPage(es[1..]);
  }

  lemma {:induction false} ReadableEncoded(pages: seq<Page>)
    ensures Readable(false, EncodePages(pages))
    ensures Readable(false, EncodeDocument(pages))
    decreases |pages|
  {
    if pages != [] {
      ReadableEncoded(pages[..|pages| - 1]);
      ReadableEncodedPage(pages[|pages| - 1]);
      ReadableJoin(false, EncodePages(pages[..|pages| - 1]), EncodePage(pages[|pages| - 1]));
    }
    assert Readable(false, HEADER);
    ReadableJoin(false, HEADER, EncodePages(pages));
  }

  lemma {:induction false} FoldPage(defaults: PageDefaults, palette: ColorTable, pages: seq<Page>, p: Page)
    requires AllAccepted(p.strokes)
    ensures Readable(pages != [], EncodePage(p))
    ensures Fold(defaults, palette, pages, EncodePage(p)) == Reading(pages + [ReloadedPage(palette, p)])
  {
    var head := PageHead(p);
    var rest := EncodeStrokes(p.strokes);
    var blank := Page(p.width, p.height, ColorOf(palette, ToRGBA(HexArgb(p.background))), []);
    assert blank.(strokes := blank.strokes + ReloadedStrokes(palette, p.strokes)) == ReloadedPage(palette, p);
    assert Readable(pages != [], EncodePage(p)) by {
      ReadableEncodedPage(p);
      if pages != [] {
        ReadableWithPage(EncodePage(p));
      }
    }
    assert Fold(defaults, palette, pages, head) == Reading(pages + [blank]) by {
      FoldPageHead(defaults, palette, pages, p);
    }
    assert Fold(defaults, palette, pages + [blank], rest) == Reading(pages + [ReloadedPage(palette, p)]) by {
      FoldStrokes(defaults, palette, pages, blank, p.strokes);
    }
    FoldAppend(defaults, palette, pages, head, rest);
  }

  predicate AllPagesAccepted(pages: seq<Page>)
  {
    forall i :: 0 <= i < |pages| ==> AllAccepted(pages[i].strokes)
  }

  lemma {:induction false} FoldPages(defaults: PageDefaults, palette: ColorTable, pages: seq<Page>)
    requires AllPagesAccepted(pages)
    ensures Readable(false, EncodePages(pages))
    ensures Fold(defaults, palette, [], EncodePages(pages)) == Reading(ReloadedPages(palette, pages))
    decreases |pages|
  {
    ReadableEncoded(pages);
    if pages != [] {
      var init := pages[..|pages| - 1];
      var last := pages[|pages| - 1];
      var reloaded := ReloadedPages(palette, init);
      assert AllPagesAccepted(init);
      FoldPages(defaults, palette, init);
      FoldPage(defaults, palette, reloaded, last);
      FoldThen(defaults, palette, [], EncodePages(init), EncodePage(last), reloaded, Reading(reloaded + [ReloadedPage(palette, last)]));
    }
  }

  /**
   * loadMOJ reads what saveMOJ wrote, assuming the XML reader reports the
   * start elements the writer emitted, when every stroke is accepted: the
   * same pages, strokes and points, with colours and patterns reloaded.
   */
  lemma {:induction false} LoadSaved(defaults: PageDefaults, palette: ColorTable, pages: seq<Page>)
    requires AllPagesAccepted(pages)
    ensures Readable(false, EncodeDocument(pages))
    ensures Fold(defaults, palette, [], EncodeDocument(pages)) == Reading(ReloadedPages(palette, pages))
  {
    FoldPages(defaults, palette, pages);
    ReadableEncoded(pages);
    FoldAppend(defaults, palette, [], HEADER, EncodePages(pages));
  }

  lemma {:induction false} EncodedStrokeInPage(strokes: seq<Stroke>, j: nat)
    requires j < |strokes|
    ensures EncodeStroke(strokes[j]) in EncodeStrokes(strokes)
    decreases |strokes|
  {
    if j < |strokes| - 1 {
      EncodedStrokeInPage(strokes[..|strokes| - 1], j);
    }
  }

  lemma {:induction false} EncodedStrokeOccurs(pages: seq<Page>, i: nat, j: nat)
    requires i < |pages| && j < |pages[i].strokes|
    ensures EncodeStroke(pages[i].strokes[j]) in EncodePages(pages)
    decreases |pages|
  {
    var init := pages[..|pages| - 1];
    if i < |pages| - 1 {
      assert init[i] == pages[i];
      EncodedStrokeOccurs(init, i, j);
    } else {
      EncodedStrokeInPage(pages[i].strokes, j);
      assert EncodeStroke(pages[i].strokes[j]) in EncodePage(pages[i]);
    }
  }

  /** What saveMOJ writes, loadMOJ refuses exactly when some stroke is not `Accepted`, e.g. a stroke without points. */
  lemma {:induction false} SavedRejectedIff(defaults: PageDefaults, palette: ColorTable, pages: seq<Page>)
    ensures Readable(false, EncodeDocument(pages))
    ensures Fold(defaults, palette, [], EncodeDocument(pages)).Rejected? <==> !AllPagesAccepted(pages)
  {
    ReadableEncoded(pages);
    if AllPagesAccepted(pages) {
      LoadSaved(defaults, palette, pages);
    } else {
      var i, j :| 0 <= i < |pages| && 0 <= j < |pages[i].strokes| && !Accepted(pages[i].strokes[j]);
      var es := EncodeDocument(pages);
      EncodedStrokeOccurs(pages, i, j);
      DecodeEncodedStroke(palette, pages[i].strokes[j]);
      var k :| 0 <= k < |EncodePages(pages)| && EncodePages(pages)[k] == EncodeStroke(pages[i].strokes[j]);
      assert es[|HEADER| + k] == EncodeStroke(pages[i].strokes[j]);
      FoldRejectsIff(defaults, palette, [], es);
    }
  }

  lemma EncodePagesStep(pages: seq<Page>, i: nat)
    requires i < |pages|
    ensures EncodePages(pages[..i + 1]) == EncodePages(pages[..i]) + EncodePage(pages[i])
  {
    assert pages[..i + 1][..i] == pages[..i];
  }

  /** Appending the next page's elements extends the written document by that page. */
  lemma {:induction false} WrittenPagesStep(pages: seq<Page>, i: nat, written: seq<Element>, page: seq<Element>)
    requires i < |pages|
    requires written == HEADER + EncodePages(pages[..i])
    requires page == EncodePage(pages[i])
    ensures written + page == HEADER + EncodePages(pages[..i + 1])
  {
    EncodePagesStep(pages, i);
  }

  /** The writer's document: the header elements, then every page in order (document.cpp:479-551). */
  method WriteDocument(pages: seq<Page>) returns (written: seq<Element>)
    ensures written == EncodeDocument(pages)
  {
    written := HEADER;
    var i := 0;
    while i < |pages|
      invariant 0 <= i <= |pages|
      invariant written == HEADER + EncodePages(pages[..i])
    {
      var page := WritePage(pages[i]);
      WrittenPagesStep(pages, i, written, page);
      written := written + page;
      i := i + 1;
    }
    assert pages[..i] == pages;
  }

  /** A stroke the MrWriter format carries exactly. */
  predicate Exact(s: Stroke)
  {
    && WellFormed(s.color)
    && !s.pattern.Custom?
    && |s.pressures| == |s.points| >= 1
  }

  /** A page with a well-formed background whose strokes are all exact reads back as itself. */
  lemma {:induction false} ReloadedPageExact(palette: ColorTable, p: Page)
    requires WellFormed(p.background)
    requires forall j :: 0 <= j < |p.strokes| ==> Exact(p.strokes[j])
    ensures AllAccepted(p.strokes)
    ensures ReloadedPage(palette, p) == p
  {
    ColorRoundTrip(palette, p.background);
    forall j | 0 <= j < |p.strokes|
      ensures Accepted(p.strokes[j]) && ReloadedStroke(palette, p.strokes[j]) == p.strokes[j]
    {
      ColorRoundTrip(palette, p.strokes[j].color);
      StyleRoundTrip(p.strokes[j].pattern);
    }
    assert ReloadedStrokes(palette, p.strokes) == p.strokes;
  }

  /**
   * A document whose colours are well formed, whose patterns are the named
   * ones and whose strokes have one pressure per point and at least one
   * point comes back unchanged from saveMOJ and loadMOJ.
   */
  lemma {:induction false} LoadSavedExact(defaults: PageDefaults, palette: ColorTable, pages: seq<Page>)
    requires forall i :: 0 <= i < |pages| ==> WellFormed(pages[i].background)
    requires forall i, j :: 0 <= i < |pages| && 0 <= j < |pages[i].strokes| ==> Exact(pages[i].strokes[j])
    ensures Readable(false, EncodeDocument(pages))
    ensures Fold(defaults, palette, [], EncodeDocument(pages)) == Reading(pages)
  {
    forall i | 0 <= i < |pages|
      ensures AllAccepted(pages[i].strokes) && ReloadedPage(palette, pages[i]) == pages[i]
    {
      ReloadedPageExact(palette, pages[i]);
    }
    LoadSaved(defaults, palette, pages);
    assert ReloadedPages(palette, pages) == pages;
  }
}
