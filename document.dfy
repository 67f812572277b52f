/**
 * `MrDoc::Document` (document.cpp): the page list and the changed flag, the
 * loaders and writers of both file formats, and the colour lookup they use.
 * Each loader and writer is proved against the matching fold or encoding of
 * its format module, whose round trips are proved there.
 */
module MrDoc {
  import opened Model
  import opened Fields
  import opened Colors
  import opened Stream
  import Xoj
  import Moj

  class Document {
    /** The pages, in order. */
    var pages: seq<Page>
    /** Whether there are changes that have not been saved. */
    var documentChanged: bool
    /** What a default-constructed page holds. */
    const defaults: PageDefaults
    /** The standard colour tables `stringToColor` searches. */
    const palette: ColorTable

    /** A new document holds exactly one default page and is unchanged (document.cpp:48-56). */
    constructor (defaults: PageDefaults, palette: ColorTable)
      ensures this.defaults == defaults && this.palette == palette
      ensures pages == [BlankPage(defaults)]
      ensures !documentChanged
    {
      this.defaults := defaults;
      this.palette := palette;
      pages := [];
      new;
      var i := 0;
      while i < 1
        invariant 0 <= i <= 1
        invariant pages == seq(i, _ => BlankPage(defaults))
      {
        pages := pages + [BlankPage(defaults)];
        i := i + 1;
      }
      SetDocumentChanged(false);
    }

    /** document.cpp:594-597 */
    method GetDocumentChanged() returns (changed: bool)
      ensures changed == documentChanged
    {
      changed := documentChanged;
    }

    /** document.cpp:599-602 */
    method SetDocumentChanged(changed: bool)
      modifies this
      ensures documentChanged == changed
      ensures pages == old(pages)
    {
      documentChanged := changed;
    }

    /** The colour an attribute names (document.cpp:638-654). */
    method StringToColor(colorString: string) returns (color: Color)
      ensures color == ColorOf(palette, colorString)
    {
      color := Invalid;
      if |colorString| >= 1 && colorString[0] == '#' {
        color := FromName(ToARGB(colorString));
      } else {
        var i := 0;
        while i < |palette.colors|
          invariant 0 <= i <= |palette.colors|
          invariant color == var k := LastMatch(palette.names[..i], colorString); if k >= 0 then palette.colors[k] else Invalid
        {
          if palette.names[i] == colorString {
            color := palette.colors[i];
          }
          assert palette.names[..i + 1][..i] == palette.names[..i];
          i := i + 1;
        }
        assert palette.names[..i] == palette.names;
      }
    }

    /** A pen stroke element of a Xournal file (document.cpp:199-222). */
    method ReadXojStroke(e: Element) returns (s: Stroke)
      requires IsPen(e) && Xoj.PenWidthNonzero(e)
      ensures s == Xoj.DecodeStroke(palette, e)
    {
      var color := StringToColor(e.color);
      var penWidth := ToDouble(e.strokeWidth[0]);
      var pressures := Xoj.ReadPressures(e.strokeWidth);
      var points := ReadPoints(e.text);
      pressures := Xoj.PadPressures(pressures, |points|);
      s := Stroke(points, pressures, penWidth, color, Solid);
    }

    /**
     * A pen stroke element of a MrWriter file (document.cpp:397-444): the
     * stroke, and whether its pressure count matches its point count.
     */
    method ReadMojStroke(e: Element) returns (s: Stroke, accepted: bool)
      requires IsPen(e)
      ensures accepted <==> !Moj.Rejects(e)
      ensures accepted ==> |s.pressures| == |s.points|
      ensures s == Moj.DecodeStroke(palette, e)
    {
      var color := StringToColor(e.color);
      var pattern := Moj.StyleToPattern(e.style);
      var penWidth := Number(e.strokeWidth);
      var points := ReadPoints(Trim(e.text));
      var pressures := Moj.ReadPressures(e.pressures);
      accepted := |pressures| == |points|;
      s := Stroke(points, pressures, penWidth, color, pattern);
    }

    /** One pass of loadXOJ's loop over the elements (document.cpp:177-227). */
    method ReadXojElement(pages: seq<Page>, e: Element) returns (next: seq<Page>)
      requires Xoj.NeedsPage(e) ==> pages != []
      requires Xoj.PenWidthNonzero(e)
      ensures next == Xoj.Step(defaults, palette, pages, e)
    {
      next := pages;
      match e {
        case PageElem(width, height) =>
          next := next + [Page(width, height, defaults.background, [])];
        case BackgroundElem(color) =>
          var c := StringToColor(color);
          next := next[|next| - 1 := next[|next| - 1].(background := c)];
        case StrokeElem(tool, _, _, _, _, _) =>
          if tool == "pen" {
            var s := ReadXojStroke(e);
            next := next[|next| - 1 := next[|next| - 1].(strokes := next[|next| - 1].strokes + [s])];
          }
        case Other(_) =>
      }
    }

    /**
     * One pass of loadMOJ's loop over the elements (document.cpp:366-449):
     * false when a pen stroke's pressure count differs from its point count,
     * which leaves the pages as they were.
     */
    method ReadMojElement(pages: seq<Page>, e: Element) returns (next: seq<Page>, accepted: bool)
      requires Moj.NeedsPage(e) ==> pages != []
      ensures accepted <==> Moj.Step(defaults, palette, pages, e).Reading?
      ensures next == Moj.Step(defaults, palette, pages, e).pages
    {
      next := pages;
      accepted := true;
      match e {
        case PageElem(width, height) =>
          next := next + [Page(width, height, defaults.background, [])];
        case BackgroundElem(color) =>
          var c := StringToColor(color);
          next := next[|next| - 1 := next[|next| - 1].(background := c)];
        case StrokeElem(tool, _, _, _, _, _) =>
          if tool == "pen" {
            var s;
            s, accepted := ReadMojStroke(e);
            if accepted {
              next := next[|next| - 1 := next[|next| - 1].(strokes := next[|next| - 1].strokes + [s])];
            }
          }
        case Other(_) =>
      }
    }

    /**
     * document.cpp:137-243. Once the file has opened and its first two bytes
     * have been read (and inflated, for gzip), the pages are replaced by what
     * the elements describe, even if the reader then reports an error; only
     * success marks the document changed.
     */
    method LoadXOJ(f: FileInput) returns (ok: bool)
      requires ReachesLoop(f) ==> Xoj.Readable(false, f.elements)
      modifies this
      ensures !ReachesLoop(f) ==> !ok && pages == old(pages)
      ensures ReachesLoop(f) ==> pages == Xoj.Fold(defaults, palette, [], f.elements) && (ok <==> !f.xmlError)
      ensures documentChanged == if ok then true else old(documentChanged)
    {
      if !f.opens {
        return false;
      }
      var encoding := Detect(f.bytes);
      if encoding == TooShort || (encoding == Gzip && !f.inflates) {
        return false;
      }
      pages := [];
      var es := f.elements;
      var i := 0;
      while i < |es|
        invariant 0 <= i <= |es|
        invariant Xoj.Readable(pages != [], es[i..])
        invariant Xoj.Fold(defaults, palette, pages, es[i..]) == Xoj.Fold(defaults, palette, [], es)
        invariant documentChanged == old(documentChanged)
      {
        Xoj.FoldFrom(defaults, palette, pages, es, i);
        pages := ReadXojElement(pages, es[i]);
        i := i + 1;
      }
      assert es[i..] == [];
      if f.xmlError {
        return false;
      }
      SetDocumentChanged(true);
      return true;
    }

    /**
     * document.cpp:245-324: the elements written, in order, when the file
     * opens. The changed flag is left as it is.
     */
    method SaveXOJ(target: SaveTarget) returns (ok: bool, written: seq<Element>)
      ensures ok <==> target.opens && !target.writerError
      ensures written == if target.opens then Xoj.EncodeDocument(pages) else []
    {
      if !target.opens {
        return false, [];
      }
      written := Xoj.WriteDocument(pages);
      ok := !target.writerError;
    }

    /**
     * document.cpp:326-463. As for Xournal, but a stroke whose pressure
     * count differs from its point count ends the load with false, leaving
     * the pages read so far in place of the old ones. The changed flag is
     * never touched.
     */
    method LoadMOJ(f: FileInput) returns (ok: bool)
      requires ReachesLoop(f) ==> Moj.Readable(false, f.elements)
      modifies this
      ensures !ReachesLoop(f) ==> !ok && pages == old(pages)
      ensures ReachesLoop(f) ==> pages == Moj.Fold(defaults, palette, [], f.elements).pages
      ensures ReachesLoop(f) ==> (ok <==> Moj.Fold(defaults, palette, [], f.elements).Reading? && !f.xmlError)
      ensures documentChanged == old(documentChanged)
    {
      if !f.opens {
        return false;
      }
      var encoding := Detect(f.bytes);
      if encoding == TooShort || (encoding == Gzip && !f.inflates) {
        return false;
      }
      pages := [];
      var es := f.elements;
      var i := 0;
      while i < |es|
        invariant 0 <= i <= |es|
        invariant Moj.Readable(pages != [], es[i..])
        invariant Moj.Fold(defaults, palette, pages, es[i..]) == Moj.Fold(defaults, palette, [], es)
        invariant documentChanged == old(documentChanged)
      {
        Moj.FoldFrom(defaults, palette, pages, es, i);
        var accepted;
        pages, accepted := ReadMojElement(pages, es[i]);
        if !accepted {
          return false;
        }
        i := i + 1;
      }
      assert es[i..] == [];
      ok := !f.xmlError;
    }

    /**
     * document.cpp:465-569: the elements written, in order, when the file
     * opens; success marks the document unchanged.
     */
    method SaveMOJ(target: SaveTarget) returns (ok: bool, written: seq<Element>)
      modifies this
      ensures pages == old(pages)
      ensures ok <==> target.opens && !target.writerError
      ensures written == if target.opens then Moj.EncodeDocument(pages) else []
      ensures documentChanged == if ok then false else old(documentChanged)
    {
      if !target.opens {
        return false, [];
      }
      written := Moj.WriteDocument(pages);
      ok := !target.writerError;
      if ok {
        SetDocumentChanged(false);
      }
    }
  }
}
