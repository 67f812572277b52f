/**
 * What the loaders and writers exchange with the file system, zlib and the
 * Qt XML stream classes, all of which are outside this model: the raw bytes
 * (only the first two are inspected), whether the file opens and inflates,
 * and the start elements the XML reader reports, already parsed.
 */
module Stream {
  import opened Model
  import opened Fields
  import opened Colors

  newtype Byte = b: int | 0 <= b < 0x100

  /** How a file's first two bytes are read. */
  datatype Encoding = TooShort | Gzip | Plain

  /**
   * The gzip test of both loaders (document.cpp:148-168, 337-357): fewer than
   * two bytes fail, the magic number 0x1f 0x8b of RFC 1952 section 2.3.1
   * selects decompression, anything else is read as plain XML.
   */
  function Detect(bytes: seq<Byte>): (enc: Encoding)
    ensures enc == TooShort <==> |bytes| < 2
    ensures enc == Gzip <==> |bytes| >= 2 && bytes[0] == 0x1f && bytes[1] == 0x8b
    ensures enc == Plain <==> |bytes| >= 2 && !(bytes[0] == 0x1f && bytes[1] == 0x8b)
  {
    var head := bytes[..if |bytes| < 2 then |bytes| else 2];
    if |head| == 2 then
      if head[0] == 0x1f && head[1] == 0x8b then Gzip else Plain
    else TooShort
  }

  /**
   * A start element, with its attributes as the loaders use them. An absent
   * attribute reads as "", i.e. `BLANK` or the empty string.
   */
  datatype Element =
    | PageElem(width: real, height: real)
    | BackgroundElem(color: string)
    | StrokeElem(tool: string, color: string, style: string, strokeWidth: Text, pressures: Text, text: Text)
    | Other(name: string)

  /** A file offered to a loader. */
  datatype FileInput = FileInput(
    opens: bool,               // QFile::open succeeds
    bytes: seq<Byte>,          // the file's content as stored
    inflates: bool,            // QCompressor::gzipDecompress succeeds (asked only for gzip input)
    elements: seq<Element>,    // the start elements the reader reports, in document order
    xmlError: bool)            // QXmlStreamReader::hasError() once the reader is at its end

  /** The loaders clear the page list and run their loop exactly when this holds. */
  predicate ReachesLoop(f: FileInput)
  {
    f.opens && Detect(f.bytes) != TooShort && (Detect(f.bytes) == Gzip ==> f.inflates)
  }

  /** A file offered to a writer. */
  datatype SaveTarget = SaveTarget(
    opens: bool,               // QFile::open for writing succeeds
    writerError: bool)         // QXmlStreamWriter::hasError() after the document is written

  predicate IsPen(e: Element)
  {
    e.StrokeElem? && e.tool == "pen"
  }

  /**
   * The elements both writers emit ahead of a page's strokes
   * (document.cpp:269-276, 493-500); the background's "type" and "style"
   * attributes are constant and no loader reads them.
   */
  function PageHead(p: Page): seq<Element>
  {
    [PageElem(p.width, p.height), BackgroundElem(ToRGBA(HexArgb(p.background))), Other("layer")]
  }

  /** A page element appends a default page of the given size (document.cpp:177-187, 375-385). */
  function OpenPage(defaults: PageDefaults, pages: seq<Page>, width: real, height: real): seq<Page>
  {
    pages + [Page(width, height, defaults.background, [])]
  }

  /** A background element recolours the last page (document.cpp:188-194, 386-392). */
  function PaintBackground(palette: ColorTable, pages: seq<Page>, color: string): seq<Page>
    requires pages != []
  {
    pages[|pages| - 1 := pages[|pages| - 1].(background := ColorOf(palette, color))]
  }

  /** A loaded stroke goes to the end of the last page (document.cpp:223, 445). */
  function AddStroke(pages: seq<Page>, s: Stroke): seq<Page>
    requires pages != []
  {
    pages[|pages| - 1 := pages[|pages| - 1].(strokes := pages[|pages| - 1].strokes + [s])]
  }
}
