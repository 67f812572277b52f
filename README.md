# MrWriter document serialisation, modelled in Dafny

MrWriter is a pen-based note-taking program. Its `MrDoc::Document`
(document.cpp) holds a list of pages, each with pen strokes. It reads and
writes them in two XML formats: Xournal (`.xoj`) and MrWriter's own `.moj`.
This project models:

- the document object: its page list, its "changed" flag, the constructor
  and the flag accessors;
- the colour strings: the `#AARRGGBB` to `#RRGGBBAA` reordering and the
  `stringToColor` lookup;
- both loaders, as loops that fold parsed start elements into pages;
- both writers, as loops that emit those elements;
- the text encodings inside an element: point lists, Xournal's per-segment
  widths, MrWriter's per-point pressures and line-pattern names;
- the two-byte gzip test.

The XML reader and writer, files and zlib are outside the model. A loader
gets a `Stream.FileInput`, which holds whether the file opens, its bytes,
whether inflation succeeds, the start elements the reader reports, and
whether the reader ends in error. A writer gets a `Stream.SaveTarget` and
returns the start elements it emits. An attribute or element text appears
the way the loaders see it after `split(" ")`, as a list of fields
(`Fields.Text`). Numbers are exact reals.

Modules:

- `Model`: pages, strokes, colours, patterns.
- `Colors`: colour strings.
- `Fields`: split text, trimming, point lists.
- `Stream`: gzip test, elements, and the page-level steps both loaders share.
- `Xoj`: the Xournal format.
- `Moj`: the MrWriter format.
- `MrDoc`: the `Document` class, whose methods are proved against the
  functions of the format modules.

Main results:

- **Xournal pressures.** Saving then loading reproduces every written
  segment width. It recovers the pressures exactly if and only if the first
  pressure is 1. Otherwise every pressure is off by `±(p[0] - 1)`, with
  alternating sign.
- **Round trips.** Either loader reads back what its writer wrote, page by
  page and stroke by stroke. Documents in the exact subset come back equal,
  given exact number formatting and colour naming (see "## Left out").
- **MrWriter rejection.** A `.moj` load stops exactly when some pen stroke
  has a pressure count different from its point count. The load is not
  atomic: the pages read before that stroke replace the old ones. Since
  `saveMOJ` writes a stroke with no points as an empty pressure list, which
  reads back as one pressure, a saved document with such a stroke is
  refused on reload.
- **The changed flag.** A new document is unchanged. A successful `loadXOJ`
  marks it changed. A successful `saveMOJ` marks it unchanged. `saveXOJ`
  and `loadMOJ` leave it alone.

Two behaviours of the code are worth knowing:

- The loaders clear the page list, so a file without a `page` element
  leaves the document with no pages.
- `saveXOJ` does not mark the document unchanged: the call at
  document.cpp:318 is commented out.

The members in the table below are proved against these reference
definitions, which restate the source directly and carry no contract of
their own:

- `Colors.ColorOf` is `stringToColor` (document.cpp:638-654).
- `Stream.OpenPage`, `Stream.PaintBackground` and `Stream.AddStroke` are
  what a page, background or pen stroke element does to the page list
  (document.cpp:177-194, 223 and 375-392, 445).
- `Stream.PageHead` is the elements a writer emits ahead of a page's
  strokes (document.cpp:269-276, 493-500).
- `Xoj.DecodeStroke` and `Moj.DecodeStroke` are the stroke each loader
  builds (document.cpp:199-222, 397-440).
- `Xoj.Fold` and `Moj.Fold` are the loaders' element loops
  (document.cpp:174-228, 363-450).
- `Xoj.EncodeStroke`, `Moj.EncodeStroke` and the `Encode*` functions
  beside them are the elements each writer emits (document.cpp:259-308,
  479-551).

## Model

| member | source | states |
|---|---|---|
| MrDoc.Document.constructor | document.cpp:48-56 | A new document holds exactly one default page and is not marked changed. |
| MrDoc.Document.GetDocumentChanged | document.cpp:594-597 | Returns the changed flag. |
| MrDoc.Document.SetDocumentChanged | document.cpp:599-602 | Sets the changed flag to the argument. The pages stay as they are. |
| Colors.ToARGB | document.cpp:604-619 | The result is "" exactly when the input is not 9 characters long. Otherwise it is 9 characters starting with '#'. |
| Colors.ToRGBA | document.cpp:621-636 | The same for the reordering to `#RRGGBBAA`. |
| Colors.ToARGBUndoesToRGBA | document.cpp:604-636 | `toARGB(toRGBA(s)) == s` holds exactly for "" and for 9-character strings starting with '#'. |
| Colors.ToRGBAUndoesToARGB | document.cpp:604-636 | `toRGBA(toARGB(s)) == s` holds for exactly the same strings. |
| Colors.LastMatch | document.cpp:645-651 | Returns the last index holding the name, or -1 exactly when the name is absent. |
| Colors.ColorRoundTrip | document.cpp:604-654 | A colour whose `#AARRGGBB` name is well formed reads back as itself from `toRGBA(name)`, whatever the colour tables hold. |
| MrDoc.Document.StringToColor | document.cpp:638-654 | A '#' string becomes the colour named by its ARGB reordering. Any other string takes the colour of the last matching table entry, or the invalid colour when none matches. |
| Stream.Detect | document.cpp:148-168 | Three outcomes, each stated as an iff: fewer than two bytes fail, `0x1f 0x8b` selects gzip, anything else is plain. |
| Fields.ReadPoints | document.cpp:213-218 | Yields floor(n/2) points. Point k is made of fields 2k and 2k+1. An odd trailing field is ignored. |
| Fields.WritePoints | document.cpp:294-300 | Writes each coordinate, x then y, followed by a space. |
| Fields.PairsOfFlatten | document.cpp:215-218 | Pairing the point fields written at lines 294-300 gives back the points, with or without one extra trailing field. |
| Fields.TrimWritten | document.cpp:529-543 | Trimming a written list of numbers removes only the trailing space. An empty list trims to "". |
| Fields.TrimIdempotent | document.cpp:425-431 | Trimming twice is trimming once. |
| Xoj.ReadPressures | document.cpp:205-212 | The first pressure is 1, and there is one pressure per field of the width attribute. Each adjacent pair, averaged and times the pen width, equals the next width field. Requires a nonzero pen width. |
| Xoj.Recover | document.cpp:208-212 | The pressures recovered from the widths after the pen width: one more than the widths, the first 1 (penWidth / penWidth). |
| Xoj.RecoverAt | document.cpp:208-212 | Recovered pressure k+1 is twice segment k's width over the pen width, minus pressure k. |
| Xoj.RecoverMeans | document.cpp:208-212 | Each adjacent pair of recovered pressures, averaged and times the pen width, gives back its segment's width. |
| Xoj.RecoverReproducesWidths | document.cpp:208-212 | The pressures recovered from any widths, written again as at lines 286-292, rewrite to exactly those widths. |
| Xoj.RecoverFromWidths | document.cpp:208-212 | Saving pressures as widths (lines 286-292) and reloading them gives `p[k] + (1 - p[0])` for even k and `p[k] - (1 - p[0])` for odd k. |
| Xoj.RecoverExact | document.cpp:208-212 | Pressures saved as widths (lines 286-292) come back exactly if and only if `p[0] == 1`. |
| Xoj.PadPressures | document.cpp:219-222 | The result keeps the pressures as a prefix, fills the rest with 1.0, and has length max(points, pressures). Surplus pressures are kept. |
| Xoj.WriteWidths | document.cpp:283-293 | Writes the pen width, then for segment k the value `0.5*(p[k]+p[k+1])*penWidth`. |
| Xoj.DecodeEncodedStroke | document.cpp:199-222 | A stroke written as at lines 280-301 reads back with the same points and pen width, pressures recovered from its widths and padded, its colour round-tripped, and the solid pattern. |
| Xoj.Step | document.cpp:177-227 | One loop pass. Only a page element adds a page. Every page but the last stays as it was. A pen stroke is appended to the last page's strokes. An element that is not a page, background or pen stroke changes nothing. |
| Xoj.ReadableJoin | document.cpp:188-223 | Two inputs that each keep a page ahead of every background and stroke, and carry no zero pen width, still do so when joined. |
| Xoj.FoldAppend | document.cpp:174-228 | Loading a + b means loading a, then loading b from the pages a left. |
| Xoj.FoldPage | document.cpp:177-227 | Loading one page written as at lines 269-305 appends that page as it reads back. |
| Xoj.WriteStroke | document.cpp:280-301 | Emits the stroke element: tool "pen", RGBA colour, width attribute, point text. |
| Xoj.WritePage | document.cpp:269-305 | Emits the page, background and layer elements, then every stroke in order. |
| Xoj.WriteDocument | document.cpp:259-308 | Emits the header elements, then every page in order. |
| Xoj.LoadSaved | document.cpp:137-324 | `loadXOJ` on what `saveXOJ` wrote gives every page back, stroke by stroke, as it reads back. Requires nonzero pen widths. |
| Xoj.LoadSavedExact | document.cpp:137-324 | A document with well-formed colours whose strokes are solid, start at pressure 1 and have a pressure for every point comes back unchanged. |
| Moj.StyleToPattern | document.cpp:403-421 | Never yields a custom pattern. Yields solid exactly when the style is not "dash", "dashdot" or "dot". |
| Moj.PatternToStyle | document.cpp:507-526 | Always writes one of the four names. Writes "solid" exactly for the solid pattern and for any unnamed pattern. |
| Moj.StyleRoundTrip | document.cpp:507-526 | Each named pattern survives save then load. Any other pattern comes back solid. |
| Moj.PatternRoundTrip | document.cpp:403-421 | A style survives load then save exactly when it is one of the four names. Any other style is saved as "solid". |
| Moj.ReadPressures | document.cpp:430-440 | One pressure per field of the trimmed attribute, so at least one. The empty-list fallback at lines 434-437 is unreachable and is an `assert false`. |
| Moj.WritePressures | document.cpp:529-533 | Writes each pressure followed by a space. |
| Moj.Step | document.cpp:366-449 | One loop pass. It rejects exactly on a pen stroke whose pressure count differs from its point count, and then leaves the pages as they were. Only a page element changes the page count. |
| Moj.FoldRejectsIff | document.cpp:441-444 | The load stops with a rejection if and only if some pen stroke of the input has mismatched counts. |
| Moj.RejectionKeepsPartialPages | document.cpp:359-445 | When the first rejected stroke follows accepted elements, the result holds the pages those elements built. The old pages are lost. |
| Moj.FoldKeepsPressurePerPoint | document.cpp:441-445 | Every stroke in the loaded pages has one pressure per point, whether the load finishes or stops. |
| Moj.FoldAppend | document.cpp:363-450 | Loading a + b means loading a, then, unless a stroke of a was refused, loading b from where a left off. |
| Moj.DecodeEncodedStroke | document.cpp:393-444 | A stroke written as at lines 504-544 is refused exactly when it is not accepted. An accepted one reads back with the same points and pen width and its colour and pattern round-tripped. |
| Moj.EmptyStrokeRejected | document.cpp:430-444 | A stroke without points or pressures, once written as at lines 529-534, is refused by the loader. |
| Moj.WriteStroke | document.cpp:504-544 | Emits the stroke element: tool, colour, style, width, trimmed pressures, trimmed points. |
| Moj.WritePage | document.cpp:493-548 | Emits the page, background and layer elements, then every stroke in order. |
| Moj.WriteDocument | document.cpp:479-551 | Emits the header elements, then every page in order. |
| Moj.LoadSaved | document.cpp:326-569 | When every written stroke is accepted, `loadMOJ` on what `saveMOJ` wrote succeeds and gives every page back as it reads back. |
| Moj.SavedRejectedIff | document.cpp:326-569 | `loadMOJ` refuses what `saveMOJ` wrote if and only if some stroke is not accepted. |
| Moj.LoadSavedExact | document.cpp:326-569 | A document with well-formed colours, named patterns, and at least one point and one pressure per point in every stroke comes back unchanged. |
| MrDoc.Document.ReadXojStroke | document.cpp:199-222 | Builds the stroke the Xournal format describes: colour, pen width, recovered and padded pressures, points, solid pattern. |
| MrDoc.Document.ReadMojStroke | document.cpp:397-444 | Builds the stroke the MrWriter format describes. Accepts it exactly when its pressure count equals its point count. |
| MrDoc.Document.ReadXojElement | document.cpp:177-227 | A page element appends a default page of the given size. A background element recolours the last page. A pen stroke goes to the end of the last page. Anything else is skipped. |
| MrDoc.Document.ReadMojElement | document.cpp:375-449 | As for Xournal, except that a pen stroke with mismatched counts reports a refusal and leaves the pages unchanged. |
| MrDoc.Document.LoadXOJ | document.cpp:137-243 | Fails without touching the pages when the file does not open, has fewer than two bytes, or does not inflate. Otherwise the pages become the fold of the elements. It succeeds exactly when the reader reports no error, and only success marks the document changed. |
| MrDoc.Document.SaveXOJ | document.cpp:245-324 | Succeeds exactly when the file opens and the writer reports no error. Emits the encoded document when the file opens. Leaves the changed flag alone. |
| MrDoc.Document.LoadMOJ | document.cpp:326-463 | Same opening conditions. The pages become the fold up to the first refused stroke. It succeeds exactly when nothing was refused and the reader reports no error. The changed flag is never touched. |
| MrDoc.Document.SaveMOJ | document.cpp:465-569 | Same success condition and output as `SaveXOJ`. Success marks the document unchanged. |

## Left out

- The copy constructor, `setDocName`/`getDocName`, `setPath`/`getPath`, and the `path`/`docName` updates after a load or save. These are file-name bookkeeping through `QFileInfo`.
- `exportPDF` and `paintPage`: printer and painter output.
- widget.h, tabletapplication.cpp, markdownbox.cpp and document.h. They are declarations or user-interface plumbing without serialisation logic.
- File opening, reading and writing, zlib inflation, and XML tokenising and escaping. These are inputs (`Stream.FileInput`, `Stream.SaveTarget`). The reader is assumed to report exactly the start elements the writer emits.
- `QString::number` and `toDouble`. Numbers are exact reals. A field that is not a number reads as 0.0. Floating-point rounding, NaN and infinities are not modelled. `QString::number(double)` writes only 6 significant digits by default, so in the program `Xoj.LoadSavedExact`, `Moj.LoadSavedExact` and the other round trips hold only for values that survive that formatting.
- Whitespace other than single spaces. `saveXOJ`'s auto-formatted output is taken to deliver the width and point text exactly as built.
- `QColor`'s parsing of a colour name, and the contents of the standard colour tables. The tables are a parameter.
- Colors.FromName: every non-empty name is taken as the colour QColor reports under that same name. Qt rejects malformed names such as "#ZZZZZZZZ" and reports hex digits in lower case. `Colors.ColorRoundTrip`, `Xoj.LoadSavedExact` and `Moj.LoadSavedExact` rely on this identity, so they hold in the program only for names in Qt's lower-case `#aarrggbb` form.
- The `page.h` defaults of a new page. They are a parameter.
- The document-version attributes. `saveMOJ` writes "docversion" and `loadMOJ` reads "document-version", but no code acts on either.
- The `qDebug` stroke counter.
- Xoj.Readable: `loadXOJ` is modelled only on inputs where a page element precedes every background and pen stroke, as `pages.last()` is undefined otherwise. Pen widths must also be nonzero, since the recurrence divides by the pen width.
- Moj.Readable: the same page-first precondition, up to the first refused stroke.
- Custom dash patterns: `Model.LinePattern.Custom` stands for any pattern other than the four named ones. Its contents are not modelled.
