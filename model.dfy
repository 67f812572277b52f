/**
 * The in-memory document of MrWriter (namespace MrDoc): pages that own
 * strokes, and the attributes the serialisation layer reads and writes.
 */
module Model {

  /**
   * A colour. `Argb(name)` is the colour QColor builds from a name, kept as
   * the `#AARRGGBB` name it reports back; `Invalid` is a default-constructed
   * QColor, which is what `stringToColor` returns when nothing matches.
   */
  datatype Color = Invalid | Argb(name: string)

  /**
   * A stroke's dash pattern. The first four are MrWriter's named pattern
   * constants; `Custom` stands for any other dash vector a stroke may carry.
   */
  datatype LinePattern = Solid | Dash | DashDot | Dot | Custom(dashes: seq<real>)

  datatype Point = Point(x: real, y: real)

  /** A pen stroke: its points, one pressure per point (nominally), pen width, colour and pattern. */
  datatype Stroke = Stroke(
    points: seq<Point>,
    pressures: seq<real>,
    penWidth: real,
    color: Color,
    pattern: LinePattern)

  /** A page: its size, background colour and strokes in drawing order. */
  datatype Page = Page(width: real, height: real, background: Color, strokes: seq<Stroke>)

  /**
   * What a default-constructed Page holds. page.h is not part of this model,
   * so these values are given to the Document rather than fixed here.
   */
  datatype PageDefaults = PageDefaults(width: real, height: real, background: Color)

  function BlankPage(d: PageDefaults): Page
  {
    Page(d.width, d.height, d.background, [])
  }

  /**
   * The parallel tables `standardColorNames` / `standardColors` that
   * `stringToColor` searches. Their contents are not part of this model.
   */
  datatype Palette = Palette(names: seq<string>, colors: seq<Color>)

  type ColorTable = p: Palette | |p.names| == |p.colors| witness Palette([], [])
}
