/**
 * Colour strings: the reordering between Qt's `#AARRGGBB` names and the
 * `#RRGGBBAA` form both file formats store, and the lookup `stringToColor`
 * does on a colour attribute.
 */
module Colors {
  import opened Model

  /** `#RRGGBBAA` to `#AARRGGBB`: the alpha pair moves to the front; any length but 9 gives "". */
  function ToARGB(rgba: string): (argb: string)
    ensures |rgba| != 9 <==> argb == ""
    ensures |rgba| == 9 ==> |argb| == 9 && argb[0] == '#'
  {
    if |rgba| == 9 then "#" + rgba[7..9] + rgba[1..7] else ""
  }

  /** `#AARRGGBB` to `#RRGGBBAA`: the alpha pair moves to the back; any length but 9 gives "". */
  function ToRGBA(argb: string): (rgba: string)
    ensures |argb| != 9 <==> rgba == ""
    ensures |argb| == 9 ==> |rgba| == 9 && rgba[0] == '#'
  {
    if |argb| == 9 then "#" + argb[3..9] + argb[1..3] else ""
  }

  /**
   * Reordering to RGBA and back restores exactly the empty string and the
   * 9-character strings that start with '#': the leading character is not
   * copied but rewritten as '#'.
   */
  lemma {:induction false} ToARGBUndoesToRGBA(s: string)
    ensures ToARGB(ToRGBA(s)) == s <==> s == "" || (|s| == 9 && s[0] == '#')
  {
    if |s| == 9 {
      var mid := ToRGBA(s);
      assert mid[7..9] == s[1..3] && mid[1..7] == s[3..9];
      var back := ToARGB(mid);
      assert back == "#" + s[1..3] + s[3..9];
      assert back[1..9] == s[1..3] + s[3..9] == s[1..9];
      if s[0] == '#' {
        assert back == [s[0]] + s[1..9] == s;
      }
    }
  }

  /** The same in the other direction. */
  lemma {:induction false} ToRGBAUndoesToARGB(s: string)
    ensures ToRGBA(ToARGB(s)) == s <==> s == "" || (|s| == 9 && s[0] == '#')
  {
    if |s| == 9 {
      var mid := ToARGB(s);
      assert mid[1..3] == s[7..9] && mid[3..9] == s[1..7];
      var back := ToRGBA(mid);
      assert back == "#" + s[1..7] + s[7..9];
      assert back[1..9] == s[1..7] + s[7..9] == s[1..9];
      if s[0] == '#' {
        assert back == [s[0]] + s[1..9] == s;
      }
    }
  }

  /** A colour whose `#AARRGGBB` name is well formed enough for the round trip through a file. */
  predicate WellFormed(c: Color)
  {
    c.Argb? && |c.name| == 9 && c.name[0] == '#'
  }

  /**
   * `QColor::name(QColor::HexArgb)`. An invalid QColor has zero colour
   * components and a full alpha channel, so Qt names it "#ff000000".
   */
  function HexArgb(c: Color): string
  {
    match c
    case Invalid => "#ff000000"
    case Argb(name) => name
  }

  /** `QColor(name)`: the empty name gives an invalid colour. QColor's own parsing is not part of this model. */
  function FromName(name: string): Color
  {
    if name == "" then Invalid else Argb(name)
  }

  /** The last index at which `names` holds `s`, or -1 when it holds it nowhere. */
  function LastMatch(names: seq<string>, s: string): (k: int)
    ensures -1 <= k < |names|
    ensures k == -1 <==> s !in names
    ensures k >= 0 ==> names[k] == s && forall j :: k < j < |names| ==> names[j] != s
    decreases |names|
  {
    if names == [] then -1
    else if names[|names| - 1] == s then |names| - 1
    else LastMatch(names[..|names| - 1], s)
  }

  /**
   * `Document::stringToColor` as a value: a string starting with '#' is
   * reordered from RGBA to ARGB and handed to QColor; any other string is
   * looked up in the colour tables, where the last matching name wins and no
   * match leaves the default (invalid) colour.
   */
  function ColorOf(palette: ColorTable, s: string): Color
  {
    if |s| >= 1 && s[0] == '#' then FromName(ToARGB(s))
    else
      var k := LastMatch(palette.names, s);
      if k >= 0 then palette.colors[k] else Invalid
  }

  /** A well-formed colour written as `toRGBA(name)` reads back as itself, whatever the tables hold. */
  lemma {:induction false} ColorRoundTrip(palette: ColorTable, c: Color)
    requires WellFormed(c)
    ensures ColorOf(palette, ToRGBA(HexArgb(c))) == c
  {
    ToARGBUndoesToRGBA(c.name);
  }
}
