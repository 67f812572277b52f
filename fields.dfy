/**
 * Attribute values and element text as the loaders see them after
 * `QString::split(" ")`: a list of fields, each a number, some other word,
 * or the empty word that a leading, trailing or doubled space leaves. The
 * writers build the same strings by appending numbers and spaces.
 *
 * Number formatting (`QString::number`) and parsing (`toDouble`) are taken as
 * exact: a number field holds its value.
 */
module Fields {
  import opened Model

  datatype Field = Num(value: real) | Word | Empty

  /** A string split on " ": never an empty list, since even "" splits to one empty field. */
  type Text = t: seq<Field> | |t| > 0 witness [Empty]

  /** `QString::toDouble` on one field: 0.0 when the field is not a number. */
  function ToDouble(f: Field): real
  {
    if f.Num? then f.value else 0.0
  }

  function Values(fs: seq<Field>): seq<real>
  {
    seq(|fs|, i requires 0 <= i < |fs| => ToDouble(fs[i]))
  }

  function Nums(xs: seq<real>): seq<Field>
  {
    seq(|xs|, i requires 0 <= i < |xs| => Num(xs[i]))
  }

  lemma ValuesOfNums(xs: seq<real>)
    ensures Values(Nums(xs)) == xs
  {
  }

  /** The string "". */
  const BLANK: Text := [Empty]

  /** Appending a number to a string that is empty or ends in a space. */
  function AppendNumber(t: Text, v: real): Text
    requires t[|t| - 1] == Empty
  {
    t[..|t| - 1] + [Num(v)]
  }

  /** Appending " ". */
  function AppendSpace(t: Text): Text
  {
    t + [Empty]
  }

  /**
   * `QString::trimmed` seen field-wise: the empty fields that leading and
   * trailing spaces leave are removed, and a string of spaces becomes "".
   */
  function Trim(t: Text): (r: Text)
    ensures |r| <= |t|
    decreases |t|
  {
    if |t| >= 2 && t[0] == Empty then Trim(t[1..])
    else if |t| >= 2 && t[|t| - 1] == Empty then Trim(t[..|t| - 1])
    else t
  }

  /** A trimmed string is "" or starts and ends with a non-empty field. */
  lemma {:induction false} TrimEnds(t: Text)
    ensures Trim(t) == BLANK || (Trim(t)[0] != Empty && Trim(t)[|Trim(t)| - 1] != Empty)
    decreases |t|
  {
    if |t| >= 2 && t[0] == Empty {
      TrimEnds(t[1..]);
    } else if |t| >= 2 && t[|t| - 1] == Empty {
      TrimEnds(t[..|t| - 1]);
    }
  }

  /** Trimming a trimmed string changes nothing. */
  lemma {:induction false} TrimIdempotent(t: Text)
    ensures Trim(Trim(t)) == Trim(t)
  {
    TrimEnds(t);
  }

  /** Trimming the string "n1 n2 ... nk " removes exactly the trailing space. */
  lemma {:induction false} TrimWritten(fs: seq<Field>)
    requires forall i :: 0 <= i < |fs| ==> fs[i].Num?
    ensures Trim(fs + [Empty]) == if fs == [] then BLANK else fs
  {
    var t: Text := fs + [Empty];
    if fs != [] {
      assert t[0] == fs[0];
      assert t[..|t| - 1] == fs;
      assert fs[|fs| - 1].Num?;
    }
  }

  /**
   * `QString::toDouble` on a whole attribute: surrounding spaces are allowed,
   * anything but a single number gives 0.0.
   */
  function Number(t: Text): real
  {
    var c := Trim(t);
    if |c| == 1 then ToDouble(c[0]) else 0.0
  }

  lemma NumberOfWritten(v: real)
    ensures Number([Num(v)]) == v
  {
  }

  /** Point k is made of fields 2k and 2k+1; an odd trailing field is ignored. */
  function Pairs(fs: seq<Field>): seq<Point>
  {
    seq(|fs| / 2, k requires 0 <= k < |fs| / 2 => Point(ToDouble(fs[2 * k]), ToDouble(fs[2 * k + 1])))
  }

  /** The fields of "x1 y1 x2 y2 ...", without the trailing space. */
  function Flatten(ps: seq<Point>): seq<Field>
    decreases |ps|
  {
    if ps == [] then [] else Flatten(ps[..|ps| - 1]) + [Num(ps[|ps| - 1].x), Num(ps[|ps| - 1].y)]
  }

  lemma {:induction false} FlattenAt(ps: seq<Point>, k: int)
    ensures |Flatten(ps)| == 2 * |ps|
    ensures forall i :: 0 <= i < |Flatten(ps)| ==> Flatten(ps)[i].Num?
    ensures 0 <= k < |ps| ==> Flatten(ps)[2 * k] == Num(ps[k].x) && Flatten(ps)[2 * k + 1] == Num(ps[k].y)
    decreases |ps|
  {
    if ps != [] {
      var init := ps[..|ps| - 1];
      FlattenAt(init, k);
      if 0 <= k < |ps| - 1 {
        assert init[k] == ps[k];
      }
    }
  }

  /** Pairing the written point fields gives back the points, with or without one trailing field. */
  lemma {:induction false} PairsOfFlatten(ps: seq<Point>, tail: seq<Field>)
    requires |tail| < 2
    ensures Pairs(Flatten(ps) + tail) == ps
  {
    var fs := Flatten(ps) + tail;
    FlattenAt(ps, 0);
    assert |fs| / 2 == |ps|;
    forall k | 0 <= k < |ps|
      ensures Pairs(fs)[k] == ps[k]
    {
      FlattenAt(ps, k);
    }
  }

  /** The pairing loop of both loaders (document.cpp:215-218, 426-429). */
  method ReadPoints(fs: seq<Field>) returns (pts: seq<Point>)
    ensures |pts| == |fs| / 2
    ensures forall k :: 0 <= k < |pts| ==> pts[k] == Point(ToDouble(fs[2 * k]), ToDouble(fs[2 * k + 1]))
    ensures pts == Pairs(fs)
  {
    pts := [];
    var i := 0;
    while i + 1 < |fs|
      invariant i == 2 * |pts| && i <= |fs|
      invariant forall k :: 0 <= k < |pts| ==> pts[k] == Point(ToDouble(fs[2 * k]), ToDouble(fs[2 * k + 1]))
    {
      pts := pts + [Point(ToDouble(fs[i]), ToDouble(fs[i + 1]))];
      i := i + 2;
    }
  }

  /**
   * The point-writing loop of both writers (document.cpp:294-300, 535-542):
   * each coordinate is appended followed by a space.
   */
  method WritePoints(ps: seq<Point>) returns (t: Text)
    ensures t == Flatten(ps) + [Empty]
  {
    t := BLANK;
    var k := 0;
    while k < |ps|
      invariant k <= |ps|
      invariant t == Flatten(ps[..k]) + [Empty]
    {
      t := AppendNumber(t, ps[k].x);
      t := AppendSpace(t);
      t := AppendNumber(t, ps[k].y);
      t := AppendSpace(t);
      assert ps[..k + 1][..k] == ps[..k];
      k := k + 1;
    }
    assert ps[..k] == ps;
  }
}
