/** The geometry of the text stamp: the preview canvas, the conversion of a
    position on it into page coordinates, the vertical clamp against the
    font's ascent and descent, the colour lookup and the underline. Both
    stamping tabs share it; they differ only in the orientation. */
module StampGeometry {
  import opened Common
  import PyInt

  datatype Orientation = Portrait | Landscape

  datatype Size = Size(width: int, height: int)

  /** A position on the preview canvas: origin top left, y downwards. */
  datatype CanvasPoint = CanvasPoint(x: int, y: int)

  /** A position on the page: origin bottom left, y upwards, in points. */
  datatype PagePoint = PagePoint(x: int, y: int)

  /** reportlab's `letter` page size, in points. */
  const Letter: Size := Size(612, 792)

  /** The preview shows the page at 0.4 of its size. */
  const Scale: real := 0.4

  /** The font every stamp is set in. */
  const FontName: string := "Helvetica-Bold"

  /** reportlab's `landscape(size)`: the longer side becomes the width. */
  function ToLandscape(s: Size): (r: Size)
    ensures r.width >= r.height
    ensures multiset{r.width, r.height} == multiset{s.width, s.height}
  {
    if s.width < s.height then Size(s.height, s.width) else s
  }

  /** The size of the stamp's overlay page: `letter` for portrait, its
      landscape rotation for every other orientation. */
  function PageSize(o: Orientation): (s: Size)
    ensures o == Portrait ==> s == Size(612, 792)
    ensures o == Landscape ==> s == Size(792, 612)
  {
    if o == Portrait then Letter else ToLandscape(Letter)
  }

  /** The preview canvas: the page's sides scaled and truncated to whole
      pixels. */
  function CanvasSize(o: Orientation): (c: Size)
    ensures o == Portrait ==> c == Size(244, 316)
    ensures o == Landscape ==> c == Size(316, 244)
  {
    var page := PageSize(o);
    Size(PyInt.Trunc(page.width as real * Scale), PyInt.Trunc(page.height as real * Scale))
  }

  predicate InCanvas(o: Orientation, p: CanvasPoint) {
    0 <= p.x <= CanvasSize(o).width && 0 <= p.y <= CanvasSize(o).height
  }

  /** Where the sample text starts: centred at the top edge in portrait,
      at the centre of the canvas in landscape. */
  function InitialAnchor(o: Orientation): (p: CanvasPoint)
    ensures InCanvas(o, p)
    ensures o == Portrait ==> p == CanvasPoint(122, 0)
    ensures o == Landscape ==> p == CanvasPoint(158, 122)
  {
    var c := CanvasSize(o);
    if o == Portrait then CanvasPoint(c.width / 2, 0) else CanvasPoint(c.width / 2, c.height / 2)
  }

  function Min(a: int, b: int): int { if a <= b then a else b }

  function Max(a: int, b: int): int { if a >= b then a else b }

  /** Where a drag to pointer position (x, y) leaves the sample text: the
      nearest point of the canvas, coordinate by coordinate. */
  function ClampToCanvas(o: Orientation, x: int, y: int): (p: CanvasPoint)
    ensures InCanvas(o, p)
    ensures 0 <= x <= CanvasSize(o).width ==> p.x == x
    ensures x < 0 ==> p.x == 0
    ensures x > CanvasSize(o).width ==> p.x == CanvasSize(o).width
    ensures 0 <= y <= CanvasSize(o).height ==> p.y == y
    ensures y < 0 ==> p.y == 0
    ensures y > CanvasSize(o).height ==> p.y == CanvasSize(o).height
  {
    var c := CanvasSize(o);
    CanvasPoint(Max(0, Min(x, c.width)), Max(0, Min(y, c.height)))
  }

  /** The page position of a canvas position: y measured from the bottom,
      both coordinates divided by the scale and truncated by `int()`. On the
      canvas this is the floor of the exact quotient, lands on the page, and
      sends the canvas bottom edge to y = 0. */
  function ToPageCoordinates(o: Orientation, p: CanvasPoint): (q: PagePoint)
    ensures InCanvas(o, p) ==> q.x == (p.x as real * 2.5).Floor
    ensures InCanvas(o, p) ==> q.y == ((CanvasSize(o).height - p.y) as real * 2.5).Floor
    ensures InCanvas(o, p) ==> 0 <= q.x <= PageSize(o).width && 0 <= q.y <= PageSize(o).height
    ensures p.y == CanvasSize(o).height ==> q.y == 0
  {
    PagePoint(PyInt.Trunc(p.x as real / Scale),
              PyInt.Trunc((CanvasSize(o).height - p.y) as real / Scale))
  }

  /** The top left of the canvas is the top left of the covered page area;
      because the canvas height was truncated it lies 2 points below the top
      of a portrait page. */
  lemma TopLeftCorner(o: Orientation)
    ensures ToPageCoordinates(o, CanvasPoint(0, 0)) == PagePoint(0, PageSize(o).height - 2)
  {
  }

  /** y is inverted: lower on the canvas is lower on the page; x keeps its
      direction. */
  lemma PageCoordinatesMonotone(o: Orientation, p: CanvasPoint, q: CanvasPoint)
    requires InCanvas(o, p) && InCanvas(o, q)
    ensures p.y <= q.y ==> ToPageCoordinates(o, q).y <= ToPageCoordinates(o, p).y
    ensures p.x <= q.x ==> ToPageCoordinates(o, p).x <= ToPageCoordinates(o, q).x
  {
  }

  /** The part of the font above the baseline. */
  function Ascent(fontSize: real): real { fontSize * 0.8 }

  /** The part of the font below the baseline. */
  function Descent(fontSize: real): real { fontSize * 0.2 }

  /** The baseline after the vertical clamp, computed in floating point
      from the integer position and size: pulled down so that the ascent
      stays on the page, otherwise pushed up so that the descent does; the
      first check wins when both fail. When the font fits on the page, the
      clamped text band from descent to ascent lies within the page,
      wherever the stamp was placed. */
  function AdjustY(y: real, fontSize: real, pageHeight: real): (r: real)
    ensures y + Ascent(fontSize) > pageHeight ==> r == pageHeight - Ascent(fontSize)
    ensures y + Ascent(fontSize) <= pageHeight && y < Descent(fontSize) ==> r == Descent(fontSize)
    ensures Descent(fontSize) <= y && y + Ascent(fontSize) <= pageHeight ==> r == y
    ensures 0.0 <= fontSize <= pageHeight ==> Descent(fontSize) <= r && r + Ascent(fontSize) <= pageHeight
  {
    if y + Ascent(fontSize) > pageHeight then pageHeight - Ascent(fontSize)
    else if y - Descent(fontSize) < 0.0 then Descent(fontSize)
    else y
  }

  datatype Color = Red | Blue | Black

  /** The colour of a name, red for any name that is not in the table. */
  function ColorOf(name: string): (c: Color)
    ensures name == "blue" <==> c == Blue
    ensures name == "black" <==> c == Black
    ensures c == Red <==> name != "blue" && name != "black"
  {
    var table := map["red" := Red, "blue" := Blue, "black" := Black];
    if name in table then table[name] else Red
  }

  datatype Point = Point(x: real, y: real)

  datatype Segment = Segment(from: Point, to: Point)

  /** How the text sits on the overlay page: centred on a page point, or
      centred on the origin of a frame moved to `origin` and turned by
      `angle` degrees. */
  datatype Placement = Upright(center: Point) | Rotated(origin: Point, angle: int)

  /** The single overlay page the stamp is drawn on. The underline, when
      present, is given in the frame the text is drawn in. */
  datatype Overlay = Overlay(
    page: Size,
    font: string,
    fontSize: int,
    color: Color,
    text: string,
    placement: Placement,
    underline: Option<Segment>)

  /** The page point the stamp is anchored at. */
  function Anchor(pl: Placement): Point
  {
    match pl
    case Upright(c) => c
    case Rotated(o, _) => o
  }

  /** The centre of the text in the frame it is drawn in. */
  function DrawnCenter(pl: Placement): Point
  {
    match pl
    case Upright(c) => c
    case Rotated(_, _) => Point(0.0, 0.0)
  }

  /** The underline: the measured text width, centred under the text's
      centre, 2 points below its baseline. */
  function Underline(center: Point, width: real): (s: Segment)
    ensures s.from.y == s.to.y == center.y - 2.0
    ensures s.to.x - s.from.x == width
    ensures s.from.x + s.to.x == 2.0 * center.x
  {
    Segment(Point(center.x - width / 2.0, center.y - 2.0), Point(center.x + width / 2.0, center.y - 2.0))
  }

  /** The overlay drawn for a stamp at page position `pos`; `measure` is
      the font metrics' string width for the stamp's font. */
  function CreateTextOverlay(o: Orientation, text: string, fontSize: int, pos: PagePoint,
                             angle: Option<int>, color: string, underline: bool,
                             measure: (string, int) -> real): (ov: Overlay)
    ensures ov.page == PageSize(o) && ov.font == FontName
    ensures ov.fontSize == fontSize && ov.text == text
    ensures ov.color == ColorOf(color)
    ensures Anchor(ov.placement) == Point(pos.x as real, AdjustY(pos.y as real, fontSize as real, PageSize(o).height as real))
    ensures ov.placement.Rotated? <==> angle.Some?
    ensures angle.Some? ==> ov.placement.angle == angle.value
    ensures ov.underline.Some? <==> underline
    ensures ov.underline.Some? ==>
      var s, c := ov.underline.value, DrawnCenter(ov.placement);
      && s.from.y == s.to.y == c.y - 2.0
      && s.to.x - s.from.x == measure(text, fontSize)
      && s.from.x + s.to.x == 2.0 * c.x
  {
    var anchor := Point(pos.x as real, AdjustY(pos.y as real, fontSize as real, PageSize(o).height as real));
    var placement := match angle
      case None => Upright(anchor)
      case Some(a) => Rotated(anchor, a);
    var width := measure(text, fontSize);
    Overlay(PageSize(o), FontName, fontSize, ColorOf(color), text, placement,
            if underline then Some(Underline(DrawnCenter(placement), width)) else None)
  }

  /** The rotated stamp is the upright one expressed in the frame moved to
      the anchor, before the turn: the same anchor, and the same underline
      shifted by it. */
  lemma RotatedMatchesUpright(o: Orientation, text: string, fontSize: int, pos: PagePoint,
                              angle: int, color: string, measure: (string, int) -> real)
    ensures
      var up := CreateTextOverlay(o, text, fontSize, pos, None, color, true, measure);
      var rot := CreateTextOverlay(o, text, fontSize, pos, Some(angle), color, true, measure);
      var a := Anchor(up.placement);
      && Anchor(rot.placement) == a
      && up.underline.value.from == Point(rot.underline.value.from.x + a.x, rot.underline.value.from.y + a.y)
      && up.underline.value.to == Point(rot.underline.value.to.x + a.x, rot.underline.value.to.y + a.y)
  {
  }
}
