/**
 * The per-balloon arithmetic of `draw_balloons_on_page`: a balloon placed on
 * the page image rendered at zoom 2.0, in the orientation the page shows, is
 * mapped back to a point of the unrotated PDF page, and a filled circle and a
 * label are drawn there.
 *
 * `w` and `h` are the width and height of `page.rect`, the page rectangle as
 * displayed, that is after its rotation (swapped for 90 and 270).
 */
module Projection {
  import opened Text
  import opened Domain

  /** The zoom the page is rendered at for display. */
  const RenderZoom: real := 2.0

  datatype Point = Point(x: real, y: real)

  function Add(p: Point, v: Point): Point {
    Point(p.x + v.x, p.y + v.y)
  }

  function SqDist(p: Point, q: Point): real {
    (p.x - q.x) * (p.x - q.x) + (p.y - q.y) * (p.y - q.y)
  }

  /** A scene point of the rendered image, in page units of the displayed page. */
  function Dezoom(x: real, y: real): Point {
    Point(x / RenderZoom, y / RenderZoom)
  }

  /** A displayed-page point to the unrotated page, for the page's rotation. */
  function ToPage(s: Point, rotation: int, w: real, h: real): Point {
    if rotation == 90 then Point(s.y, w - s.x)
    else if rotation == 180 then Point(w - s.x, h - s.y)
    else if rotation == 270 then Point(h - s.y, s.x)
    else s
  }

  /** How a point of the unrotated page appears on the page displayed with that rotation. */
  function FromPage(p: Point, rotation: int, w: real, h: real): Point {
    if rotation == 90 then Point(w - p.y, p.x)
    else if rotation == 180 then Point(w - p.x, h - p.y)
    else if rotation == 270 then Point(p.y, h - p.x)
    else p
  }

  /** The width and height of the unrotated page, given the displayed rectangle. */
  function UnrotatedSize(rotation: int, w: real, h: real): (real, real) {
    if rotation == 90 || rotation == 270 then (h, w) else (w, h)
  }

  predicate Inside(p: Point, w: real, h: real) {
    0.0 <= p.x <= w && 0.0 <= p.y <= h
  }

  /** One quarter turn of a vector, clockwise on a page whose y axis points down. */
  function Turn(v: Point): Point {
    Point(v.y, -v.x)
  }

  /** The label offset from the balloon centre, `text_height` being the font size. */
  function LabelOffset(rotation: int, textWidth: real, textHeight: real): Point {
    if rotation == 90 then Point(textHeight / 3.0, textWidth / 2.0)
    else if rotation == 180 then Point(textWidth / 2.0, -textHeight / 3.0)
    else if rotation == 270 then Point(-textHeight / 3.0, -textWidth / 2.0)
    else Point(-textWidth / 2.0, textHeight / 3.0)
  }

  /** `(size / 2.0) / render_zoom`. */
  function PageRadius(size: real): real {
    (size / 2.0) / RenderZoom
  }

  /** `pdf_radius * 1.2`. */
  function FontSize(radius: real): real {
    radius * 1.2
  }

  datatype Color = Color(r: real, g: real, b: real)

  const Blue: Color := Color(0.0, 0.47, 0.84)
  const White: Color := Color(1.0, 1.0, 1.0)

  /** `page.draw_circle(center, radius, color, width, fill, fill_opacity)`. */
  datatype CircleCmd = CircleCmd(center: Point, radius: real, color: Color, width: real, fill: Color, fillOpacity: real)

  /** `page.insert_text(anchor, text, fontsize, color, fontname, rotate, overlay)`. */
  datatype TextCmd = TextCmd(anchor: Point, text: string, fontSize: real, color: Color, fontName: string, rotate: int, overlay: bool)

  /** What is drawn for one balloon. */
  datatype BalloonDraw = BalloonDraw(circle: CircleCmd, caption: TextCmd)

  /**
   * The drawing of one balloon on a page whose displayed rectangle is `w` x
   * `h` and whose rotation is `rotation`; `textWidth` is the width of the label
   * in the font size used. The balloon's own `rotation` is not read.
   */
  function DrawBalloon(b: Balloon, rotation: int, w: real, h: real, textWidth: real): BalloonDraw {
    var center := ToPage(Dezoom(b.x, b.y), rotation, w, h);
    var radius := PageRadius(b.size);
    var fontSize := FontSize(radius);
    BalloonDraw(
      CircleCmd(center, radius, Blue, 2.5, Blue, 0.4),
      TextCmd(Add(center, LabelOffset(rotation, textWidth, fontSize)), IntToString(b.number),
              fontSize, White, "helv", rotation, true))
  }

  // ---------------------------------------------------------------------------
  // The projection

  /** The projection undoes the display rotation: displayed, a page point shows where it was clicked. */
  lemma FromPageToPage(s: Point, rotation: int, w: real, h: real)
    ensures FromPage(ToPage(s, rotation, w, h), rotation, w, h) == s
  {
  }

  /** ... and every page point is the projection of the point where it is displayed. */
  lemma ToPageFromPage(p: Point, rotation: int, w: real, h: real)
    ensures ToPage(FromPage(p, rotation, w, h), rotation, w, h) == p
  {
  }

  /** A point on the displayed page projects onto the unrotated page. */
  lemma ToPageInside(s: Point, rotation: int, w: real, h: real)
    requires Inside(s, w, h)
    ensures var (uw, uh) := UnrotatedSize(rotation, w, h);
      Inside(ToPage(s, rotation, w, h), uw, uh)
  {
  }

  /** Each case is a rigid motion: distances between balloons are kept. */
  lemma ToPageKeepsDistance(s: Point, t: Point, rotation: int, w: real, h: real)
    ensures SqDist(ToPage(s, rotation, w, h), ToPage(t, rotation, w, h)) == SqDist(s, t)
  {
  }

  /** The 180 case is the 90 case twice, the second time on the page displayed at 90. */
  lemma HalfTurnIsTwoQuarterTurns(s: Point, w: real, h: real)
    ensures ToPage(s, 180, w, h) == ToPage(ToPage(s, 90, w, h), 90, h, w)
  {
  }

  /** The 270 case is the 90 case three times, and four quarter turns are the identity. */
  lemma QuarterTurnsCompose(s: Point, w: real, h: real)
    ensures ToPage(s, 270, w, h) == ToPage(ToPage(ToPage(s, 90, w, h), 90, h, w), 90, w, h)
    ensures ToPage(ToPage(s, 270, w, h), 90, h, w) == s
  {
  }

  /** The quarter-turn cases move a vector by `Turn`. */
  lemma ToPageMovesByTurn(s: Point, v: Point, rotation: int, w: real, h: real)
    ensures rotation == 90 ==> ToPage(Add(s, v), rotation, w, h) == Add(ToPage(s, rotation, w, h), Turn(v))
    ensures rotation == 180 ==> ToPage(Add(s, v), rotation, w, h) == Add(ToPage(s, rotation, w, h), Turn(Turn(v)))
    ensures rotation == 270 ==> ToPage(Add(s, v), rotation, w, h) == Add(ToPage(s, rotation, w, h), Turn(Turn(Turn(v))))
  {
  }

  /** A click at (120, 80) on a page shown at 90 degrees, 400 units wide, lands at (40, 340). */
  lemma ProjectionExample()
    ensures ToPage(Dezoom(120.0, 80.0), 90, 400.0, 300.0) == Point(40.0, 340.0)
  {
  }

  // ---------------------------------------------------------------------------
  // The label and the circle

  /** The label offset of a rotated page is the unrotated offset turned by the rotation. */
  lemma LabelOffsetTurns(textWidth: real, textHeight: real)
    ensures LabelOffset(90, textWidth, textHeight) == Turn(LabelOffset(0, textWidth, textHeight))
    ensures LabelOffset(180, textWidth, textHeight) == Turn(Turn(LabelOffset(0, textWidth, textHeight)))
    ensures LabelOffset(270, textWidth, textHeight) == Turn(Turn(Turn(LabelOffset(0, textWidth, textHeight))))
  {
  }

  /**
   * The label sits where the unrotated label of the displayed balloon
   * projects to: on the displayed page it is centred on the balloon exactly as
   * on a page without rotation, for every rotation.
   */
  lemma LabelFollowsDisplay(s: Point, rotation: int, w: real, h: real, textWidth: real, textHeight: real)
    ensures Add(ToPage(s, rotation, w, h), LabelOffset(rotation, textWidth, textHeight))
         == ToPage(Add(s, LabelOffset(0, textWidth, textHeight)), rotation, w, h)
  {
    ToPageMovesByTurn(s, LabelOffset(0, textWidth, textHeight), rotation, w, h);
    LabelOffsetTurns(textWidth, textHeight);
  }

  /** What is drawn for a balloon, in terms of the projection. */
  lemma DrawBalloonShape(b: Balloon, rotation: int, w: real, h: real, textWidth: real)
    ensures var d := DrawBalloon(b, rotation, w, h, textWidth);
      && d.circle.center == ToPage(Dezoom(b.x, b.y), rotation, w, h)
      && d.circle.radius == b.size / 4.0
      && d.caption.fontSize == 1.2 * d.circle.radius
      && d.caption.text == IntToString(b.number)
      && d.caption.rotate == rotation
      && d.caption.anchor == ToPage(Add(Dezoom(b.x, b.y), LabelOffset(0, textWidth, d.caption.fontSize)), rotation, w, h)
  {
    var fontSize := FontSize(PageRadius(b.size));
    LabelFollowsDisplay(Dezoom(b.x, b.y), rotation, w, h, textWidth, fontSize);
  }

  /** The rotation stored with a balloon has no effect on what is drawn. */
  lemma DrawIgnoresBalloonRotation(b: Balloon, r: int, rotation: int, w: real, h: real, textWidth: real)
    ensures DrawBalloon(b.(rotation := r), rotation, w, h, textWidth) == DrawBalloon(b, rotation, w, h, textWidth)
  {
  }

  /** Every rotation other than 90, 180 and 270 is drawn like 0. */
  lemma OtherRotationsDrawLikeZero(b: Balloon, rotation: int, w: real, h: real, textWidth: real)
    requires rotation != 90 && rotation != 180 && rotation != 270
    ensures DrawBalloon(b, rotation, w, h, textWidth).circle == DrawBalloon(b, 0, w, h, textWidth).circle
    ensures DrawBalloon(b, rotation, w, h, textWidth).caption.anchor == DrawBalloon(b, 0, w, h, textWidth).caption.anchor
  {
  }
}
