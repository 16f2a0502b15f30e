/**
 * The graphics view of the page image: the balloons drawn on it, the rendered
 * image they are placed on, the mouse wheel zoom and the mouse handling that
 * pans with Shift, drags a balloon with Ctrl and reports a plain click on the
 * image to the window.
 *
 * Coordinates are scene coordinates, those of the image rendered at zoom 2.0.
 */
module GraphicsView {
  import opened Wrappers
  import opened Domain
  import opened Projection
  import opened PageState

  // ---------------------------------------------------------------------------
  // Zoom

  const ZoomIn: real := 1.15
  /** `1 / zoom_in_factor`. */
  const ZoomOut: real := 20.0 / 23.0
  const MinZoom: real := 0.1
  const MaxZoom: real := 10.0

  /** A wheel step: the new zoom factor, and the scale applied to the view if the step was not clamped. */
  datatype Zoom = Zoom(factor: real, applied: Option<real>)

  /**
   * `wheelEvent`: the factor is multiplied by the step; past a limit it is set
   * to the limit and the view is left unscaled.
   */
  function WheelZoom(z: real, up: bool): Zoom {
    var step := if up then ZoomIn else ZoomOut;
    var f := z * step;
    if f < MinZoom then Zoom(MinZoom, None)
    else if f > MaxZoom then Zoom(MaxZoom, None)
    else Zoom(f, Some(step))
  }

  // ---------------------------------------------------------------------------
  // Hit tests

  /** Width and height of the pixmap item. */
  datatype ImageSize = ImageSize(width: real, height: real)

  /** `pixmap_item.contains(pos)`. */
  predicate OnImage(p: Point, image: ImageSize) {
    Inside(p, image.width, image.height)
  }

  /**
   * `ellipse.contains(pos)`: the circle of diameter `size` around the
   * balloon's centre, widened by half the width of its 2-pixel outline.
   */
  predicate Hit(b: Balloon, p: Point) {
    var r := b.size / 2.0 + 1.0;
    SqDist(p, Point(b.x, b.y)) <= r * r
  }

  /** The first balloon under `p`, in the order the balloons were added. */
  function FirstHit(bs: seq<Balloon>, p: Point): (r: Option<nat>)
    ensures r.Some? ==> r.value < |bs| && Hit(bs[r.value], p)
    ensures r.Some? ==> forall j :: 0 <= j < r.value ==> !Hit(bs[j], p)
    ensures r.None? ==> forall j :: 0 <= j < |bs| ==> !Hit(bs[j], p)
    decreases |bs|
  {
    if bs == [] then None
    else if Hit(bs[0], p) then Some(0)
    else
      match FirstHit(bs[1..], p)
      case None => None
      case Some(k) => assert bs[k + 1] == bs[1..][k]; Some(k + 1)
  }

  /** The keyboard modifiers held during a click, as compared by `keyboardModifiers() == ...`. */
  datatype Modifiers = NoModifier | ShiftOnly | CtrlOnly | OtherModifiers

  /** What a mouse press starts. */
  datatype PressResult =
    | Pan
    | Drag(index: nat, offset: Point)
    | ImageClick(at: Point)
    | Ignored

  /**
   * `mousePressEvent`: a left click with Shift pans; with Ctrl it grabs the
   * first balloon under the mouse, keeping the offset from its centre; a left
   * click that did neither and lands on the image is reported to the window,
   * a Ctrl-click that missed every balloon included.
   */
  function PressOf(bs: seq<Balloon>, image: Option<ImageSize>, left: bool, mods: Modifiers, p: Point): PressResult {
    if left && mods == ShiftOnly then Pan
    else if left && mods == CtrlOnly && FirstHit(bs, p).Some? then
      var b := bs[FirstHit(bs, p).value];
      Drag(FirstHit(bs, p).value, Point(p.x - b.x, p.y - b.y))
    else if left && image.Some? && OnImage(p, image.value) then ImageClick(p)
    else Ignored
  }

  /**
   * The dragged index after the balloon at `index` of `n` is removed: the drag
   * ends if it is that balloon and moves down by one if it is a later one.
   */
  function DragAfterRemove(dragging: Option<nat>, index: int, n: int): Option<nat> {
    if 0 <= index < n && dragging.Some? then
      if dragging.value == index then None
      else if dragging.value > index then Some(dragging.value - 1)
      else dragging
    else dragging
  }

  /** A balloon dragged to mouse position `p`: its centre keeps the grab offset from the mouse. */
  function Dragged(b: Balloon, offset: Point, p: Point): Balloon {
    b.(x := p.x - offset.x, y := p.y - offset.y)
  }

  // ---------------------------------------------------------------------------
  // The view

  class BalloonView {
    /** `balloon_items`, without their scene items. */
    var balloons: seq<Balloon>
    /** The size of `pixmap_item`, if an image was loaded. */
    var image: Option<ImageSize>
    var zoomFactor: real
    /** The index in `balloons` of `dragging_balloon`, and `drag_offset`. */
    var dragging: Option<nat>
    var dragOffset: Point
    var panning: bool

    /** The zoom factor stays within its limits and a dragged balloon is one of the balloons. */
    predicate Valid()
      reads this
    {
      && MinZoom <= zoomFactor <= MaxZoom
      && (dragging.Some? ==> dragging.value < |balloons|)
    }

    constructor ()
      ensures Valid()
      ensures balloons == [] && image == None && zoomFactor == 1.0
      ensures dragging == None && !panning
    {
      balloons := [];
      image := None;
      zoomFactor := 1.0;
      dragging := None;
      dragOffset := Point(0.0, 0.0);
      panning := false;
    }

    /** `load_image(pixmap)`: the scene is cleared, the zoom reset and the new image shown. */
    method LoadImage(size: ImageSize)
      modifies this
      ensures Valid()
      ensures balloons == [] && image == Some(size) && zoomFactor == 1.0
      ensures dragging == None && dragOffset == old(dragOffset) && panning == old(panning)
    {
      balloons := [];
      zoomFactor := 1.0;
      image := Some(size);
      dragging := None;
    }

    /** The pixmap is replaced by a rotated one of this size. */
    method SetImage(size: ImageSize)
      modifies this
      requires Valid()
      ensures Valid()
      ensures image == Some(size)
      ensures balloons == old(balloons) && zoomFactor == old(zoomFactor)
      ensures dragging == old(dragging) && dragOffset == old(dragOffset) && panning == old(panning)
    {
      image := Some(size);
    }

    /** `add_balloon(x, y, number, size)`, stamped with the window's current rotation. */
    method AddBalloon(x: real, y: real, number: int, size: real, rotation: int)
      modifies this
      requires Valid()
      ensures Valid()
      ensures balloons == old(balloons) + [Balloon(x, y, number, size, rotation)]
      ensures image == old(image) && zoomFactor == old(zoomFactor)
      ensures dragging == old(dragging) && dragOffset == old(dragOffset) && panning == old(panning)
    {
      balloons := balloons + [Balloon(x, y, number, size, rotation)];
    }

    /**
     * `remove_balloon(index)`: an index out of range is ignored. A balloon
     * being dragged keeps being dragged; if it is the one removed, the drag
     * ends.
     */
    method RemoveBalloon(index: int)
      modifies this
      requires Valid()
      ensures Valid()
      ensures balloons == if 0 <= index < |old(balloons)| then RemoveAt(old(balloons), index) else old(balloons)
      ensures image == old(image) && zoomFactor == old(zoomFactor) && panning == old(panning)
      ensures dragging == DragAfterRemove(old(dragging), index, |old(balloons)|)
      ensures dragOffset == old(dragOffset)
    {
      if 0 <= index < |balloons| {
        balloons := RemoveAt(balloons, index);
        if dragging.Some? {
          if dragging.value == index {
            dragging := None;
          } else if dragging.value > index {
            dragging := Some(dragging.value - 1);
          }
        }
      }
    }

    /** `clear_balloons()` of the view. */
    method ClearBalloons()
      modifies this
      requires Valid()
      ensures Valid()
      ensures balloons == [] && dragging == None
      ensures image == old(image) && zoomFactor == old(zoomFactor)
      ensures dragOffset == old(dragOffset) && panning == old(panning)
    {
      balloons := [];
      dragging := None;
    }

    /** `mousePressEvent` at scene point `(x, y)`, `left` telling whether it is the left button. */
    method Press(left: bool, mods: Modifiers, x: real, y: real) returns (r: PressResult)
      modifies this
      requires Valid()
      ensures Valid()
      ensures r == PressOf(old(balloons), old(image), left, mods, Point(x, y))
      ensures balloons == old(balloons) && image == old(image) && zoomFactor == old(zoomFactor)
      ensures panning == (old(panning) || r.Pan?)
      ensures dragging == if r.Drag? then Some(r.index) else old(dragging)
      ensures dragOffset == if r.Drag? then r.offset else old(dragOffset)
    {
      var p := Point(x, y);
      if left && mods == ShiftOnly {
        panning := true;
        return Pan;
      }
      if left && mods == CtrlOnly {
        var i := 0;
        while i < |balloons|
          invariant 0 <= i <= |balloons|
          invariant forall j :: 0 <= j < i ==> !Hit(balloons[j], p)
        {
          var b := balloons[i];
          if Hit(b, p) {
            dragging := Some(i);
            dragOffset := Point(x - b.x, y - b.y);
            return Drag(i, dragOffset);
          }
          i := i + 1;
        }
      }
      if left && image.Some? && OnImage(p, image.value) {
        return ImageClick(p);
      }
      return Ignored;
    }

    /**
     * `mouseMoveEvent` at scene point `(x, y)`: the dragged balloon follows the
     * mouse; panning scrolls the view, which is not part of this model.
     */
    method Move(x: real, y: real) returns (moved: bool)
      modifies this
      requires Valid()
      ensures Valid()
      ensures moved == old(dragging).Some?
      ensures balloons == if moved then old(balloons)[old(dragging).value := Dragged(old(balloons)[old(dragging).value], dragOffset, Point(x, y))]
                          else old(balloons)
      ensures image == old(image) && zoomFactor == old(zoomFactor)
      ensures dragging == old(dragging) && dragOffset == old(dragOffset) && panning == old(panning)
    {
      moved := dragging.Some?;
      if moved {
        var i := dragging.value;
        balloons := balloons[i := Dragged(balloons[i], dragOffset, Point(x, y))];
      }
    }

    /** `mouseReleaseEvent`: releasing the left button ends a drag, or else a pan. */
    method Release(left: bool)
      modifies this
      requires Valid()
      ensures Valid()
      ensures balloons == old(balloons) && image == old(image) && zoomFactor == old(zoomFactor)
      ensures dragging == if left then None else old(dragging)
      ensures panning == if left && old(dragging).None? then false else old(panning)
      ensures dragOffset == old(dragOffset)
    {
      if left {
        if dragging.Some? {
          dragging := None;
        } else if panning {
          panning := false;
        }
      }
    }

    /** `wheelEvent`: `up` for a forward turn of the wheel; the scale applied to the view, if any. */
    method Wheel(up: bool) returns (applied: Option<real>)
      modifies this
      requires Valid()
      ensures Valid()
      ensures zoomFactor == WheelZoom(old(zoomFactor), up).factor
      ensures applied == WheelZoom(old(zoomFactor), up).applied
      ensures balloons == old(balloons) && image == old(image)
      ensures dragging == old(dragging) && dragOffset == old(dragOffset) && panning == old(panning)
    {
      var step := if up then ZoomIn else ZoomOut;
      zoomFactor := zoomFactor * step;
      if zoomFactor < MinZoom {
        zoomFactor := MinZoom;
        return None;
      } else if zoomFactor > MaxZoom {
        zoomFactor := MaxZoom;
        return None;
      }
      return Some(step);
    }
  }

  // ---------------------------------------------------------------------------
  // Properties

  /** Whatever the factor before, a wheel step leaves it within [0.1, 10]. */
  lemma WheelZoomLimits(z: real, up: bool)
    ensures MinZoom <= WheelZoom(z, up).factor <= MaxZoom
  {
  }

  /** The view is scaled by the step exactly when the step stays within the limits; the factor then follows the view. */
  lemma WheelZoomApplies(z: real, up: bool)
    ensures var step := if up then ZoomIn else ZoomOut;
      && (WheelZoom(z, up).applied.Some? <==> MinZoom <= z * step <= MaxZoom)
      && (WheelZoom(z, up).applied.Some? ==> WheelZoom(z, up).applied.value == step && WheelZoom(z, up).factor == z * step)
  {
  }

  /** A step in and a step out cancel, as long as neither is clamped. */
  lemma WheelInThenOut(z: real)
    requires MinZoom <= z && z * ZoomIn <= MaxZoom
    ensures WheelZoom(WheelZoom(z, true).factor, false) == Zoom(z, Some(ZoomOut))
  {
    assert z * ZoomIn * ZoomOut == z;
  }

  /** At a limit the factor sticks: another step the same way changes nothing. */
  lemma WheelAtLimit()
    ensures WheelZoom(MinZoom, false) == Zoom(MinZoom, None)
    ensures WheelZoom(MaxZoom, true) == Zoom(MaxZoom, None)
  {
  }

  /** Dragging keeps the grabbed point of the balloon under the mouse. */
  lemma DragKeepsGrabPoint(b: Balloon, p: Point, q: Point)
    ensures var d := Dragged(b, Point(p.x - b.x, p.y - b.y), q);
      && SqDist(q, Point(d.x, d.y)) == SqDist(p, Point(b.x, b.y))
      && (Hit(d, q) <==> Hit(b, p))
      && d.number == b.number && d.size == b.size && d.rotation == b.rotation
  {
  }

  /** Dragging moves the balloon by the distance the mouse moved. */
  lemma DragMovesWithMouse(b: Balloon, p: Point, q: Point)
    ensures var d := Dragged(b, Point(p.x - b.x, p.y - b.y), q);
      d.x == b.x + (q.x - p.x) && d.y == b.y + (q.y - p.y)
  {
  }

  /**
   * A Ctrl-click grabs a balloon exactly when one is under the mouse; when
   * none is, it behaves as a plain click and is reported if it lands on the
   * image.
   */
  lemma CtrlClick(bs: seq<Balloon>, image: Option<ImageSize>, p: Point)
    ensures PressOf(bs, image, true, CtrlOnly, p).Drag? <==> exists j :: 0 <= j < |bs| && Hit(bs[j], p)
    ensures (forall j :: 0 <= j < |bs| ==> !Hit(bs[j], p)) ==>
      PressOf(bs, image, true, CtrlOnly, p) == PressOf(bs, image, true, NoModifier, p)
  {
  }

  /** A grabbed balloon is under the mouse, and so is no balloon added before it. */
  lemma GrabbedIsFirstHit(bs: seq<Balloon>, image: Option<ImageSize>, mods: Modifiers, p: Point)
    requires PressOf(bs, image, true, mods, p).Drag?
    ensures var r := PressOf(bs, image, true, mods, p);
      && mods == CtrlOnly && r.index < |bs| && Hit(bs[r.index], p)
      && (forall j :: 0 <= j < r.index ==> !Hit(bs[j], p))
  {
  }

  /** Only a left click on the image with no Shift and without grabbing a balloon is reported. */
  lemma ImageClickWhen(bs: seq<Balloon>, image: Option<ImageSize>, left: bool, mods: Modifiers, p: Point)
    ensures PressOf(bs, image, left, mods, p).ImageClick?
        <==> left && mods != ShiftOnly && image.Some? && OnImage(p, image.value)
             && !(mods == CtrlOnly && exists j :: 0 <= j < |bs| && Hit(bs[j], p))
  {
  }
}

