/** MainForm's own state and handlers, updated in place. Each handler is proved
    to leave the form in the state the matching function of Interaction gives. */
module RulerForm {
  import opened Regions
  import opened Interaction
  import Rendering

  class RulerWindow {
    var x: int            // Left
    var y: int            // Top
    var width: int
    var height: int
    var isVertical: bool
    var isLocked: bool
    var region: ResizeRegion   // _resizeRegion
    var cursor: CursorShape
    var offset: Point          // _offset
    var downPoint: Point       // _mouseDownPoint
    var downW: int             // _mouseDownRect.Width
    var downH: int             // _mouseDownRect.Height

    /** The form's state as a value. */
    ghost function State(): FormState
      reads this
    {
      FormState(x, y, width, height, isVertical, isLocked, region, cursor, offset, downPoint, downW, downH)
    }

    /** Init, after RulerInfo has been copied in. */
    constructor (x0: int, y0: int, width0: int, height0: int, vertical: bool, locked: bool)
      ensures State() == Initial(x0, y0, width0, height0, vertical, locked)
    {
      x, y, width, height := x0, y0, width0, height0;
      isVertical, isLocked := vertical, locked;
      region, cursor := None, Default;
      offset, downPoint := Point(0, 0), Point(0, 0);
      downW, downH := 0, 0;
    }

    /** OnMouseDown, with the cursor's screen position. */
    method MouseDown(screenPt: Point)
      modifies this
      ensures State() == Pressed(old(State()), screenPt)
    {
      offset := Point(screenPt.x - x, screenPt.y - y);
      downPoint := screenPt;
      downW, downH := width, height;
    }

    /** OnMouseUp. */
    method MouseUp()
      modifies this
      ensures State() == Released(old(State()))
    {
      region := None;
    }

    /** HandleResize, with the cursor's screen position. */
    method HandleResize(screenPt: Point)
      modifies this
      ensures State() == Resized(old(State()), screenPt)
    {
      if isLocked {
        return;
      }
      match region {
        case E =>
          var diff := screenPt.x - downPoint.x;
          width := downW + diff;
        case S =>
          var diff := screenPt.y - downPoint.y;
          height := downH + diff;
        case SE =>
          width := downW + screenPt.x - downPoint.x;
          height := downH + screenPt.y - downPoint.y;
        case _ =>
      }
    }

    /** OnMouseMove; leftHeld is `e.Button == MouseButtons.Left`. */
    method MouseMove(screenPt: Point, leftHeld: bool)
      modifies this
      ensures State() == Moved(old(State()), screenPt, leftHeld)
    {
      if region != None {
        HandleResize(screenPt);
        return;
      }
      var client := Point(screenPt.x - x, screenPt.y - y);
      var inner := ClientRect(width, height).Inflate(-BorderWidth, -BorderWidth);
      var inResizableArea := ClientRect(width, height).Contains(client) && !inner.Contains(client);
      if inResizableArea {
        var r := GetResizeRegion(client, width, height);
        cursor := ResizeCursor(r);
        if leftHeld {
          region := r;
          HandleResize(screenPt);
        }
      } else {
        cursor := Default;
        if leftHeld {
          x, y := screenPt.x - offset.x, screenPt.y - offset.y;
        }
      }
    }

    /** HandleMoveResizeKeystroke. */
    method HandleMoveResizeKeystroke(key: Key, shift: bool, ctrl: bool)
      requires key.IsArrow()
      modifies this
      ensures State() == Keystroke(old(State()), key, shift, ctrl)
    {
      var size := if ctrl then 1 else 10;
      var shouldResize := shift;
      if key == Right {
        if shouldResize { width := width + size; } else { x := x + size; }
      } else if key == Left {
        if shouldResize { width := width - size; } else { x := x - size; }
      } else if key == Up {
        if shouldResize { height := height - size; } else { y := y - size; }
      } else if key == Down {
        if shouldResize { height := height + size; } else { y := y + size; }
      }
    }

    /** ChangeOrientation (also the Vertical menu command). */
    method ChangeOrientation()
      modifies this
      ensures State() == Reoriented(old(State()))
    {
      isVertical := !isVertical;
      var w := width;
      width := height;
      height := w;
    }

    /** OnKeyDown; Enter only shows the size in a message box. */
    method KeyDown(key: Key, shift: bool, ctrl: bool)
      modifies this
      ensures State() == KeyPressed(old(State()), key, shift, ctrl)
    {
      match key {
        case Right | Left | Up | Down =>
          HandleMoveResizeKeystroke(key, shift, ctrl);
        case Space =>
          ChangeOrientation();
        case _ =>
      }
    }

    /** The MouseDoubleClick handler. */
    method DoubleClick()
      modifies this
      ensures State() == Flipped(old(State()))
    {
      isVertical := !isVertical;
    }

    /** LockHandler. */
    method ToggleLock()
      modifies this
      ensures State() == LockToggled(old(State()))
    {
      isLocked := !isLocked;
    }

    /** OnPaint: the transform to apply and the commands DrawRuler produces. */
    method Paint(fontHeight: int) returns (transform: Transform, cmds: seq<Rendering.Command>)
      ensures transform == PaintTransform(State())
      ensures cmds == Picture(State(), fontHeight)
    {
      var h := height;
      var w := width;
      transform := Identity;
      if isVertical {
        transform := RotateThenShift(-width + 1);
        h := width;
        w := height;
      }
      cmds := Rendering.DrawRuler(w, h, fontHeight);
    }
  }

  /** A press, a drag along the right edge and a release, on a fresh unlocked
      200 by 100 form at (0, 0): the form ends 30 pixels wider and idle. */
  method RightEdgeDragScenario() returns (w: RulerWindow)
    ensures w.width == 230 && w.height == 100 && w.x == 0 && w.y == 0
    ensures w.region == None
  {
    w := new RulerWindow(0, 0, 200, 100, false, false);
    w.MouseDown(Point(198, 50));
    w.MouseMove(Point(198, 50), true);
    assert w.region == E;
    w.MouseMove(Point(228, 50), true);
    w.MouseUp();
  }
}
