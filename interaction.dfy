/** The ruler form's state as a value, and what each input handler of the form
    does to it: mouse press, move and release, the arrow keys, the orientation
    swap, the double-click flip and the lock toggle; also the dimensions OnPaint
    hands to the renderer. The class in RulerForm is proved against these. */
module Interaction {
  import opened Regions
  import Rendering

  /** Everything the handlers read or write: the form's Left, Top, Width and
      Height, the Vertical and Locked flags, the active resize region, the cursor
      shape, and the press-time snapshot (_offset, _mouseDownPoint and the size of
      _mouseDownRect). */
  datatype FormState = FormState(
    x: int, y: int, width: int, height: int,
    isVertical: bool, isLocked: bool,
    region: ResizeRegion, cursor: CursorShape,
    offset: Point, downPoint: Point, downW: int, downH: int)

  /** The keys OnKeyDown distinguishes. */
  datatype Key = Right | Left | Up | Down | Space | Enter | OtherKey {
    predicate IsArrow() { this == Right || this == Left || this == Up || this == Down }
  }

  /** PointToClient for a borderless form: the cursor relative to the form's origin. */
  function ClientPoint(s: FormState, mouse: Point): Point {
    Point(mouse.x - s.x, mouse.y - s.y)
  }

  /** A form as RulerInfo sets it up: no drag under way, the default cursor. */
  function Initial(x: int, y: int, width: int, height: int, isVertical: bool, isLocked: bool): FormState {
    FormState(x, y, width, height, isVertical, isLocked, None, Default, Point(0, 0), Point(0, 0), 0, 0)
  }

  // ---------------------------------------------------------------------------
  // Mouse

  /** OnMouseDown: remember where the cursor grabbed the form and the form's size. */
  function Pressed(s: FormState, mouse: Point): (r: FormState)
    ensures r.x + r.offset.x == mouse.x && r.y + r.offset.y == mouse.y
    ensures r.downPoint == mouse && r.downW == s.width && r.downH == s.height
    ensures r == s.(offset := r.offset, downPoint := r.downPoint, downW := r.downW, downH := r.downH)
  {
    s.(offset := Point(mouse.x - s.x, mouse.y - s.y), downPoint := mouse, downW := s.width, downH := s.height)
  }

  /** The regions whose drag moves the right edge, and the bottom edge. */
  predicate DragsRightEdge(region: ResizeRegion) { region == E || region == SE }
  predicate DragsBottomEdge(region: ResizeRegion) { region == S || region == SE }

  /** HandleResize: unless locked, a dragged edge follows the cursor's displacement
      since the press, measured from the press-time size; other regions do nothing. */
  function Resized(s: FormState, mouse: Point): (r: FormState)
    ensures r == s.(width := r.width, height := r.height)
    ensures !s.isLocked && DragsRightEdge(s.region)
      ==> r.width - s.downW == mouse.x - s.downPoint.x
    ensures !s.isLocked && DragsBottomEdge(s.region)
      ==> r.height - s.downH == mouse.y - s.downPoint.y
    ensures s.isLocked || !DragsRightEdge(s.region) ==> r.width == s.width
    ensures s.isLocked || !DragsBottomEdge(s.region) ==> r.height == s.height
  {
    if s.isLocked then s
    else
      match s.region
      case E => s.(width := s.downW + (mouse.x - s.downPoint.x))
      case S => s.(height := s.downH + (mouse.y - s.downPoint.y))
      case SE => s.(width := s.downW + mouse.x - s.downPoint.x, height := s.downH + mouse.y - s.downPoint.y)
      case _ => s
  }

  /** OnMouseMove. While a region is active every move resizes and nothing else;
      otherwise the cursor shape follows the band test, a left-button move in the
      band starts a resize, and a left-button move elsewhere drags the form so that
      the grabbed point stays under the cursor. */
  function Moved(s: FormState, mouse: Point, leftHeld: bool): (r: FormState)
    ensures r.offset == s.offset && r.downPoint == s.downPoint && r.downW == s.downW && r.downH == s.downH
    ensures r.isVertical == s.isVertical && r.isLocked == s.isLocked
    ensures s.region != None ==> r == Resized(s, mouse)
    ensures s.region == None && !leftHeld
      ==> r == s.(cursor := r.cursor)
    ensures s.region == None && InBand(ClientPoint(s, mouse), s.width, s.height)
      ==> r.cursor == ResizeCursor(GetResizeRegion(ClientPoint(s, mouse), s.width, s.height))
    ensures s.region == None && !InBand(ClientPoint(s, mouse), s.width, s.height)
      ==> r.cursor == Default
    ensures s.region == None && leftHeld && !InBand(ClientPoint(s, mouse), s.width, s.height)
      ==> r.x + s.offset.x == mouse.x && r.y + s.offset.y == mouse.y &&
          r.width == s.width && r.height == s.height && r.region == None
    ensures s.region == None && leftHeld && InBand(ClientPoint(s, mouse), s.width, s.height)
      ==> r.region == GetResizeRegion(ClientPoint(s, mouse), s.width, s.height) &&
          r == Resized(s.(region := r.region, cursor := r.cursor), mouse)
    ensures r.region == None <==>
      s.region == None && !(leftHeld && InBand(ClientPoint(s, mouse), s.width, s.height))
  {
    if s.region != None then Resized(s, mouse)
    else
      var client := ClientPoint(s, mouse);
      if InBand(client, s.width, s.height) then
        var region := GetResizeRegion(client, s.width, s.height);
        var hover := s.(cursor := ResizeCursor(region));
        if leftHeld then Resized(hover.(region := region), mouse) else hover
      else
        var hover := s.(cursor := Default);
        if leftHeld then hover.(x := mouse.x - s.offset.x, y := mouse.y - s.offset.y) else hover
  }

  /** OnMouseUp: the drag is over. */
  function Released(s: FormState): (r: FormState)
    ensures r.region == None
    ensures r == s.(region := None)
  {
    s.(region := None)
  }

  // ---------------------------------------------------------------------------
  // Keyboard, orientation, lock

  /** The keyboard step: 1 pixel with Control, 10 without. */
  function KeyStep(ctrl: bool): int {
    if ctrl then 1 else 10
  }

  /** +1 for the keys that point right or down, -1 for left or up. */
  function Sign(key: Key): int {
    if key == Right || key == Down then 1 else -1
  }

  /** HandleMoveResizeKeystroke: without Shift an arrow moves the form along its
      axis, with Shift it grows (Right, Down) or shrinks (Left, Up) the form along
      that axis; nothing else changes, and the Locked flag is not consulted. */
  function Keystroke(s: FormState, key: Key, shift: bool, ctrl: bool): (r: FormState)
    requires key.IsArrow()
    ensures r == s.(x := r.x, y := r.y, width := r.width, height := r.height)
    ensures var d := Sign(key) * KeyStep(ctrl);
      if !shift then
        r.width == s.width && r.height == s.height &&
        (if key == Right || key == Left then r.x == s.x + d && r.y == s.y
         else r.y == s.y + d && r.x == s.x)
      else
        r.x == s.x && r.y == s.y &&
        (if key == Right || key == Left then r.width == s.width + d && r.height == s.height
         else r.height == s.height + d && r.width == s.width)
  {
    var size := KeyStep(ctrl);
    match key
    case Right => if shift then s.(width := s.width + size) else s.(x := s.x + size)
    case Left => if shift then s.(width := s.width - size) else s.(x := s.x - size)
    case Up => if shift then s.(height := s.height - size) else s.(y := s.y - size)
    case Down => if shift then s.(height := s.height + size) else s.(y := s.y + size)
  }

  /** ChangeOrientation: flip the Vertical flag and swap width and height. */
  function Reoriented(s: FormState): (r: FormState)
    ensures r.isVertical != s.isVertical
    ensures r.width == s.height && r.height == s.width
    ensures r == s.(isVertical := r.isVertical, width := r.width, height := r.height)
  {
    s.(isVertical := !s.isVertical, width := s.height, height := s.width)
  }

  /** OnKeyDown: arrows move or resize, Space changes orientation; Enter only
      shows a message and every other key is ignored. */
  function KeyPressed(s: FormState, key: Key, shift: bool, ctrl: bool): (r: FormState)
    ensures key.IsArrow() ==> r == Keystroke(s, key, shift, ctrl)
    ensures key == Space ==> r == Reoriented(s)
    ensures !key.IsArrow() && key != Space ==> r == s
  {
    match key
    case Right | Left | Up | Down => Keystroke(s, key, shift, ctrl)
    case Space => Reoriented(s)
    case _ => s
  }

  /** The double-click handler: flips the Vertical flag and nothing else. */
  function Flipped(s: FormState): (r: FormState)
    ensures r.isVertical != s.isVertical
    ensures r == s.(isVertical := r.isVertical)
  {
    s.(isVertical := !s.isVertical)
  }

  /** LockHandler: toggles the Locked flag and nothing else. */
  function LockToggled(s: FormState): (r: FormState)
    ensures r.isLocked != s.isLocked
    ensures r == s.(isLocked := r.isLocked)
  {
    s.(isLocked := !s.isLocked)
  }

  // ---------------------------------------------------------------------------
  // Painting

  /** The logical (width, height) OnPaint hands to DrawRuler: the ruler's long
      axis is always the logical width, so a vertical form is drawn with its
      sides swapped. */
  function LogicalSize(s: FormState): (d: (int, int))
    ensures s.isVertical ==> d == (s.height, s.width)
    ensures !s.isVertical ==> d == (s.width, s.height)
  {
    if s.isVertical then (s.height, s.width) else (s.width, s.height)
  }

  /** The transform OnPaint applies before drawing a vertical form: a rotation
      by 90 degrees and then a shift along y by 1 - Width. */
  datatype Transform = Identity | RotateThenShift(shiftY: int)

  function PaintTransform(s: FormState): (t: Transform)
    ensures t.RotateThenShift? <==> s.isVertical
    ensures t.RotateThenShift? ==> t.shiftY + s.width == 1
  {
    if s.isVertical then RotateThenShift(-s.width + 1) else Identity
  }

  /** What OnPaint draws for a form, given the font height. */
  function Picture(s: FormState, fontHeight: int): seq<Rendering.Command> {
    var (w, h) := LogicalSize(s);
    Rendering.Ruler(w, h, fontHeight)
  }

  // ---------------------------------------------------------------------------
  // Laws of the handlers

  /** HandleResize is absolute: it reads the press-time snapshot and the cursor
      only, so a later resize overrides an earlier one and repeating a move
      changes nothing more. */
  lemma ResizeIsAbsolute(s: FormState, first: Point, second: Point)
    ensures Resized(Resized(s, first), second) == Resized(s, second)
    ensures Resized(Resized(s, second), second) == Resized(s, second)
  {
  }

  /** The press-time snapshot fixes the outcome: two forms that differ only in
      their current size resize to the same size. */
  lemma ResizeIgnoresCurrentSize(s: FormState, w: int, h: int, mouse: Point)
    requires !s.isLocked && s.region == SE
    ensures Resized(s.(width := w, height := h), mouse) == Resized(s, mouse)
  {
  }

  /** Locked, or any region other than E, S and SE: the geometry stays put. */
  lemma InertRegions(s: FormState, mouse: Point)
    requires s.isLocked || s.region in {None, N, NE, W, SW, NW}
    ensures Resized(s, mouse) == s
  {
  }

  /** A press followed by a move to the same point outside the band leaves the
      form where it was. */
  lemma PressAndHoldStill(s: FormState, mouse: Point)
    requires s.region == None
    requires !InBand(ClientPoint(s, mouse), s.width, s.height)
    ensures var r := Moved(Pressed(s, mouse), mouse, true);
      r.x == s.x && r.y == s.y && r.width == s.width && r.height == s.height
  {
  }

  /** An arrow key is undone by the opposite arrow with the same modifiers. */
  function Opposite(key: Key): Key
    requires key.IsArrow()
  {
    match key
    case Right => Left
    case Left => Right
    case Up => Down
    case Down => Up
  }

  lemma KeystrokeUndone(s: FormState, key: Key, shift: bool, ctrl: bool)
    requires key.IsArrow()
    ensures Keystroke(Keystroke(s, key, shift, ctrl), Opposite(key), shift, ctrl) == s
  {
  }

  /** The keyboard path behaves the same whether or not the form is locked. */
  lemma KeystrokeIgnoresLock(s: FormState, key: Key, shift: bool, ctrl: bool)
    requires key.IsArrow()
    ensures Keystroke(s.(isLocked := !s.isLocked), key, shift, ctrl)
         == Keystroke(s, key, shift, ctrl).(isLocked := !s.isLocked)
  {
  }

  /** Changing orientation twice is the identity; so is double-clicking twice. */
  lemma OrientationInvolutions(s: FormState)
    ensures Reoriented(Reoriented(s)) == s
    ensures Flipped(Flipped(s)) == s
  {
  }

  /** ChangeOrientation keeps the picture: the logical size, and so the ticks
      drawn, are the same; only the transform changes. A double-click, which
      does not swap the sides, swaps the logical size instead. */
  lemma OrientationAndPicture(s: FormState, fontHeight: int)
    ensures LogicalSize(Reoriented(s)) == LogicalSize(s)
    ensures Picture(Reoriented(s), fontHeight) == Picture(s, fontHeight)
    ensures LogicalSize(Flipped(s)) == (LogicalSize(s).1, LogicalSize(s).0)
  {
  }

  // ---------------------------------------------------------------------------
  // Event sequences

  datatype Event =
    | MouseDown(at: Point)
    | MouseMove(to: Point, leftHeld: bool)
    | MouseUp
    | KeyDown(key: Key, shift: bool, ctrl: bool)
    | DoubleClick
    | ToggleLock

  function Step(s: FormState, e: Event): FormState {
    match e
    case MouseDown(p) => Pressed(s, p)
    case MouseMove(p, held) => Moved(s, p, held)
    case MouseUp => Released(s)
    case KeyDown(k, shift, ctrl) => KeyPressed(s, k, shift, ctrl)
    case DoubleClick => Flipped(s)
    case ToggleLock => LockToggled(s)
  }

  /** The state after handling the events in order. */
  function Run(s: FormState, events: seq<Event>): FormState
    decreases |events|
  {
    if events == [] then s else Run(Step(s, events[0]), events[1..])
  }

  /** Once a region is active, mouse moves never reposition the form: the region
      stays, the location stays, and the size is that of the last move's resize
      against the press-time snapshot, until a release ends the drag. */
  lemma {:induction false} ResizeDragIsSticky(s: FormState, events: seq<Event>)
    requires s.region != None
    requires forall i :: 0 <= i < |events| ==> events[i].MouseMove?
    ensures Run(s, events).region == s.region
    ensures Run(s, events).x == s.x && Run(s, events).y == s.y
    ensures |events| > 0 ==> Run(s, events) == Resized(s, events[|events| - 1].to)
    ensures Released(Run(s, events)).region == None
    decreases |events|
  {
    if events != [] {
      var t := Moved(s, events[0].to, events[0].leftHeld);
      ResizeDragIsSticky(t, events[1..]);
      if |events| > 1 {
        ResizeIsAbsolute(s, events[0].to, events[|events| - 1].to);
      }
    }
  }

  /** While the form is locked, no sequence of mouse events changes its size
      (moving it by a drag is still possible). */
  lemma {:induction false} LockedMouseKeepsSize(s: FormState, events: seq<Event>)
    requires s.isLocked
    requires forall i :: 0 <= i < |events| ==>
      events[i].MouseDown? || events[i].MouseMove? || events[i].MouseUp?
    ensures Run(s, events).width == s.width && Run(s, events).height == s.height
    ensures Run(s, events).isLocked
    decreases |events|
  {
    if events != [] {
      LockedMouseKeepsSize(Step(s, events[0]), events[1..]);
    }
  }

  /** The bottom-right corner dragged from (50, 50) to (70, 40) on a 200 by 100
      form gives a 220 by 90 form. */
  lemma CornerDragExample(s: FormState)
    requires !s.isLocked && s.region == SE
    requires s.downPoint == Point(50, 50) && s.downW == 200 && s.downH == 100
    ensures Moved(s, Point(70, 40), true).width == 220
    ensures Moved(s, Point(70, 40), true).height == 90
  {
  }
}
