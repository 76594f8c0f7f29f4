# Ruler: a verified model of the on-screen ruler's form logic

The ruler is a borderless always-on-top window. You drag its right edge, bottom
edge or bottom-right corner to resize it. You drag anywhere else to move it. The
arrow keys move it or, with Shift held, resize it. It draws pixel and millimetre
ticks along its long axis. All of this logic lives in one form class,
`MainForm`. This project models that class in Dafny:

- `regions.dfy` (module `Regions`) holds the hit test. It decides whether a
  client-area cursor position lies in the 5-pixel band along the edges
  (`InBand`), which of the eight border regions the position belongs to
  (`GetResizeRegion`), and which cursor shape goes with that region
  (`ResizeCursor`).
- `interaction.dfy` (module `Interaction`) holds the form's state as a value
  (`FormState`) and one function per input handler: press, move, release, arrow
  keys, Space, double-click and lock toggle. It also holds the logical size and
  transform that `OnPaint` uses, the laws these handlers obey, and two inductive
  lemmas about runs of events.
- `ruler_window.dfy` (module `RulerForm`) holds the class `RulerWindow`. It has
  the form's fields, and its methods update them in place the way the C#
  handlers do. Each method is proved to produce exactly the state that the
  matching `Interaction` function gives.
- `rendering.dfy` (module `Rendering`) holds the drawing of `DrawRuler`,
  `DrawTick` and `DrawTickLabel`. It is a method with the source's two loops,
  proved equal to the specification function `Ruler`. Lemmas then say which
  ticks and labels the drawing contains.

The millimetre constant `96 / 25.4` equals exactly `480 / 127`. So the loop test
`i < formWidth / PixelsPerMillimeter` becomes `i * 480 < formWidth * 127`, and
the drawn position `(int)(i * PixelsPerMillimeter)` becomes `i * 480 / 127`
(with `i >= 0`, truncation and floor agree). A position comes from a screen
point minus the form's location, which is what `PointToClient` gives for a
borderless form.

Behaviour worth knowing, as the code has it:

- Only the E, S and SE regions resize. N, NE, W, SW and NW are detected and get
  a cursor, but do nothing else.
- A left-button move in the band records the region even when the form is
  locked. After that, every move until the release goes to `HandleResize`. That
  call then does nothing, and the form is not moved either.
- `HandleResize` runs on every move while a region is active, whatever the
  button state.
- Space and the Vertical menu command call `ChangeOrientation`, which swaps
  width and height. A double-click only flips the Vertical flag, so the logical
  size seen by the renderer swaps instead (`OrientationAndPicture`).
- The arrow keys ignore the Locked flag.

## Model

| member | source | states |
|---|---|---|
| `Regions.Rect.Inflate` | Source/Ruler/MainForm.cs:211 | Inflating by a negative amount moves each side inward by that amount, keeping the opposite corner's relation |
| `Regions.InBand` | Source/Ruler/MainForm.cs:209-213 | The band test holds exactly when the point is in `[0,W)x[0,H)` and not in the inner rectangle `[5,W-5)x[5,H-5)` |
| `Regions.GetResizeRegion` | Source/Ruler/MainForm.cs:381-400 | Never `None`. Northern part iff `y <= 5`. Southern part iff not north and `y >= H-5`. Western part iff `x <= 5` (left is tested before right, so corners win over edges). Eastern part iff `x > 5` and either `x >= W-5` or in the middle rows. |
| `Regions.ResizeCursor` | Source/Ruler/MainForm.cs:356-379 | Total and never the default cursor. SizeNS exactly for pure north/south, SizeWE for pure east/west, SizeNWSE for NW/SE, SizeNESW for NE/SW and for `None` |
| `Regions.BandRegionNearEdge` | Source/Ruler/MainForm.cs:213-217 | For a point that passed the band test, an eastern region lies within 5 px of the right edge, a southern one within 5 px of the bottom, and western/northern ones in columns/rows 0..5 |
| `Rendering.HalfTowardZero` | Source/Ruler/MainForm.cs:428 | C# `/ 2` truncates toward zero: the remainder is 0 or 1 for non-negative input and 0 or -1 for negative input |
| `Rendering.MmTickCount` | Source/Ruler/MainForm.cs:431 | The millimetre loop runs for exactly the `i` with `i*480 < w*127` (both directions), so it stops at the first failing `i` |
| `Rendering.MmXTruncates` | Source/Ruler/MainForm.cs:433 | The drawn position of millimetre `i` is the whole part of `i*480/127` |
| `Rendering.MmTickHeight` | Source/Ruler/MainForm.cs:435-447 | A millimetre tick is 15 iff `i % 50 == 0`, 10 iff `i % 10 == 0` but not `i % 50 == 0`, and 5 otherwise |
| `Rendering.PxTickHeight` | Source/Ruler/MainForm.cs:459-471 | A pixel tick is 15 iff `i % 100 == 0`, 10 iff `i % 10 == 0` but not `i % 100 == 0`, and 5 otherwise |
| `Rendering.DrawTick` | Source/Ruler/MainForm.cs:483-493 | A vertical segment at `xPos`, starting at the top edge (y=0) or the bottom edge (y=formHeight), extending `tickHeight` inward |
| `Rendering.DrawTickLabel` | Source/Ruler/MainForm.cs:495-505 | Label at `xPos`. It sits at y=`height` from the top, or below the edge it ends `height` above the bottom (lifted by the font height) |
| `Rendering.DrawRuler` | Source/Ruler/MainForm.cs:422-476 | The two-loop drawing equals `Ruler(w, h)`: the border `(0,0,w-1,h-1)`, the size text at x=10, the millimetre pass, then the pixel pass |
| `Rendering.MmStepMarks` | Source/Ruler/MainForm.cs:435-449 | One millimetre pass draws exactly one top tick, plus a label exactly when `i % 50 == 0` |
| `Rendering.PxStepMarks` | Source/Ruler/MainForm.cs:455-473 | One pixel pass draws a bottom tick exactly for even `i`, plus a label exactly when `i % 100 == 0` |
| `Rendering.MmTickMarks` | Source/Ruler/MainForm.cs:431-450 | The millimetre pass draws `n` ticks. Tick `i` hangs from y=0 at `MmX(i)` and has height 15/10/5 by `i % 50`, `i % 10` |
| `Rendering.MmLabelMarks` | Source/Ruler/MainForm.cs:435-438 | The millimetre labels are exactly `0, 50, 100, ...` mm below `n`, each at its tick's x and at y=15 |
| `Rendering.PxTickMarks` | Source/Ruler/MainForm.cs:453-475 | The pixel pass draws one tick per even pixel `2j < n`, rising from y=h by 15/10/5 according to `2j % 100`, `2j % 10` |
| `Rendering.PxLabelMarks` | Source/Ruler/MainForm.cs:459-462 | The pixel labels are exactly `0, 100, 200, ...` px below `n`, at y = `h - 15 - fontHeight` |
| `Rendering.MmTickSpacing` | Source/Ruler/MainForm.cs:433 | Consecutive millimetre ticks are 3 or 4 pixels apart, so their positions strictly increase |
| `Rendering.MmTickOnRuler` | Source/Ruler/MainForm.cs:431-449 | Every millimetre tick the loop draws has `0 <= x < formWidth` |
| `Rendering.RulerTickMarks` | Source/Ruler/MainForm.cs:422-476 | The first command is the border. The ticks are the `MmTickCount(w)` millimetre ticks followed by the `(w+1)/2` even-pixel ticks |
| `Rendering.HundredPixelRuler` | Source/Ruler/MainForm.cs:431-438 | A 100-pixel ruler draws 27 millimetre ticks and only the 0 mm label |
| `Interaction.Pressed` | Source/Ruler/MainForm.cs:186-193 | After a press, location + offset is the cursor. The press point and press-time size are recorded, and nothing else changes |
| `Interaction.Resized` | Source/Ruler/MainForm.cs:326-354 | Only width/height change. Unlocked E/SE: the width changes from the press-time width by the cursor's x displacement since the press. Unlocked S/SE: the same for height. Locked or any other region: unchanged |
| `Interaction.Moved` | Source/Ruler/MainForm.cs:201-237 | With an active region: exactly `Resized`. Otherwise the cursor follows the band test. With no button: only the cursor changes. A left drag outside the band puts location + offset at the cursor with the size unchanged. A left drag in the band activates `GetResizeRegion` and resizes. The region is `None` afterwards iff none was active and no band drag began. The snapshot and flags never change |
| `Interaction.Released` | Source/Ruler/MainForm.cs:195-199 | Release clears the region and nothing else |
| `Interaction.Keystroke` | Source/Ruler/MainForm.cs:276-324 | The step is 1 with Ctrl and 10 otherwise. Without Shift, only Left (Left/Right keys) or Top (Up/Down) moves, by +step for Right/Down and -step for Left/Up. With Shift, only Width or Height changes the same way |
| `Interaction.KeyPressed` | Source/Ruler/MainForm.cs:254-274 | Arrows dispatch to `Keystroke`, Space to `Reoriented`. Enter and every other key leave the state unchanged |
| `Interaction.Reoriented` | Source/Ruler/MainForm.cs:566-572 | Flips Vertical and swaps width and height, nothing else |
| `Interaction.Flipped` | Source/Ruler/MainForm.cs:96-97 | Flips Vertical only |
| `Interaction.LockToggled` | Source/Ruler/MainForm.cs:152-156 | Flips Locked only |
| `Interaction.LogicalSize` | Source/Ruler/MainForm.cs:406-415 | The renderer gets `(Height, Width)` when vertical and `(Width, Height)` otherwise |
| `Interaction.PaintTransform` | Source/Ruler/MainForm.cs:409-412 | Rotation applies exactly when vertical, followed by a y shift of `1 - Width` |
| `Interaction.ResizeIsAbsolute` | Source/Ruler/MainForm.cs:335-351 | A later resize overrides an earlier one, so repeating the same move is idempotent |
| `Interaction.ResizeIgnoresCurrentSize` | Source/Ruler/MainForm.cs:347-351 | An SE resize depends on the press-time snapshot and cursor, not on the current size |
| `Interaction.InertRegions` | Source/Ruler/MainForm.cs:328-353 | Locked, or region None/N/NE/W/SW/NW: `HandleResize` changes nothing |
| `Interaction.PressAndHoldStill` | Source/Ruler/MainForm.cs:188-232 | A press followed by a left-drag to the same point outside the band leaves location and size unchanged |
| `Interaction.KeystrokeUndone` | Source/Ruler/MainForm.cs:280-323 | An arrow followed by the opposite arrow with the same modifiers restores the state |
| `Interaction.KeystrokeIgnoresLock` | Source/Ruler/MainForm.cs:276-324 | The keyboard move/resize gives the same result whether or not the form is locked |
| `Interaction.OrientationInvolutions` | Source/Ruler/MainForm.cs:566-572 | `ChangeOrientation` twice is the identity, and so is the double-click flip twice |
| `Interaction.OrientationAndPicture` | Source/Ruler/MainForm.cs:409-417 | `ChangeOrientation` keeps the logical size and so the drawn ruler. A double-click swaps the logical size |
| `Interaction.ResizeDragIsSticky` | Source/Ruler/MainForm.cs:195-207 | From an active region, any run of moves keeps the region and the location, and the state is the resize for the last cursor. A release then clears the region |
| `Interaction.LockedMouseKeepsSize` | Source/Ruler/MainForm.cs:326-331 | While locked, no run of press/move/release events changes width or height |
| `Interaction.CornerDragExample` | Source/Ruler/MainForm.cs:347-351 | An SE drag from (50,50) to (70,40) on a 200x100 snapshot gives 220x90 |
| `RulerForm.RulerWindow.constructor` | Source/Ruler/MainForm.cs:23-27 | A new form has the given geometry and flags, no active region, zero offset/snapshot and the default cursor |
| `RulerForm.RulerWindow.MouseDown` | Source/Ruler/MainForm.cs:186-193 | The fields become `Pressed(old state, cursor)` |
| `RulerForm.RulerWindow.MouseUp` | Source/Ruler/MainForm.cs:195-199 | The fields become `Released(old state)` |
| `RulerForm.RulerWindow.HandleResize` | Source/Ruler/MainForm.cs:326-354 | The fields become `Resized(old state, cursor)` |
| `RulerForm.RulerWindow.MouseMove` | Source/Ruler/MainForm.cs:201-237 | The fields become `Moved(old state, cursor, leftHeld)` |
| `RulerForm.RulerWindow.HandleMoveResizeKeystroke` | Source/Ruler/MainForm.cs:276-324 | The fields become `Keystroke(old state, key, shift, ctrl)` |
| `RulerForm.RulerWindow.ChangeOrientation` | Source/Ruler/MainForm.cs:566-572 | The fields become `Reoriented(old state)` |
| `RulerForm.RulerWindow.KeyDown` | Source/Ruler/MainForm.cs:254-274 | The fields become `KeyPressed(old state, key, shift, ctrl)` |
| `RulerForm.RulerWindow.DoubleClick` | Source/Ruler/MainForm.cs:96-97 | The fields become `Flipped(old state)` |
| `RulerForm.RulerWindow.ToggleLock` | Source/Ruler/MainForm.cs:152-156 | The fields become `LockToggled(old state)` |
| `RulerForm.RulerWindow.Paint` | Source/Ruler/MainForm.cs:402-420 | Returns the rotation/shift for the orientation and exactly the commands of `Ruler` on the logical size |
| `RulerForm.RightEdgeDragScenario` | Source/Ruler/MainForm.cs:186-237 | Press at (198,50) on a fresh unlocked 200x100 form, move in place, move to (228,50), release: the form is 230x100, still at (0,0), and idle |

## Left out

- Integer width: all coordinates are unbounded integers. C#'s 32-bit `int` arithmetic can wrap around, and that is not modelled.
- WinForms clamping: the `Width`, `Height`, `Left`, `Top` and `Location` setters are plain assignments here. Any minimum size or screen-bound adjustment the framework makes is not modelled, so sizes may go to zero or below.
- Floating point: the millimetre constant is the exact rational 480/127. The source computes `formWidth / PixelsPerMillimeter` and `i * PixelsPerMillimeter` in IEEE double. At rare boundary widths, double rounding may decide the loop test or the truncated position differently.
- `SizeToString` (MainForm.cs:478-481) formats a floating-point millimetre value. The size text command carries only the pixel count. The tooltip (`SetToolTip`, `OnResize`) and the Enter key's message box are output only, so they change no modelled state.
- `Font.Height` is a parameter `fontHeight` of the renderer. The font itself, pens, brushes and the actual `Graphics` calls, including what `RotateTransform` and `TranslateTransform` do to pixels, are not modelled. `Paint` returns the transform as data.
- Mouse buttons: `leftHeld` stands for `e.Button == MouseButtons.Left`. Other buttons, or several at once, count as "not left".
- The menu and its handlers (`SetUpMenu`, `AddMenuItem`, `MenuHandler`, `OpacityMenuHandler`), the set-size dialog (`SetWidthHeightHandler`), `DuplicateHandler`, `GetRulerInfo`, `Main` and the resource and icon loading are UI wiring, process start-up or calls into classes that are not part of this model (`RulerInfo`, `SetSizeForm`). The Vertical menu command is `ChangeOrientation`, and "Lock resizing" is `ToggleLock`.
- Stay-on-top, opacity and the tooltip flag are not part of the modelled state, since no modelled handler reads them.
