/** The ruler's drawing: DrawRuler, DrawTick and DrawTickLabel as a sequence of
    drawing commands for a logical (width, height), with the ruler's long axis
    along x. The millimetre constant 96 / 25.4 is the exact ratio 480 / 127. */
module Rendering {

  datatype Unit = Millimeters | Pixels

  /** One Graphics call. Text is kept as the number and unit it shows. */
  datatype Command =
    | Border(x: int, y: int, width: int, height: int)   // DrawRectangle
    | SizeText(pixels: int, x: int, y: int)             // DrawString(SizeToString(..))
    | Tick(x: int, y1: int, y2: int)                    // DrawLine(x, y1, x, y2)
    | Label(value: int, unit: Unit, x: int, y: int)     // DrawString("{value}mm" / "{value}px")

  const MajorTick := 15
  const MidTick := 10
  const MinorTick := 5

  /** C#'s integer division by 2, which truncates toward zero. */
  function HalfTowardZero(a: int): (r: int)
    ensures a >= 0 ==> 0 <= a - 2 * r <= 1
    ensures a < 0 ==> -1 <= a - 2 * r <= 0
  {
    if a >= 0 then a / 2 else -((-a) / 2)
  }

  /** The loop test `i < formWidth / PixelsPerMillimeter`, cleared of the division. */
  predicate MmTickFits(i: nat, formWidth: int) {
    i * 480 < formWidth * 127
  }

  /** `(int)(i * PixelsPerMillimeter)`: the truncated pixel position of millimetre i. */
  function MmX(i: nat): nat {
    i * 480 / 127
  }

  /** MmX(i) is the whole part of i * 480 / 127, the pixel position of millimetre i. */
  lemma MmXTruncates(i: nat)
    ensures 127 * MmX(i) <= 480 * i < 127 * (MmX(i) + 1)
  {
  }

  /** How many millimetre ticks the loop draws: exactly the i that pass the test. */
  function MmTickCount(formWidth: int): (n: nat)
    ensures forall i: nat :: MmTickFits(i, formWidth) <==> i < n
  {
    if formWidth <= 0 then 0 else (formWidth * 127 + 479) / 480
  }

  /** Height of millimetre tick i: 15 every 50 mm, 10 every 10 mm, 5 otherwise. */
  function MmTickHeight(i: nat): (t: int)
    ensures t == MajorTick <==> i % 50 == 0
    ensures t == MidTick <==> i % 50 != 0 && i % 10 == 0
    ensures t == MinorTick <==> i % 10 != 0
  {
    if i % 50 == 0 then MajorTick
    else if i % 10 == 0 then MidTick
    else MinorTick
  }

  /** Height of pixel tick i: 15 every 100 px, 10 every 10 px, 5 otherwise. */
  function PxTickHeight(i: nat): (t: int)
    ensures t == MajorTick <==> i % 100 == 0
    ensures t == MidTick <==> i % 100 != 0 && i % 10 == 0
    ensures t == MinorTick <==> i % 10 != 0
  {
    if i % 100 == 0 then MajorTick
    else if i % 10 == 0 then MidTick
    else MinorTick
  }

  /** DrawTick: a vertical segment of tickHeight pixels hanging from the top edge,
      or standing on the bottom edge (y = formHeight). */
  function DrawTick(xPos: int, formHeight: int, tickHeight: int, isTop: bool): (c: Command)
    ensures c.Tick? && c.x == xPos
    ensures c.y1 == (if isTop then 0 else formHeight)
    ensures c.y2 - c.y1 == (if isTop then tickHeight else -tickHeight)
  {
    if isTop then Tick(xPos, 0, tickHeight)
    else Tick(xPos, formHeight, formHeight - tickHeight)
  }

  /** DrawTickLabel: text at the tick's free end; below the edge the label is
      lifted by the font height so that it ends where the tick does. */
  function DrawTickLabel(value: int, unit: Unit, xPos: int, formHeight: int, height: int,
                         fontHeight: int, isTop: bool): (c: Command)
    ensures c.Label? && c.value == value && c.unit == unit && c.x == xPos
    ensures isTop ==> c.y == height
    ensures !isTop ==> c.y + fontHeight == formHeight - height
  {
    if isTop then Label(value, unit, xPos, height)
    else Label(value, unit, xPos, formHeight - height - fontHeight)
  }

  /** The commands of one pass of the millimetre loop. */
  function MmStep(i: nat, formHeight: int, fontHeight: int): seq<Command> {
    var x := MmX(i);
    var tickHeight := MmTickHeight(i);
    (if i % 50 == 0 then [DrawTickLabel(i, Millimeters, x, formHeight, tickHeight, fontHeight, true)] else [])
    + [DrawTick(x, formHeight, tickHeight, true)]
  }

  /** The commands of the first n passes of the millimetre loop. */
  function MmTicks(n: nat, formHeight: int, fontHeight: int): seq<Command> {
    if n == 0 then [] else MmTicks(n - 1, formHeight, fontHeight) + MmStep(n - 1, formHeight, fontHeight)
  }

  /** The commands of one pass of the pixel loop: nothing for odd i. */
  function PxStep(i: nat, formHeight: int, fontHeight: int): seq<Command> {
    if i % 2 != 0 then []
    else
      var tickHeight := PxTickHeight(i);
      (if i % 100 == 0 then [DrawTickLabel(i, Pixels, i, formHeight, tickHeight, fontHeight, false)] else [])
      + [DrawTick(i, formHeight, tickHeight, false)]
  }

  /** The commands of the first n passes of the pixel loop. */
  function PxTicks(n: nat, formHeight: int, fontHeight: int): seq<Command> {
    if n == 0 then [] else PxTicks(n - 1, formHeight, fontHeight) + PxStep(n - 1, formHeight, fontHeight)
  }

  /** Everything DrawRuler draws, in order: the border, the size text, the
      millimetre pass and the pixel pass. */
  function Ruler(formWidth: int, formHeight: int, fontHeight: int): seq<Command> {
    [Border(0, 0, formWidth - 1, formHeight - 1),
     SizeText(formWidth, 10, HalfTowardZero(formHeight) - HalfTowardZero(fontHeight))]
    + MmTicks(MmTickCount(formWidth), formHeight, fontHeight)
    + PxTicks(if formWidth > 0 then formWidth else 0, formHeight, fontHeight)
  }

  /** DrawRuler with its two loops; each pass collects what it draws, in order. */
  method DrawRuler(formWidth: int, formHeight: int, fontHeight: int) returns (cmds: seq<Command>)
    ensures cmds == Ruler(formWidth, formHeight, fontHeight)
  {
    var head := [Border(0, 0, formWidth - 1, formHeight - 1),
                 SizeText(formWidth, 10, HalfTowardZero(formHeight) - HalfTowardZero(fontHeight))];

    var mm: seq<Command> := [];
    var i := 0;
    while i * 480 < formWidth * 127
      invariant 0 <= i <= MmTickCount(formWidth)
      invariant mm == MmTicks(i, formHeight, fontHeight)
      decreases MmTickCount(formWidth) - i
    {
      var x := i * 480 / 127;
      var tickHeight;
      var step: seq<Command> := [];
      if i % 50 == 0 {
        tickHeight := MajorTick;
        step := [DrawTickLabel(i, Millimeters, x, formHeight, tickHeight, fontHeight, true)];
      } else if i % 10 == 0 {
        tickHeight := MidTick;
      } else {
        tickHeight := MinorTick;
      }
      step := step + [DrawTick(x, formHeight, tickHeight, true)];
      assert step == MmStep(i, formHeight, fontHeight);
      mm := mm + step;
      i := i + 1;
    }
    assert i == MmTickCount(formWidth) by { assert !MmTickFits(i, formWidth); }

    var px: seq<Command> := [];
    i := 0;
    while i < formWidth
      invariant 0 <= i <= (if formWidth > 0 then formWidth else 0)
      invariant px == PxTicks(i, formHeight, fontHeight)
    {
      var step: seq<Command> := [];
      if i % 2 == 0 {
        var tickHeight;
        if i % 100 == 0 {
          tickHeight := MajorTick;
          step := [DrawTickLabel(i, Pixels, i, formHeight, tickHeight, fontHeight, false)];
        } else if i % 10 == 0 {
          tickHeight := MidTick;
        } else {
          tickHeight := MinorTick;
        }
        step := step + [DrawTick(i, formHeight, tickHeight, false)];
      }
      assert step == PxStep(i, formHeight, fontHeight);
      px := px + step;
      i := i + 1;
    }
    cmds := head + mm + px;
  }


  // ---------------------------------------------------------------------------
  // What the drawing contains

  /** The tick lines among some commands, in order. */
  function TicksOf(cmds: seq<Command>): seq<Command> {
    if cmds == [] then []
    else (if cmds[0].Tick? then [cmds[0]] else []) + TicksOf(cmds[1..])
  }

  /** The tick labels among some commands, in order. */
  function LabelsOf(cmds: seq<Command>): seq<Command> {
    if cmds == [] then []
    else (if cmds[0].Label? then [cmds[0]] else []) + LabelsOf(cmds[1..])
  }

  lemma {:induction false} TicksOfAppend(a: seq<Command>, b: seq<Command>)
    ensures TicksOf(a + b) == TicksOf(a) + TicksOf(b)
    ensures LabelsOf(a + b) == LabelsOf(a) + LabelsOf(b)
  {
    TicksOfAppendTicks(a, b);
    TicksOfAppendLabels(a, b);
  }

  lemma {:induction false} TicksOfAppendTicks(a: seq<Command>, b: seq<Command>)
    ensures TicksOf(a + b) == TicksOf(a) + TicksOf(b)
  {
    if a == [] {
      assert a + b == b;
    } else {
      var ab := a + b;
      assert ab[0] == a[0] && ab[1..] == a[1..] + b;
      TicksOfAppendTicks(a[1..], b);
      assert TicksOf(ab) == (if a[0].Tick? then [a[0]] else []) + TicksOf(ab[1..]);
    }
  }

  lemma {:induction false} TicksOfAppendLabels(a: seq<Command>, b: seq<Command>)
    ensures LabelsOf(a + b) == LabelsOf(a) + LabelsOf(b)
  {
    if a == [] {
      assert a + b == b;
    } else {
      var ab := a + b;
      assert ab[0] == a[0] && ab[1..] == a[1..] + b;
      TicksOfAppendLabels(a[1..], b);
      assert LabelsOf(ab) == (if a[0].Label? then [a[0]] else []) + LabelsOf(ab[1..]);
    }
  }

  /** The marks of a label followed by its tick, and of a lone tick. */
  lemma PairMarks(text: Command, tick: Command)
    requires text.Label? && tick.Tick?
    ensures TicksOf([text, tick]) == [tick] && LabelsOf([text, tick]) == [text]
    ensures TicksOf([tick]) == [tick] && LabelsOf([tick]) == []
  {
    assert [tick][1..] == [];
    assert TicksOf([tick]) == [tick] + TicksOf([]);
    assert LabelsOf([tick]) == [] + LabelsOf([]);
    assert [text, tick][1..] == [tick];
    assert TicksOf([text, tick]) == [] + TicksOf([tick]);
    assert LabelsOf([text, tick]) == [text] + LabelsOf([tick]);
  }

  /** What one pass of the millimetre loop contributes to the ticks and labels. */
  lemma MmStepMarks(i: nat, formHeight: int, fontHeight: int)
    ensures TicksOf(MmStep(i, formHeight, fontHeight)) == [Tick(MmX(i), 0, MmTickHeight(i))]
    ensures LabelsOf(MmStep(i, formHeight, fontHeight))
      == if i % 50 == 0 then [Label(i, Millimeters, MmX(i), MajorTick)] else []
  {
    PairMarks(Label(i, Millimeters, MmX(i), MajorTick), Tick(MmX(i), 0, MmTickHeight(i)));
  }

  /** What one pass of the pixel loop contributes to the ticks and labels. */
  lemma PxStepMarks(i: nat, formHeight: int, fontHeight: int)
    ensures TicksOf(PxStep(i, formHeight, fontHeight))
      == if i % 2 == 0 then [Tick(i, formHeight, formHeight - PxTickHeight(i))] else []
    ensures LabelsOf(PxStep(i, formHeight, fontHeight))
      == if i % 100 == 0 then [Label(i, Pixels, i, formHeight - MajorTick - fontHeight)] else []
  {
    if i % 2 != 0 {
      assert i % 100 != 0;
      assert PxStep(i, formHeight, fontHeight) == [];
    } else {
      PairMarks(Label(i, Pixels, i, formHeight - MajorTick - fontHeight),
                Tick(i, formHeight, formHeight - PxTickHeight(i)));
    }
  }

  /** One more pass of each loop adds that pass's marks at the end. */
  lemma MmTicksGrow(m: nat, formHeight: int, fontHeight: int)
    ensures TicksOf(MmTicks(m + 1, formHeight, fontHeight))
      == TicksOf(MmTicks(m, formHeight, fontHeight)) + [Tick(MmX(m), 0, MmTickHeight(m))]
    ensures LabelsOf(MmTicks(m + 1, formHeight, fontHeight))
      == LabelsOf(MmTicks(m, formHeight, fontHeight))
       + if m % 50 == 0 then [Label(m, Millimeters, MmX(m), MajorTick)] else []
  {
    TicksOfAppend(MmTicks(m, formHeight, fontHeight), MmStep(m, formHeight, fontHeight));
    MmStepMarks(m, formHeight, fontHeight);
  }

  lemma PxTicksGrow(m: nat, formHeight: int, fontHeight: int)
    ensures TicksOf(PxTicks(m + 1, formHeight, fontHeight))
      == TicksOf(PxTicks(m, formHeight, fontHeight))
       + if m % 2 == 0 then [Tick(m, formHeight, formHeight - PxTickHeight(m))] else []
    ensures LabelsOf(PxTicks(m + 1, formHeight, fontHeight))
      == LabelsOf(PxTicks(m, formHeight, fontHeight))
       + if m % 100 == 0 then [Label(m, Pixels, m, formHeight - MajorTick - fontHeight)] else []
  {
    TicksOfAppend(PxTicks(m, formHeight, fontHeight), PxStep(m, formHeight, fontHeight));
    PxStepMarks(m, formHeight, fontHeight);
  }

  /** A sequence whose first k elements are f(0), ..., f(k-1), extended by f(k)
      or by nothing, is still f(0), f(1), ... */
  lemma Extend(before: seq<Command>, after: seq<Command>, f: nat -> Command, k: nat, grows: bool)
    requires |before| == k
    requires forall j: nat :: j < k ==> before[j] == f(j)
    requires after == before + if grows then [f(k)] else []
    ensures |after| == if grows then k + 1 else k
    ensures forall j: nat :: j < |after| ==> after[j] == f(j)
  {
  }

  /** The millimetre pass draws one tick per millimetre, from the top edge at the
      truncated position of that millimetre, 15 pixels long every 50 mm, 10 every
      10 mm and 5 otherwise. */
  lemma {:induction false} MmTickMarks(n: nat, formHeight: int, fontHeight: int)
    ensures |TicksOf(MmTicks(n, formHeight, fontHeight))| == n
    ensures forall i: nat :: i < n ==>
      TicksOf(MmTicks(n, formHeight, fontHeight))[i] == Tick(MmX(i), 0, MmTickHeight(i))
  {
    if n > 0 {
      MmTickMarks(n - 1, formHeight, fontHeight);
      MmTicksGrow(n - 1, formHeight, fontHeight);
      Extend(TicksOf(MmTicks(n - 1, formHeight, fontHeight)), TicksOf(MmTicks(n, formHeight, fontHeight)),
             (i: nat) => Tick(MmX(i), 0, MmTickHeight(i)), n - 1, true);
    }
  }

  /** The millimetre pass labels every 50th millimetre, just below its tick. */
  lemma {:induction false} MmLabelMarks(n: nat, formHeight: int, fontHeight: int)
    ensures |LabelsOf(MmTicks(n, formHeight, fontHeight))| == (n + 49) / 50
    ensures forall j: nat :: j < (n + 49) / 50 ==>
      LabelsOf(MmTicks(n, formHeight, fontHeight))[j] == Label(50 * j, Millimeters, MmX(50 * j), MajorTick)
  {
    if n > 0 {
      var m := n - 1;
      var q, r := m / 50, m % 50;
      assert m == 50 * q + r && 0 <= r < 50;
      assert (m + 49) / 50 == if r == 0 then q else q + 1;
      assert (n + 49) / 50 == q + 1;
      MmLabelMarks(m, formHeight, fontHeight);
      MmTicksGrow(m, formHeight, fontHeight);
      Extend(LabelsOf(MmTicks(m, formHeight, fontHeight)), LabelsOf(MmTicks(n, formHeight, fontHeight)),
             (j: nat) => Label(50 * j, Millimeters, MmX(50 * j), MajorTick), (m + 49) / 50, r == 0);
    }
  }

  /** The pixel pass draws one tick per even pixel, standing on the bottom edge,
      15 pixels long every 100 pixels, 10 every 10 and 5 otherwise. */
  lemma {:induction false} PxTickMarks(n: nat, formHeight: int, fontHeight: int)
    ensures |TicksOf(PxTicks(n, formHeight, fontHeight))| == (n + 1) / 2
    ensures forall j: nat :: j < (n + 1) / 2 ==>
      TicksOf(PxTicks(n, formHeight, fontHeight))[j]
        == Tick(2 * j, formHeight, formHeight - PxTickHeight(2 * j))
  {
    if n > 0 {
      var m := n - 1;
      var q, r := m / 2, m % 2;
      assert m == 2 * q + r && 0 <= r < 2;
      assert (m + 1) / 2 == if r == 0 then q else q + 1;
      assert (n + 1) / 2 == q + 1;
      PxTickMarks(m, formHeight, fontHeight);
      PxTicksGrow(m, formHeight, fontHeight);
      Extend(TicksOf(PxTicks(m, formHeight, fontHeight)), TicksOf(PxTicks(n, formHeight, fontHeight)),
             (j: nat) => Tick(2 * j, formHeight, formHeight - PxTickHeight(2 * j)), (m + 1) / 2, r == 0);
    }
  }

  /** The pixel pass labels every 100th pixel, its text ending at the tick's top. */
  lemma {:induction false} PxLabelMarks(n: nat, formHeight: int, fontHeight: int)
    ensures |LabelsOf(PxTicks(n, formHeight, fontHeight))| == (n + 99) / 100
    ensures forall j: nat :: j < (n + 99) / 100 ==>
      LabelsOf(PxTicks(n, formHeight, fontHeight))[j]
        == Label(100 * j, Pixels, 100 * j, formHeight - MajorTick - fontHeight)
  {
    if n > 0 {
      var m := n - 1;
      var q, r := m / 100, m % 100;
      assert m == 100 * q + r && 0 <= r < 100;
      assert (m + 99) / 100 == if r == 0 then q else q + 1;
      assert (n + 99) / 100 == q + 1;
      PxLabelMarks(m, formHeight, fontHeight);
      PxTicksGrow(m, formHeight, fontHeight);
      Extend(LabelsOf(PxTicks(m, formHeight, fontHeight)), LabelsOf(PxTicks(n, formHeight, fontHeight)),
             (j: nat) => Label(100 * j, Pixels, 100 * j, formHeight - MajorTick - fontHeight), (m + 99) / 100, r == 0);
    }
  }

  /** Consecutive millimetre ticks are 3 or 4 pixels apart, so their positions
      strictly increase. */
  lemma MmTickSpacing(i: nat)
    ensures MmX(i + 1) - MmX(i) == 3 || MmX(i + 1) - MmX(i) == 4
  {
    var q, rem := i * 480 / 127, i * 480 % 127;
    assert i * 480 == 127 * q + rem;
    assert (i + 1) * 480 == 127 * (q + 3) + (rem + 99);
  }

  /** Every millimetre tick the loop draws lies on the ruler: 0 <= x < formWidth. */
  lemma MmTickOnRuler(i: nat, formWidth: int)
    requires MmTickFits(i, formWidth)
    ensures 0 <= MmX(i) < formWidth
  {
  }

  /** The whole drawing: the border is the first command, then come the
      millimetre ticks (top edge) and then the even-pixel ticks (bottom edge). */
  lemma RulerTickMarks(formWidth: int, formHeight: int, fontHeight: int)
    ensures Ruler(formWidth, formHeight, fontHeight)[0] == Border(0, 0, formWidth - 1, formHeight - 1)
    ensures var ticks := TicksOf(Ruler(formWidth, formHeight, fontHeight));
      var m := MmTickCount(formWidth);
      var p := if formWidth > 0 then (formWidth + 1) / 2 else 0;
      |ticks| == m + p &&
      (forall i :: 0 <= i < m ==> ticks[i] == Tick(MmX(i), 0, MmTickHeight(i))) &&
      (forall j :: 0 <= j < p ==>
         ticks[m + j] == Tick(2 * j, formHeight, formHeight - PxTickHeight(2 * j)))
  {
    var m := MmTickCount(formWidth);
    var n := if formWidth > 0 then formWidth else 0;
    var mmTicks := TicksOf(MmTicks(m, formHeight, fontHeight));
    var pxTicks := TicksOf(PxTicks(n, formHeight, fontHeight));
    RulerTicksSplit(formWidth, formHeight, fontHeight);
    MmTickMarks(m, formHeight, fontHeight);
    PxTickMarks(n, formHeight, fontHeight);
    var ticks := TicksOf(Ruler(formWidth, formHeight, fontHeight));
    assert ticks == mmTicks + pxTicks;
    forall i | 0 <= i < m
      ensures ticks[i] == Tick(MmX(i), 0, MmTickHeight(i))
    {
      assert ticks[i] == mmTicks[i];
    }
    forall j | 0 <= j < (n + 1) / 2
      ensures ticks[m + j] == Tick(2 * j, formHeight, formHeight - PxTickHeight(2 * j))
    {
      assert ticks[m + j] == pxTicks[j];
    }
  }

  /** The ticks of the drawing are those of the millimetre pass, then those of
      the pixel pass; the border and the size text are not ticks. */
  lemma RulerTicksSplit(formWidth: int, formHeight: int, fontHeight: int)
    ensures TicksOf(Ruler(formWidth, formHeight, fontHeight))
      == TicksOf(MmTicks(MmTickCount(formWidth), formHeight, fontHeight))
       + TicksOf(PxTicks(if formWidth > 0 then formWidth else 0, formHeight, fontHeight))
  {
    var border := Border(0, 0, formWidth - 1, formHeight - 1);
    var size := SizeText(formWidth, 10, HalfTowardZero(formHeight) - HalfTowardZero(fontHeight));
    var mm := MmTicks(MmTickCount(formWidth), formHeight, fontHeight);
    var px := PxTicks(if formWidth > 0 then formWidth else 0, formHeight, fontHeight);
    assert Ruler(formWidth, formHeight, fontHeight) == [border] + ([size] + (mm + px));
    Unmarked(border, [size] + (mm + px));
    Unmarked(size, mm + px);
    TicksOfAppendTicks(mm, px);
  }

  /** A command that is neither a tick nor a label adds no marks. */
  lemma Unmarked(c: Command, rest: seq<Command>)
    requires !c.Tick? && !c.Label?
    ensures TicksOf([c] + rest) == TicksOf(rest)
  {
    assert ([c] + rest)[1..] == rest;
  }

  /** A 100-pixel ruler draws 27 millimetre ticks (0 to 26 mm), labelled at 0 mm only. */
  lemma HundredPixelRuler(formHeight: int, fontHeight: int)
    ensures MmTickCount(100) == 27
    ensures LabelsOf(MmTicks(MmTickCount(100), formHeight, fontHeight))
      == [Label(0, Millimeters, 0, MajorTick)]
  {
    MmLabelMarks(27, formHeight, fontHeight);
  }
}
