/** Border-band hit-testing of the ruler window: which part of the 5-pixel band
    along the window's edges a client-area cursor position falls in, and which
    cursor shape is shown for it. */
module Regions {

  /** A position in pixels (System.Drawing.Point). */
  datatype Point = Point(x: int, y: int)

  /** System.Drawing.Rectangle: an origin and an extent; Contains is half-open. */
  datatype Rect = Rect(x: int, y: int, width: int, height: int) {

    predicate Contains(p: Point) {
      x <= p.x < x + width && y <= p.y < y + height
    }

    /** Rectangle.Inflate: grows every side by (dx, dy); negative values shrink it. */
    function Inflate(dx: int, dy: int): (r: Rect)
      ensures r.x + r.width == x + width + dx && r.y + r.height == y + height + dy
      ensures r.x == x - dx && r.y == y - dy
    {
      Rect(x - dx, y - dy, width + 2 * dx, height + 2 * dy)
    }
  }

  /** Thickness of the resizable band along each edge (_resizeBorderWidth). */
  const BorderWidth := 5

  datatype ResizeRegion = None | N | NE | E | SE | S | SW | W | NW {
    predicate IsNorth() { this == N || this == NE || this == NW }
    predicate IsSouth() { this == S || this == SE || this == SW }
    predicate IsWest() { this == W || this == NW || this == SW }
    predicate IsEast() { this == E || this == NE || this == SE }
  }

  /** The cursor shapes the form can show. */
  datatype CursorShape = Default | SizeNS | SizeWE | SizeNWSE | SizeNESW

  /** The client rectangle of a borderless form of the given size. */
  function ClientRect(width: int, height: int): Rect {
    Rect(0, 0, width, height)
  }

  /** The resize test of OnMouseMove: inside the client rectangle but not inside
      the client rectangle deflated by the band width. */
  predicate InBand(p: Point, width: int, height: int)
    ensures InBand(p, width, height) <==>
      0 <= p.x < width && 0 <= p.y < height &&
      !(BorderWidth <= p.x < width - BorderWidth && BorderWidth <= p.y < height - BorderWidth)
  {
    var client := ClientRect(width, height);
    client.Contains(p) && !client.Inflate(-BorderWidth, -BorderWidth).Contains(p)
  }

  /** GetResizeRegion: the top rows win over the bottom rows, and within a row the
      left test is made before the right one; the middle rows are split into W and E. */
  function GetResizeRegion(p: Point, width: int, height: int): (r: ResizeRegion)
    ensures r != None
    ensures r.IsNorth() <==> p.y <= BorderWidth
    ensures r.IsSouth() <==> BorderWidth < p.y && height - BorderWidth <= p.y
    ensures r.IsWest() <==> p.x <= BorderWidth
    ensures r.IsEast() <==>
      BorderWidth < p.x && (width - BorderWidth <= p.x || BorderWidth < p.y < height - BorderWidth)
  {
    if p.y <= BorderWidth then
      if p.x <= BorderWidth then NW
      else if p.x >= width - BorderWidth then NE
      else N
    else if p.y >= height - BorderWidth then
      if p.x <= BorderWidth then SW
      else if p.x >= width - BorderWidth then SE
      else S
    else
      if p.x <= BorderWidth then W
      else E
  }

  /** The cursor SetResizeCursor shows for a region: the resize arrow lies along
      the directions the region touches; NESW is also the fallback for None. */
  function ResizeCursor(r: ResizeRegion): (c: CursorShape)
    ensures c != Default
    ensures c == SizeNS <==> (r.IsNorth() || r.IsSouth()) && !r.IsEast() && !r.IsWest()
    ensures c == SizeWE <==> (r.IsEast() || r.IsWest()) && !r.IsNorth() && !r.IsSouth()
    ensures c == SizeNWSE <==> (r.IsNorth() && r.IsWest()) || (r.IsSouth() && r.IsEast())
    ensures c == SizeNESW <==> r == None || (r.IsNorth() && r.IsEast()) || (r.IsSouth() && r.IsWest())
  {
    match r
    case N | S => SizeNS
    case E | W => SizeWE
    case NW | SE => SizeNWSE
    case _ => SizeNESW
  }

  /** Inside the band, a region with an eastern part is only reported within the
      band's width of the right edge, and a southern one within the band's width of
      the bottom edge: the classifier's split of the middle rows into W and E is
      sound once the band test has passed. */
  lemma BandRegionNearEdge(p: Point, width: int, height: int)
    requires InBand(p, width, height)
    ensures GetResizeRegion(p, width, height).IsEast() ==> width - BorderWidth <= p.x < width
    ensures GetResizeRegion(p, width, height).IsSouth() ==> height - BorderWidth <= p.y < height
    ensures GetResizeRegion(p, width, height).IsWest() ==> 0 <= p.x <= BorderWidth
    ensures GetResizeRegion(p, width, height).IsNorth() ==> 0 <= p.y <= BorderWidth
  {
  }
}
