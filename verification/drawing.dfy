/** The canvas of one frame, seen as the ordered list of draw calls made on it. */
module Drawing {
  import opened Keypoints

  /** Output frame size in pixels, circle radius and line width used by every draw call. */
  const FrameWidth: int := 640
  const FrameHeight: int := 480
  const Radius: int := 5
  const LineThickness: int := 2
  /** The thickness that asks for a filled circle. */
  const Filled: int := -1

  /** A colour in blue-green-red channel order. */
  datatype Colour = Bgr(b: int, g: int, r: int)

  const Green: Colour := Bgr(0, 255, 0)
  const Blue: Colour := Bgr(255, 0, 0)
  const Red: Colour := Bgr(0, 0, 255)

  datatype Pixel = Pixel(col: int, row: int)

  /** One drawing primitive applied to the canvas. */
  datatype Command =
    | Circle(center: Pixel, radius: int, colour: Colour, thickness: int)
    | Line(p1: Pixel, p2: Pixel, colour: Colour, thickness: int)

  /** A finished frame as handed to the video writer: its size and everything drawn on black. */
  datatype Image = Image(width: int, height: int, ops: seq<Command>)

  /** Conversion of a real to an integer by dropping the fraction (toward zero). */
  function Trunc(r: real): (n: int)
    ensures 0.0 <= r ==> n as real <= r < n as real + 1.0
    ensures r < 0.0 ==> n as real - 1.0 < r <= n as real
  {
    if 0.0 <= r then r.Floor else -((-r).Floor)
  }

  /** Pixel coordinates of a normalised keypoint on the frame. */
  function ToPixel(k: Keypoint): Pixel
  {
    Pixel(Trunc(k.x * FrameWidth as real), Trunc(k.y * FrameHeight as real))
  }

  /** Inside the frame, the pixel of a keypoint is the cell that contains it. */
  lemma ToPixelCell(k: Keypoint)
    requires 0.0 <= k.x && 0.0 <= k.y
    ensures ToPixel(k).col as real <= k.x * 640.0 < ToPixel(k).col as real + 1.0
    ensures ToPixel(k).row as real <= k.y * 480.0 < ToPixel(k).row as real + 1.0
  {
  }

  /** The filled circle drawn for a keypoint. */
  function CircleAt(k: Keypoint, colour: Colour): Command
  {
    Circle(ToPixel(k), Radius, colour, Filled)
  }

  /** The line drawn between two keypoints. */
  function LineBetween(p: Keypoint, q: Keypoint, colour: Colour): Command
  {
    Line(ToPixel(p), ToPixel(q), colour, LineThickness)
  }

  /** A frame buffer; its contents are the draw calls applied to the initial black image. */
  class Canvas {
    const width: int
    const height: int
    var ops: seq<Command>

    /** A fresh all-black canvas of the output frame size. */
    constructor Black()
      ensures width == FrameWidth && height == FrameHeight
      ensures ops == []
    {
      width := FrameWidth;
      height := FrameHeight;
      ops := [];
    }

    method DrawCircle(center: Pixel, radius: int, colour: Colour, thickness: int)
      modifies this
      ensures ops == old(ops) + [Circle(center, radius, colour, thickness)]
    {
      ops := ops + [Circle(center, radius, colour, thickness)];
    }

    method DrawLine(p1: Pixel, p2: Pixel, colour: Colour, thickness: int)
      modifies this
      ensures ops == old(ops) + [Line(p1, p2, colour, thickness)]
    {
      ops := ops + [Line(p1, p2, colour, thickness)];
    }

    /** The image as it stands, copied out of the buffer. */
    function Snapshot(): Image
      reads this
    {
      Image(width, height, ops)
    }
  }
}
