/** Drawing one frame onto its canvas call by call, in the order of the frame loop. */
module Compositor {
  import opened Keypoints
  import opened Drawing
  import opened Plan

  /** One filled circle per point of a group, in point order. */
  method DrawCircles(canvas: Canvas, pts: seq<Keypoint>, colour: Colour)
    modifies canvas
    ensures canvas.ops == old(canvas.ops) + Circles(pts, colour)
  {
    var i := 0;
    while i < |pts|
      invariant 0 <= i <= |pts|
      invariant canvas.ops == old(canvas.ops) + Circles(pts[..i], colour)
    {
      canvas.DrawCircle(ToPixel(pts[i]), Radius, colour, Filled);
      assert pts[..i + 1][..i] == pts[..i];
      i := i + 1;
    }
    assert pts[..i] == pts;
  }

  /** One line per connection of the table whose two ends are both in the group; the rest are skipped. */
  method DrawConnections(canvas: Canvas, pts: seq<Keypoint>, t: seq<Connection>, colour: Colour)
    modifies canvas
    ensures canvas.ops == old(canvas.ops) + Lines(pts, t, colour)
  {
    var j := 0;
    while j < |t|
      invariant 0 <= j <= |t|
      invariant canvas.ops == old(canvas.ops) + Lines(pts, t[..j], colour)
    {
      var c := t[j];
      if c.src < |pts| && c.dst < |pts| {
        canvas.DrawLine(ToPixel(pts[c.src]), ToPixel(pts[c.dst]), colour, LineThickness);
      }
      assert t[..j + 1][..j] == t[..j];
      j := j + 1;
    }
    assert t[..j] == t;
  }

  /** One group: its circles, then its connection lines. */
  method DrawGroup(canvas: Canvas, pts: seq<Keypoint>, t: seq<Connection>, colour: Colour)
    modifies canvas
    ensures canvas.ops == old(canvas.ops) + GroupPlan(pts, t, colour)
  {
    DrawCircles(canvas, pts, colour);
    DrawConnections(canvas, pts, t, colour);
  }

  /** The three groups in frame order: pose in green, left hand in blue, right hand in red. */
  method DrawBody(canvas: Canvas, g: Groups)
    modifies canvas
    ensures canvas.ops == old(canvas.ops) + BodyPlan(g)
  {
    var hand := HandConnections();
    DrawGroup(canvas, g.pose, PoseConnections(), Green);
    ghost var a := canvas.ops;
    DrawGroup(canvas, g.left, hand, Blue);
    ghost var b := canvas.ops;
    DrawGroup(canvas, g.right, hand, Red);
    assert canvas.ops == b + GroupPlan(g.right, hand, Red);
    assert b == a + GroupPlan(g.left, hand, Blue);
  }

  /**
   * Draws one flipped frame: the three groups, then the two wrist connectors. Returns false
   * where the unguarded connector indices fault; the groups are drawn by then.
   */
  method DrawFrame(canvas: Canvas, kps: seq<Keypoint>) returns (ok: bool)
    modifies canvas
    ensures ok <==> |kps| >= MinFrameSize
    ensures ok ==> canvas.ops == old(canvas.ops) + FramePlan(kps).value
    ensures !ok ==> canvas.ops == old(canvas.ops) + BodyPlan(Split(kps))
  {
    var pose := Slice(kps, 0, PoseSize);
    var left := Slice(kps, PoseSize, LeftEnd);
    var right := SliceFrom(kps, LeftEnd);
    var g := Groups(pose, left, right);
    assert g == Split(kps);
    DrawBody(canvas, g);
    ghost var body := canvas.ops;
    if |pose| <= 14 || |right| == 0 {
      return false;
    }
    canvas.DrawLine(ToPixel(pose[14]), ToPixel(right[0]), Green, LineThickness);
    canvas.DrawLine(ToPixel(pose[13]), ToPixel(left[0]), Green, LineThickness);
    assert canvas.ops == body + Wrists(g);
    ok := true;
  }
}
