/** Keypoints of one frame, and the vertical flip applied to them before drawing. */
module Keypoints {

  /** A normalised landmark: x is a fraction of the frame width, y of the frame height. */
  datatype Keypoint = Keypoint(x: real, y: real)

  /** The flip of one keypoint: y becomes 1 - y, x is kept. */
  function FlipPoint(k: Keypoint): Keypoint
  {
    Keypoint(k.x, 1.0 - k.y)
  }

  /** Reference definition of a flipped keypoint list, point by point from the end. */
  function Flipped(s: seq<Keypoint>): (r: seq<Keypoint>)
    ensures |r| == |s|
  {
    if s == [] then [] else Flipped(s[..|s| - 1]) + [FlipPoint(s[|s| - 1])]
  }

  /** Every point is flipped at its own position: x is unchanged and y becomes 1 - y. */
  lemma {:induction false} FlippedAt(s: seq<Keypoint>, i: nat)
    requires i < |s|
    ensures Flipped(s)[i].x == s[i].x
    ensures Flipped(s)[i].y == 1.0 - s[i].y
  {
    if i < |s| - 1 {
      FlippedAt(s[..|s| - 1], i);
    }
  }

  /** Flipping twice gives back the original list (exact over the reals). */
  lemma {:induction false} FlippedTwice(s: seq<Keypoint>)
    ensures Flipped(Flipped(s)) == s
  {
    forall i | 0 <= i < |s|
      ensures Flipped(Flipped(s))[i] == s[i]
    {
      FlippedAt(s, i);
      FlippedAt(Flipped(s), i);
    }
  }

  /** The in-place pass over one frame's keypoints: every y is replaced by 1 - y. */
  method FlipY(a: array<Keypoint>)
    modifies a
    ensures a[..] == Flipped(old(a[..]))
  {
    var i := 0;
    while i < a.Length
      invariant 0 <= i <= a.Length
      invariant a[..i] == Flipped(old(a[..i]))
      invariant a[i..] == old(a[i..])
    {
      assert old(a[..i + 1])[..i] == old(a[..i]);
      assert a[i] == old(a[i]);
      a[i] := FlipPoint(a[i]);
      assert a[..i + 1] == a[..i] + [a[i]];
      i := i + 1;
    }
    assert a[..] == a[..a.Length];
    assert old(a[..]) == old(a[..a.Length]);
  }
}
