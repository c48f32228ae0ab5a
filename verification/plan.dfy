/**
 * The draw plan of one frame: the keypoints are split by position into pose,
 * left hand and right hand; each group gets one filled circle per point and one
 * line per connection whose two ends exist; two wrist connectors close the frame.
 */
module Plan {
  import opened Keypoints
  import opened Drawing

  /** The pose group is [0, 15), the left hand [15, 36), the right hand [36, end). */
  const PoseSize: nat := 15
  const LeftEnd: nat := 36
  /** Points per hand in the connection table's numbering. */
  const HandSize: nat := 21
  /** The fewest keypoints a frame can have without faulting at the wrist connectors. */
  const MinFrameSize: nat := 37

  /** A pair of indices into one group, joined by a line when both exist. */
  datatype Connection = Connection(src: nat, dst: nat)

  predicate InRange(c: Connection, n: nat)
  {
    c.src < n && c.dst < n
  }

  /** The body skeleton: twelve pairs, all over the fifteen pose points. */
  function PoseConnections(): (t: seq<Connection>)
    ensures |t| == 12
    ensures forall j :: 0 <= j < |t| ==> InRange(t[j], PoseSize)
  {
    [Connection(0, 1), Connection(1, 2), Connection(2, 3), Connection(3, 7),
     Connection(0, 4), Connection(4, 5), Connection(5, 6), Connection(6, 8),
     Connection(9, 10), Connection(11, 12), Connection(11, 13), Connection(12, 14)]
  }

  /** The hand skeleton, shared by both hands: twenty pairs over twenty-one points. */
  function HandConnections(): (t: seq<Connection>)
    ensures |t| == 20
    ensures forall j :: 0 <= j < |t| ==> InRange(t[j], HandSize)
  {
    [Connection(0, 1), Connection(1, 2), Connection(2, 3), Connection(3, 4),
     Connection(0, 5), Connection(5, 6), Connection(6, 7), Connection(7, 8),
     Connection(5, 9), Connection(9, 10), Connection(10, 11), Connection(11, 12),
     Connection(9, 13), Connection(13, 14), Connection(14, 15), Connection(15, 16),
     Connection(13, 17), Connection(17, 18), Connection(18, 19), Connection(19, 20)]
  }

  function Min(a: int, b: int): int
  {
    if a <= b then a else b
  }

  /** Python's slice s[lo:hi] with 0 <= lo <= hi: bounds past the end stop at the end. */
  function Slice<T>(s: seq<T>, lo: nat, hi: nat): (r: seq<T>)
    requires lo <= hi
    ensures |s| <= lo ==> r == []
    ensures lo <= |s| ==> |r| == Min(hi, |s|) - lo
    ensures forall i :: 0 <= i < |r| ==> r[i] == s[lo + i]
  {
    s[Min(lo, |s|)..Min(hi, |s|)]
  }

  /** Python's slice s[lo:]: empty when lo is past the end. */
  function SliceFrom<T>(s: seq<T>, lo: nat): (r: seq<T>)
    ensures |s| <= lo ==> r == []
    ensures lo <= |s| ==> |r| == |s| - lo
    ensures forall i :: 0 <= i < |r| ==> r[i] == s[lo + i]
  {
    s[Min(lo, |s|)..]
  }

  /** The three anatomical groups of one frame. */
  datatype Groups = Groups(pose: seq<Keypoint>, left: seq<Keypoint>, right: seq<Keypoint>)

  /** Slicing at 15 and 36 as Python does: the pose group is at most 15 long, the left hand at most 21. */
  function Split(kps: seq<Keypoint>): (g: Groups)
    ensures |g.pose| == Min(|kps|, PoseSize)
    ensures |g.left| == if |kps| <= PoseSize then 0 else Min(|kps|, LeftEnd) - PoseSize
    ensures |g.right| == if |kps| <= LeftEnd then 0 else |kps| - LeftEnd
  {
    Groups(Slice(kps, 0, PoseSize), Slice(kps, PoseSize, LeftEnd), SliceFrom(kps, LeftEnd))
  }

  /** The groups are contiguous pieces of the frame whose concatenation is the whole frame. */
  lemma SplitConcat(kps: seq<Keypoint>)
    ensures Split(kps).pose + Split(kps).left + Split(kps).right == kps
  {
    var g := Split(kps);
    if |kps| <= PoseSize {
      assert g.pose == kps;
    } else if |kps| <= LeftEnd {
      assert g.pose == kps[..PoseSize] && g.left == kps[PoseSize..];
    } else {
      assert g.pose == kps[..PoseSize] && g.left == kps[PoseSize..LeftEnd] && g.right == kps[LeftEnd..];
      assert kps == kps[..PoseSize] + kps[PoseSize..LeftEnd] + kps[LeftEnd..];
    }
  }

  /** One filled circle per point, in point order. */
  function Circles(pts: seq<Keypoint>, colour: Colour): (r: seq<Command>)
    ensures |r| == |pts|
  {
    if pts == [] then [] else Circles(pts[..|pts| - 1], colour) + [CircleAt(pts[|pts| - 1], colour)]
  }

  /** Circle i is drawn at point i's pixel, filled, radius 5, in the group's colour. */
  lemma {:induction false} CirclesAt(pts: seq<Keypoint>, colour: Colour, i: nat)
    requires i < |pts|
    ensures Circles(pts, colour)[i] == Circle(ToPixel(pts[i]), Radius, colour, Filled)
  {
    if i < |pts| - 1 {
      CirclesAt(pts[..|pts| - 1], colour, i);
    }
  }

  /** The connections of a table whose both ends are below n, in table order. */
  function Kept(t: seq<Connection>, n: nat): (r: seq<Connection>)
    ensures |r| <= |t|
    ensures forall j :: 0 <= j < |r| ==> InRange(r[j], n)
  {
    if t == [] then []
    else Kept(t[..|t| - 1], n) + (if InRange(t[|t| - 1], n) then [t[|t| - 1]] else [])
  }

  /** A connection survives the bounds check exactly when it is in the table and both ends exist. */
  lemma {:induction false} KeptMembers(t: seq<Connection>, n: nat, c: Connection)
    ensures c in Kept(t, n) <==> c in t && InRange(c, n)
  {
    if t != [] {
      var init, last := t[..|t| - 1], t[|t| - 1];
      assert t == init + [last];
      KeptMembers(init, n, c);
    }
  }

  /** The bounds check filters in table order: a table split in two is filtered part by part. */
  lemma {:induction false} KeptConcat(a: seq<Connection>, b: seq<Connection>, n: nat)
    ensures Kept(a + b, n) == Kept(a, n) + Kept(b, n)
  {
    if b == [] {
      assert a + b == a;
    } else {
      var init, last := b[..|b| - 1], b[|b| - 1];
      assert (a + b)[..|a + b| - 1] == a + init;
      assert (a + b)[|a + b| - 1] == last;
      KeptConcat(a, init, n);
    }
  }

  /** The larger end of entry j is j + 1: a group of m points keeps exactly the first m - 1 entries. */
  predicate Chained(t: seq<Connection>)
  {
    forall j :: 0 <= j < |t| ==>
      t[j].src <= j + 1 && t[j].dst <= j + 1 && (t[j].src == j + 1 || t[j].dst == j + 1)
  }

  /** In a chained table, a group of m >= 1 points keeps a prefix of the table, of length m - 1 at most. */
  lemma {:induction false} KeptChained(t: seq<Connection>, m: nat)
    requires Chained(t) && 1 <= m
    ensures Kept(t, m) == t[..Min(m - 1, |t|)]
  {
    if t != [] {
      var init := t[..|t| - 1];
      assert Chained(init) by {
        forall j | 0 <= j < |init| ensures init[j] == t[j] { }
      }
      KeptChained(init, m);
      if |t| < m {
        assert t == init + [t[|t| - 1]];
      }
    }
  }

  /** When every pair is in range, nothing is skipped. */
  lemma {:induction false} KeptAll(t: seq<Connection>, n: nat)
    requires forall j :: 0 <= j < |t| ==> InRange(t[j], n)
    ensures Kept(t, n) == t
  {
    if t != [] {
      KeptAll(t[..|t| - 1], n);
      assert t == t[..|t| - 1] + [t[|t| - 1]];
    }
  }

  /** One line per table entry whose two ends are both in the group, in table order. */
  function Lines(pts: seq<Keypoint>, t: seq<Connection>, colour: Colour): (r: seq<Command>)
    ensures |r| == |Kept(t, |pts|)|
  {
    if t == [] then []
    else
      var c := t[|t| - 1];
      Lines(pts, t[..|t| - 1], colour)
      + (if InRange(c, |pts|) then [LineBetween(pts[c.src], pts[c.dst], colour)] else [])
  }

  /** The j-th line joins the two ends of the j-th connection that passed the bounds check. */
  lemma {:induction false} LinesAt(pts: seq<Keypoint>, t: seq<Connection>, colour: Colour, j: nat)
    requires j < |Kept(t, |pts|)|
    ensures Lines(pts, t, colour)[j]
      == Line(ToPixel(pts[Kept(t, |pts|)[j].src]), ToPixel(pts[Kept(t, |pts|)[j].dst]), colour, LineThickness)
  {
    var init := t[..|t| - 1];
    if j < |Kept(init, |pts|)| {
      LinesAt(pts, init, colour, j);
    }
  }


  /** With every pair in range, the lines follow the table entry for entry. */
  lemma {:induction false} LinesFull(pts: seq<Keypoint>, t: seq<Connection>, colour: Colour)
    requires forall k :: 0 <= k < |t| ==> InRange(t[k], |pts|)
    ensures |Lines(pts, t, colour)| == |t|
    ensures forall j :: 0 <= j < |t| ==>
      InRange(t[j], |pts|) && Lines(pts, t, colour)[j] == LineBetween(pts[t[j].src], pts[t[j].dst], colour)
  {
    KeptAll(t, |pts|);
    forall j | 0 <= j < |t|
      ensures Lines(pts, t, colour)[j] == LineBetween(pts[t[j].src], pts[t[j].dst], colour)
    {
      LinesAt(pts, t, colour, j);
    }
  }

  /** The frame fault: a keypoint index past the end of its group. */
  datatype Fault = IndexOutOfRange

  datatype Result<T> = Ok(value: T) | Err(fault: Fault)

  /** What one group contributes: its circles, then its bounds-checked connection lines. */
  function GroupPlan(pts: seq<Keypoint>, t: seq<Connection>, colour: Colour): seq<Command>
  {
    Circles(pts, colour) + Lines(pts, t, colour)
  }

  /** A group's part of the plan: circle i at position i, then kept line j at position |pts| + j. */
  lemma GroupPlanAt(pts: seq<Keypoint>, t: seq<Connection>, colour: Colour)
    ensures |GroupPlan(pts, t, colour)| == |pts| + |Kept(t, |pts|)|
    ensures forall i :: 0 <= i < |pts| ==>
      GroupPlan(pts, t, colour)[i] == CircleAt(pts[i], colour)
    ensures forall j :: 0 <= j < |Kept(t, |pts|)| ==>
      GroupPlan(pts, t, colour)[|pts| + j]
        == LineBetween(pts[Kept(t, |pts|)[j].src], pts[Kept(t, |pts|)[j].dst], colour)
  {
    forall i | 0 <= i < |pts|
      ensures GroupPlan(pts, t, colour)[i] == CircleAt(pts[i], colour)
    {
      CirclesAt(pts, colour, i);
    }
    forall j | 0 <= j < |Kept(t, |pts|)|
      ensures GroupPlan(pts, t, colour)[|pts| + j]
        == LineBetween(pts[Kept(t, |pts|)[j].src], pts[Kept(t, |pts|)[j].dst], colour)
    {
      LinesAt(pts, t, colour, j);
    }
  }

  /** Everything drawn before the wrist connectors: pose, then left hand, then right hand. */
  function BodyPlan(g: Groups): seq<Command>
  {
    GroupPlan(g.pose, PoseConnections(), Green)
    + GroupPlan(g.left, HandConnections(), Blue)
    + GroupPlan(g.right, HandConnections(), Red)
  }

  /** The two wrist connectors: pose 14 to the first right-hand point, pose 13 to the first left-hand point. */
  function Wrists(g: Groups): seq<Command>
    requires |g.pose| > 14 && |g.right| > 0 && |g.left| > 0
  {
    [LineBetween(g.pose[14], g.right[0], Green), LineBetween(g.pose[13], g.left[0], Green)]
  }

  /**
   * The draw plan of one already flipped frame: pose, then left hand, then right hand,
   * then the wrist connectors; or the fault the unguarded connectors hit.
   */
  function FramePlan(kps: seq<Keypoint>): (r: Result<seq<Command>>)
    ensures r.Ok? <==> |kps| >= MinFrameSize
  {
    var g := Split(kps);
    if |g.pose| <= 14 || |g.right| == 0 then Err(IndexOutOfRange)
    else Ok(BodyPlan(g) + Wrists(g))
  }

  /** Where the circle of keypoint i sits in the plan of a frame that renders. */
  function CircleIndex(i: nat): nat
  {
    if i < PoseSize then i
    else if i < LeftEnd then i + |PoseConnections()|
    else i + |PoseConnections()| + |HandConnections()|
  }

  /** The colour of keypoint i's group. */
  function GroupColour(i: nat): Colour
  {
    if i < PoseSize then Green else if i < LeftEnd then Blue else Red
  }

  /** The right-hand lines that survive the bounds check in a frame of n >= 36 points. */
  function RightKept(n: nat): seq<Connection>
    requires n >= LeftEnd
  {
    Kept(HandConnections(), n - LeftEnd)
  }

  /** In a frame that renders, pose and left hand are complete and the right hand holds the rest. */
  lemma SplitComplete(kps: seq<Keypoint>)
    requires |kps| >= MinFrameSize
    ensures Split(kps).pose == kps[..PoseSize]
    ensures Split(kps).left == kps[PoseSize..LeftEnd]
    ensures Split(kps).right == kps[LeftEnd..]
  {
    var g := Split(kps);
    SplitConcat(kps);
    assert kps[..PoseSize] == (g.pose + g.left + g.right)[..PoseSize];
    assert kps[PoseSize..LeftEnd] == (g.pose + g.left + g.right)[PoseSize..LeftEnd];
    assert kps[LeftEnd..] == (g.pose + g.left + g.right)[LeftEnd..];
  }

  /** The four parts of a rendered frame's plan, with their lengths. */
  lemma FrameParts(kps: seq<Keypoint>)
    requires |kps| >= MinFrameSize
    ensures FramePlan(kps).Ok?
    ensures FramePlan(kps).value
      == GroupPlan(kps[..PoseSize], PoseConnections(), Green)
       + GroupPlan(kps[PoseSize..LeftEnd], HandConnections(), Blue)
       + GroupPlan(kps[LeftEnd..], HandConnections(), Red)
       + [LineBetween(kps[14], kps[36], Green), LineBetween(kps[13], kps[15], Green)]
    ensures |GroupPlan(kps[..PoseSize], PoseConnections(), Green)| == 27
    ensures |GroupPlan(kps[PoseSize..LeftEnd], HandConnections(), Blue)| == 41
    ensures |GroupPlan(kps[LeftEnd..], HandConnections(), Red)| == |kps| - LeftEnd + |RightKept(|kps|)|
  {
    SplitComplete(kps);
    KeptAll(PoseConnections(), PoseSize);
    KeptAll(HandConnections(), HandSize);
  }

  /** Pose circles come first, green, in point order; then the twelve pose lines. */
  lemma PoseLayout(kps: seq<Keypoint>)
    requires |kps| >= MinFrameSize
    ensures FramePlan(kps).Ok?
    ensures |FramePlan(kps).value| == |kps| + 34 + |RightKept(|kps|)|
    ensures forall i :: 0 <= i < PoseSize ==> FramePlan(kps).value[i] == CircleAt(kps[i], Green)
    ensures forall j :: 0 <= j < |PoseConnections()| ==>
      FramePlan(kps).value[PoseSize + j]
        == LineBetween(kps[PoseConnections()[j].src], kps[PoseConnections()[j].dst], Green)
  {
    FrameParts(kps);
    var pose := kps[..PoseSize];
    var a := GroupPlan(pose, PoseConnections(), Green);
    GroupPlanAt(pose, PoseConnections(), Green);
    KeptAll(PoseConnections(), PoseSize);
    assert forall k :: 0 <= k < |a| ==> FramePlan(kps).value[k] == a[k];
  }

  /** Left-hand circles follow, blue, in point order; then the twenty left-hand lines. */
  lemma LeftLayout(kps: seq<Keypoint>)
    requires |kps| >= MinFrameSize
    ensures FramePlan(kps).Ok?
    ensures |FramePlan(kps).value| == |kps| + 34 + |RightKept(|kps|)|
    ensures forall i :: PoseSize <= i < LeftEnd ==> FramePlan(kps).value[12 + i] == CircleAt(kps[i], Blue)
    ensures forall j :: 0 <= j < |HandConnections()| ==>
      FramePlan(kps).value[48 + j]
        == LineBetween(kps[15 + HandConnections()[j].src], kps[15 + HandConnections()[j].dst], Blue)
  {
    FrameParts(kps);
    var plan, hand := FramePlan(kps).value, HandConnections();
    var left := kps[PoseSize..LeftEnd];
    var b := GroupPlan(left, hand, Blue);
    GroupPlanAt(left, hand, Blue);
    KeptAll(hand, HandSize);
    assert forall k :: 0 <= k < |b| ==> plan[27 + k] == b[k];
    forall i | PoseSize <= i < LeftEnd
      ensures plan[12 + i] == CircleAt(kps[i], Blue)
    {
      assert b[i - 15] == CircleAt(left[i - 15], Blue);
    }
  }

  /** Right-hand circles come next, red, in point order; then the right-hand lines that pass the check. */
  lemma RightLayout(kps: seq<Keypoint>)
    requires |kps| >= MinFrameSize
    ensures FramePlan(kps).Ok?
    ensures |FramePlan(kps).value| == |kps| + 34 + |RightKept(|kps|)|
    ensures forall i :: LeftEnd <= i < |kps| ==> FramePlan(kps).value[32 + i] == CircleAt(kps[i], Red)
    ensures forall j :: 0 <= j < |RightKept(|kps|)| ==>
      FramePlan(kps).value[|kps| + 32 + j]
        == LineBetween(kps[36 + RightKept(|kps|)[j].src], kps[36 + RightKept(|kps|)[j].dst], Red)
  {
    FrameParts(kps);
    var right := kps[LeftEnd..];
    var c := GroupPlan(right, HandConnections(), Red);
    GroupPlanAt(right, HandConnections(), Red);
    assert forall k :: 0 <= k < |c| ==> FramePlan(kps).value[68 + k] == c[k];
    forall i | LeftEnd <= i < |kps|
      ensures FramePlan(kps).value[32 + i] == CircleAt(kps[i], Red)
    {
      assert c[i - 36] == CircleAt(right[i - 36], Red);
    }
  }

  /** The plan ends with the two green wrist connectors, pose 14 to point 36 and pose 13 to point 15. */
  lemma WristLayout(kps: seq<Keypoint>)
    requires |kps| >= MinFrameSize
    ensures FramePlan(kps).Ok?
    ensures |FramePlan(kps).value| == |kps| + 34 + |RightKept(|kps|)|
    ensures FramePlan(kps).value[|kps| + 32 + |RightKept(|kps|)|] == LineBetween(kps[14], kps[36], Green)
    ensures FramePlan(kps).value[|kps| + 33 + |RightKept(|kps|)|] == LineBetween(kps[13], kps[15], Green)
  {
    FrameParts(kps);
  }

  /** Every keypoint of a frame that renders gets one circle in its group's colour, at CircleIndex. */
  lemma KeypointCircle(kps: seq<Keypoint>, i: nat)
    requires |kps| >= MinFrameSize && i < |kps|
    ensures FramePlan(kps).Ok?
    ensures CircleIndex(i) < |FramePlan(kps).value|
    ensures FramePlan(kps).value[CircleIndex(i)] == Circle(ToPixel(kps[i]), Radius, GroupColour(i), Filled)
  {
    WristLayout(kps);
    if i < PoseSize {
      PoseLayout(kps);
    } else if i < LeftEnd {
      LeftLayout(kps);
    } else {
      RightLayout(kps);
    }
  }

  /** Every hand table entry joins a point to the one numbered just after all earlier points. */
  lemma HandChained()
    ensures Chained(HandConnections())
  {
  }

  /**
   * A frame of 37 to 57 points keeps the first n - 37 hand lines for its right hand, in table
   * order, and its plan has 2n - 3 commands.
   */
  lemma PartialFrame(kps: seq<Keypoint>)
    requires MinFrameSize <= |kps| <= PoseSize + 2 * HandSize
    ensures RightKept(|kps|) == HandConnections()[..|kps| - MinFrameSize]
    ensures |FramePlan(kps).value| == 2 * |kps| - 3
  {
    HandChained();
    KeptChained(HandConnections(), |kps| - LeftEnd);
    WristLayout(kps);
  }

  /** A frame with both hands complete draws every table line: 12 + 20 + 20 lines and the two connectors. */
  lemma FullFrame(kps: seq<Keypoint>)
    requires |kps| >= PoseSize + 2 * HandSize
    ensures RightKept(|kps|) == HandConnections()
    ensures |FramePlan(kps).value| == |kps| + 54
  {
    KeptAll(HandConnections(), |kps| - LeftEnd);
    WristLayout(kps);
  }
}
