/**
 * The frame loop: every frame's keypoints are flipped in place, drawn on a fresh black
 * canvas and appended to the video writer; the writer is released after the last frame.
 */
module Video {
  import opened Keypoints
  import opened Drawing
  import opened Plan
  import opened Compositor

  /** Frames per second and codec tag the writer is opened with. */
  const Fps: int := 30
  const Codec: string := "mp4v"

  datatype Option<T> = None | Some(value: T)

  /** The video writer, seen as the list of images appended to it and whether it was released. */
  class VideoWriter {
    const codec: string
    const fps: int
    const width: int
    const height: int
    var frames: seq<Image>
    var released: bool
    ghost var releases: nat

    constructor Open(codec: string, fps: int, width: int, height: int)
      ensures this.codec == codec && this.fps == fps && this.width == width && this.height == height
      ensures frames == [] && !released && releases == 0
    {
      this.codec := codec;
      this.fps := fps;
      this.width := width;
      this.height := height;
      frames := [];
      released := false;
      releases := 0;
    }

    /** Appends one image after the ones already written. */
    method Write(img: Image)
      requires !released
      modifies this
      ensures frames == old(frames) + [img]
      ensures released == old(released) && releases == old(releases)
    {
      frames := frames + [img];
    }

    /** Finalises the video; nothing is appended by it. */
    method Release()
      modifies this
      ensures released && releases == old(releases) + 1
      ensures frames == old(frames)
    {
      released := true;
      releases := releases + 1;
    }
  }

  /** The image a frame becomes: its keypoints flipped, then drawn on a fresh black canvas. */
  function FrameImage(kps: seq<Keypoint>): (r: Result<Image>)
    ensures r.Ok? <==> |kps| >= MinFrameSize
    ensures r.Ok? ==> r.value.width == FrameWidth && r.value.height == FrameHeight
  {
    var plan := FramePlan(Flipped(kps));
    if plan.Ok? then Ok(Image(FrameWidth, FrameHeight, plan.value)) else Err(plan.fault)
  }

  /** The images a run writes, and the frame whose fault ended it, if any. */
  datatype Run = Run(images: seq<Image>, crashed: Option<nat>)

  /** Reference definition of the frame loop over per-frame results: images in order until the first fault. */
  function Collect(results: seq<Result<Image>>): (r: Run)
    ensures |r.images| <= |results|
  {
    if results == [] then Run([], None)
    else
      var prev := Collect(results[..|results| - 1]);
      var last := results[|results| - 1];
      if prev.crashed.Some? then prev
      else if last.Ok? then Run(prev.images + [last.value], None)
      else Run(prev.images, Some(|results| - 1))
  }

  /** A run stops exactly at the first faulting frame, with one image per frame before it, in order. */
  lemma {:induction false} CollectStopsAt(results: seq<Result<Image>>)
    ensures Collect(results).crashed.None? <==> forall i :: 0 <= i < |results| ==> results[i].Ok?
    ensures Collect(results).crashed.None? ==> |Collect(results).images| == |results|
    ensures Collect(results).crashed.Some? ==>
      var k := Collect(results).crashed.value;
      k < |results| && results[k].Err? && |Collect(results).images| == k
      && forall i :: 0 <= i < k ==> results[i].Ok?
    ensures forall i :: 0 <= i < |Collect(results).images| ==>
      results[i].Ok? && results[i].value == Collect(results).images[i]
  {
    if results != [] {
      var n := |results|;
      var init := results[..n - 1];
      CollectStopsAt(init);
      assert forall i :: 0 <= i < n - 1 ==> init[i] == results[i];
    }
  }

  /** One more frame: its image is appended, or the run faults at it. */
  lemma CollectStep(results: seq<Result<Image>>, f: nat)
    requires f < |results| && Collect(results[..f]).crashed.None?
    ensures Collect(results[..f + 1])
      == if results[f].Ok? then Run(Collect(results[..f]).images + [results[f].value], None)
         else Run(Collect(results[..f]).images, Some(f))
  {
    assert results[..f + 1][..f] == results[..f];
  }

  /** Once a prefix has faulted, the frames after it change nothing. */
  lemma {:induction false} CollectIgnoresRest(results: seq<Result<Image>>, k: nat)
    requires k <= |results| && Collect(results[..k]).crashed.Some?
    ensures Collect(results) == Collect(results[..k])
  {
    if k < |results| {
      var init := results[..|results| - 1];
      assert init[..k] == results[..k];
      CollectIgnoresRest(init, k);
    } else {
      assert results[..k] == results;
    }
  }

  /** The result of every frame on its own. */
  function FrameResults(frames: seq<seq<Keypoint>>): (r: seq<Result<Image>>)
    ensures |r| == |frames|
  {
    seq(|frames|, i requires 0 <= i < |frames| => FrameImage(frames[i]))
  }

  /** What the frame loop writes for the given input frames. */
  function RenderAll(frames: seq<seq<Keypoint>>): Run
  {
    Collect(FrameResults(frames))
  }

  /**
   * The writer receives one image per frame, in input order, each the image of its own frame
   * alone; the run faults exactly when some frame has fewer than 37 keypoints, at the first one.
   */
  lemma RenderAllSpec(frames: seq<seq<Keypoint>>)
    ensures RenderAll(frames).crashed.None? <==> forall i :: 0 <= i < |frames| ==> |frames[i]| >= MinFrameSize
    ensures RenderAll(frames).crashed.None? ==> |RenderAll(frames).images| == |frames|
    ensures RenderAll(frames).crashed.Some? ==>
      var k := RenderAll(frames).crashed.value;
      k < |frames| && |frames[k]| < MinFrameSize && |RenderAll(frames).images| == k
      && forall i :: 0 <= i < k ==> |frames[i]| >= MinFrameSize
    ensures forall i :: 0 <= i < |RenderAll(frames).images| ==>
      FrameImage(frames[i]) == Ok(RenderAll(frames).images[i])
  {
    var results := FrameResults(frames);
    CollectStopsAt(results);
    forall i | 0 <= i < |frames|
      ensures results[i].Ok? <==> |frames[i]| >= MinFrameSize
    {
      assert results[i] == FrameImage(frames[i]);
    }
  }

  /**
   * The body of the frame loop: the frame's keypoint list is flipped in place, then drawn on
   * a fresh black canvas; the result is the finished image, or the fault the wrist connectors hit.
   */
  method RenderFrame(frame: seq<Keypoint>) returns (img: Result<Image>)
    ensures img == FrameImage(frame)
  {
    var keypoints := new Keypoint[|frame|](i requires 0 <= i < |frame| => frame[i]);
    assert keypoints[..] == frame;
    var canvas := new Canvas.Black();
    FlipY(keypoints);
    var ok := DrawFrame(canvas, keypoints[..]);
    ghost var plan := FramePlan(Flipped(frame));
    if !ok {
      return Err(IndexOutOfRange);
    }
    assert canvas.ops == [] + plan.value == plan.value;
    img := Ok(canvas.Snapshot());
  }

  /** How a call ends: the video is complete, or a frame faulted and the call aborted. */
  datatype Outcome = Completed | Crashed(frame: nat)

  /**
   * Renders the frames into a fresh writer. On success the writer holds one image per frame,
   * in order, and is released once; on a fault it holds the images before the faulting frame
   * and is never released.
   */
  method Visualize(frames: seq<seq<Keypoint>>) returns (out: VideoWriter, outcome: Outcome)
    ensures fresh(out)
    ensures out.codec == Codec && out.fps == Fps && out.width == FrameWidth && out.height == FrameHeight
    ensures out.frames == RenderAll(frames).images
    ensures outcome.Completed? <==> RenderAll(frames).crashed.None?
    ensures outcome.Crashed? ==> RenderAll(frames).crashed == Some(outcome.frame)
    ensures out.released <==> outcome.Completed?
    ensures out.releases == if outcome.Completed? then 1 else 0
  {
    out := new VideoWriter.Open(Codec, Fps, FrameWidth, FrameHeight);
    ghost var results := FrameResults(frames);
    var f := 0;
    while f < |frames|
      invariant 0 <= f <= |frames|
      invariant !out.released && out.releases == 0
      invariant Collect(results[..f]) == Run(out.frames, None)
    {
      var img := RenderFrame(frames[f]);
      CollectStep(results, f);
      if img.Err? {
        CollectIgnoresRest(results, f + 1);
        outcome := Crashed(f);
        return;
      }
      out.Write(img.value);
      f := f + 1;
    }
    assert results[..f] == results;
    out.Release();
    outcome := Completed;
  }

  /** Zero frames: nothing is written and the writer is still released. */
  lemma NoFrames()
    ensures RenderAll([]) == Run([], None)
  {
  }

  /** A single frame of 57 points at the centre renders with every circle at pixel (320, 240). */
  lemma CentredFrame(kps: seq<Keypoint>)
    requires |kps| == PoseSize + 2 * HandSize
    requires forall i :: 0 <= i < |kps| ==> kps[i] == Keypoint(0.5, 0.5)
    ensures FrameImage(kps).Ok?
    ensures |FrameImage(kps).value.ops| == |kps| + 54
    ensures forall i :: 0 <= i < |kps| ==>
      FrameImage(kps).value.ops[CircleIndex(i)] == Circle(Pixel(320, 240), Radius, GroupColour(i), Filled)
  {
    var flipped := Flipped(kps);
    FullFrame(flipped);
    forall i | 0 <= i < |kps|
      ensures FrameImage(kps).value.ops[CircleIndex(i)] == Circle(Pixel(320, 240), Radius, GroupColour(i), Filled)
    {
      FlippedAt(kps, i);
      assert flipped[i] == Keypoint(0.5, 0.5);
      KeypointCircle(flipped, i);
    }
  }
}
