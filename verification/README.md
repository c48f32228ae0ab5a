# json2skeleton keypoint renderer — a Dafny model

json2skeleton turns 2-D pose animation data into a video on a black background.
The data holds frames, and each frame holds normalised keypoints: 15 pose points,
then 21 left-hand points, then 21 right-hand points. This project models the
per-frame rendering core of `visualize_keypoints` in `main.py` and proves what it does.

For each frame the core does the following, in this order:

- It replaces every keypoint's `y` by `1 - y`. This is an in-place pass over the frame's keypoint list.
- It slices the list by position into pose `[0,15)`, left hand `[15,36)` and right hand `[36,end)`. The slices follow Python's rules, so a short list gives short groups.
- For each group, it draws one filled radius-5 circle per point. Then it draws a 2-pixel line for each connection whose two indices are both inside the group. Pose is green `(0,255,0)`, the left hand blue `(255,0,0)` and the right hand red `(0,0,255)`, all in BGR order.
- It draws two green wrist connectors with no bounds check: pose 14 to right-hand 0, and pose 13 to left-hand 0.
- It appends the finished image to the video writer.

After the last frame the writer is released.

The OpenCV canvas is modelled as the ordered list of draw commands applied to a
fresh black 640×480 image (`Drawing.Canvas`, `Drawing.Command`). A point's pixel
is `(int(x·640), int(y·480))`, where `int` truncates toward zero (`Drawing.Trunc`).
Coordinates are `real`.

Modules, one per part of the pipeline:

- `keypoints.dfy` (`Keypoints`): the keypoint value and the in-place y-flip over an array (`FlipY`). `Flipped` is its reference definition.
- `drawing.dfy` (`Drawing`): the constants, colours, pixel conversion and draw commands. The `Canvas` class holds the command list that the drawing calls extend.
- `plan.dfy` (`Plan`): the connection tables, Python slicing, the group split, and the bounds-checked line selection (`Kept`, `Lines`). It also holds the frame's draw plan (`FramePlan`) and the lemmas that fix its layout, colours and fault condition.
- `frame.dfy` (`Compositor`): the drawing loops as methods on a `Canvas`. Each is proved to produce exactly the plan.
- `video.dfy` (`Video`): the `VideoWriter` class, a frame list plus a release flag (and a ghost release count used only by the proofs). It also holds `RenderFrame`, one iteration of the frame loop, and `Visualize`, the frame loop itself. Both are proved against the reference definitions `FrameImage` and `Collect`/`RenderAll`.

Behaviour as `main.py` has it:

- **Truncation, not rounding.** Pixel coordinates come from `int()`, so they are truncated.
- **A frame faults below 37 keypoints, not 57.** The unguarded indices are `pose[14]` and `right[0]` (main.py:124-125), and `pose[13]` and `left[0]` (main.py:128-129). The last two exist whenever the first two do. A frame with 37 to 56 points renders: its right hand is incomplete, and it keeps exactly the first n − 37 hand lines (every hand-table entry's larger end is one more than the previous entry's). Its plan has 2n − 3 commands.
- **A fault is fatal to the whole call.** A frame with fewer than 37 points raises an index error at the first wrist connector. The error propagates out of the call, so the images already written stay in the writer. The writer is never released on that path (`Visualize`, outcome `Crashed`).

## Model

| member | source | states |
|---|---|---|
| Keypoints.FlipY | main.py:63-64 | the in-place pass leaves the array equal to `Flipped` of its old contents |
| Keypoints.FlippedAt | main.py:63-64 | at every index, x is unchanged and y becomes 1 - y; the length is unchanged |
| Keypoints.FlippedTwice | main.py:63-64 | the flip is its own inverse over the reals |
| Drawing.Trunc | main.py:73-74 | `int()` of a real: the integer part, truncated toward zero for negative values |
| Drawing.ToPixelCell | main.py:73-74 | a keypoint inside the frame maps to the pixel cell containing `(x·640, y·480)` |
| Drawing.Canvas.Black | main.py:59 | a fresh canvas is 640×480 with nothing drawn on it (all black) |
| Drawing.Canvas.DrawCircle | main.py:75 | a circle call appends exactly that circle to the canvas |
| Drawing.Canvas.DrawLine | main.py:86 | a line call appends exactly that line to the canvas |
| Plan.PoseConnections | main.py:78-79 | the pose table has 12 pairs, every index below 15 |
| Plan.HandConnections | main.py:95-98 | the hand table has 20 pairs, every index below 21 |
| Plan.Slice | main.py:67-68 | Python slice `s[lo:hi]`: empty past the end, clamped length, elements from `lo` on |
| Plan.SliceFrom | main.py:69 | Python slice `s[lo:]`: empty past the end, otherwise everything from `lo` |
| Plan.Split | main.py:67-69 | pose has `min(n,15)` points, left hand `max(0, min(n,36) - 15)`, right hand `max(0, n - 36)` |
| Plan.SplitConcat | main.py:67-69 | pose + left + right is exactly the keypoint list (contiguous, nothing lost or reordered) |
| Plan.SplitComplete | main.py:67-69 | with at least 37 points the groups are `[0,15)`, `[15,36)` and `[36,n)` |
| Plan.Circles | main.py:72-75 | one circle per point of the group |
| Plan.CirclesAt | main.py:72-75 | circle i is filled, radius 5, at point i's pixel, in the group colour |
| Plan.Kept | main.py:80-82 | the connections that pass the bounds check are at most the table and all in range |
| Plan.KeptMembers | main.py:80-82 | a connection passes if and only if it is in the table and both ends are below the group length |
| Plan.KeptConcat | main.py:80-82 | the bounds check filters in table order: a table split in two is filtered part by part, so kept lines keep their table order and repeats |
| Plan.KeptAll | main.py:80-82 | when every pair is in range, no connection is skipped |
| Plan.Lines | main.py:80-86 | one line per connection that passes the bounds check |
| Plan.LinesAt | main.py:80-86 | line j is 2 px wide, in the group colour, between the two ends of the j-th connection that passed |
| Plan.KeptChained | main.py:99-101 | in a table whose entry j has larger end j + 1, a group of m points keeps exactly the first m − 1 entries, in order |
| Plan.HandChained | main.py:95-98 | the hand table is such a table: each entry's larger end is one more than the previous entry's |
| Plan.LinesFull | main.py:99-106 | with every pair in range the lines follow the table entry for entry |
| Plan.GroupPlanAt | main.py:72-86 | a group draws its circles first, in point order, then its lines |
| Plan.FramePlan | main.py:124-130 | a frame's plan exists (does not fault) if and only if it has at least 37 keypoints |
| Plan.FrameParts | main.py:72-130 | a rendered plan is pose, then left hand, then right hand, then the two connectors; pose part 27 long, left part 41 |
| Plan.PoseLayout | main.py:72-86 | commands 0..14 are the green pose circles in point order; the next 12 are the pose lines in table order |
| Plan.LeftLayout | main.py:89-106 | then come the blue circles of points 15..35, then the 20 blue hand lines over points 15.. in table order |
| Plan.RightLayout | main.py:109-122 | then come the red circles of points 36.., then the red hand lines whose ends exist |
| Plan.WristLayout | main.py:124-130 | the plan ends with green lines pose 14 to point 36 and pose 13 to point 15; its length is n + 34 + kept right lines |
| Plan.PartialFrame | main.py:109-130 | a frame of 37 to 57 points keeps the first n − 37 hand lines for its right hand, in table order, and its plan has 2n − 3 commands |
| Plan.KeypointCircle | main.py:72-112 | every keypoint gets its circle in its group's colour at a fixed, increasing position |
| Plan.FullFrame | main.py:78-122 | with both hands complete all 12 + 20 + 20 table lines are drawn: the plan has n + 54 commands |
| Compositor.DrawCircles | main.py:72-75 | the circle loop appends exactly `Circles` of the group |
| Compositor.DrawConnections | main.py:80-86 | the checked connection loop appends exactly `Lines` of the group |
| Compositor.DrawGroup | main.py:72-86 | a group's two loops append its circles then its lines |
| Compositor.DrawBody | main.py:72-122 | the three group draws append pose, then left hand, then right hand, in their colours |
| Compositor.DrawFrame | main.py:66-130 | drawing a flipped frame succeeds if and only if it has at least 37 points, and then appends exactly its plan; on a fault the groups have been drawn and no connector |
| Video.VideoWriter.Open | main.py:46-47 | the writer records the codec, frame rate and frame size it is opened with, and starts empty and not released (the values mp4v, 30 and 640×480 are fixed by `Visualize`) |
| Video.VideoWriter.Write | main.py:133 | writing appends one image at the end |
| Video.VideoWriter.Release | main.py:136 | releasing appends nothing and marks the writer released |
| Video.FrameImage | main.py:59-130 | a frame yields an image if and only if it has at least 37 keypoints, and the image is 640×480 |
| Video.Collect | main.py:57-133 | the loop writes at most one image per frame |
| Video.CollectStopsAt | main.py:57-133 | the loop stops at the first faulting frame; every image before it is that frame's own result, in order |
| Video.CollectStep | main.py:57-133 | one more frame appends its image, or faults at that frame |
| Video.CollectIgnoresRest | main.py:57-133 | once a frame has faulted, the later frames change nothing |
| Video.RenderAllSpec | main.py:57-136 | one image per frame in input order, each from its own frame alone; a fault exactly when some frame has under 37 points, at the first one |
| Video.RenderFrame | main.py:59-130 | one iteration (flip in place, fresh black canvas, draw) yields exactly `FrameImage` of the frame |
| Video.Visualize | main.py:46-136 | the writer receives exactly the images of `RenderAll`; it is released once if and only if no frame faults |
| Video.NoFrames | main.py:57-136 | zero frames: nothing is written and the run completes, so the writer is released |
| Video.CentredFrame | main.py:63-75 | 57 points at (0.5, 0.5) render, every circle at pixel (320, 240) in its group colour |

## Left out

- The web route, request model and file response (main.py:11-19, 140) are web plumbing.
- The URL download, the writing of the downloaded JSON, the file-existence check and `mkdir` (main.py:22-40) are network and file-system I/O.
- `json.load` and the mapping of a decode error to HTTP 400 (main.py:50-54) are left out. The parsed frames are a given sequence of keypoint lists. The types exclude missing `frames`/`keypoints` keys and non-numeric values. They also exclude keypoints that are not `[x, y]` pairs. A keypoint with fewer than two entries raises an index error at main.py:64, and that path is not modelled. A keypoint with extra entries renders as its first two, with the extras ignored.
- The writer is opened before the JSON is read (main.py:47). On the invalid-JSON path it is left unreleased; that path is not modelled.
- OpenCV pixel filling, anti-aliasing and clipping of off-canvas coordinates are library internals. Circles and lines stay abstract commands.
- Codec, frame rate and container encoding, and `cv2.destroyAllWindows` (main.py:137), are left out. The writer is an append-only image list with a release flag.
- IEEE double arithmetic is not modelled: `1.0 - y`, `x·640` and `int()` are exact over `real`.
- Keypoints.FlippedTwice: holds exactly over the reals; with doubles, `1 - (1 - y)` need not equal `y`.
- Video.RenderFrame: copies the frame into a fresh array and flips that array in place. `main.py` flips the list inside the parsed JSON, but that data is local to the call and never read again, so the copy changes nothing observable. Aliasing between frames is not modelled, and each `[x, y]` pair is a value rather than a mutable list.
- Video.VideoWriter.Write: requires the writer not to be released. `main.py` never writes after `release()`, and OpenCV's behaviour in that case is not modelled.
- The exception raised by a faulting frame becomes the outcome `Crashed(k)`. How the web framework reports it is not modelled.
