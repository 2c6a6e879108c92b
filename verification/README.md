# RGB-D visual odometry front-end: map store, trajectory and manifest, in Dafny

This project models the bookkeeping core of a frame-to-frame RGB-D visual
odometry front-end. The front-end reads a manifest of colour/depth image
pairs. For each pair it extracts ORB features and matches them against the
previous frame. It estimates the relative camera pose with PnP and
accumulates it into a trajectory. It also grows a sparse 3D point map that is
halved on every other update in sparse mode. The model covers:

- `removeIndexElements` (include/utils.h). It is the in-place compaction that
  keeps the elements at odd positions. Module `VectorUtils` models it as a
  two-index loop over a vector value, proved equal to the specification
  function `Decimate`.
- `readAssociationFile` (src/utils.cpp). Module `Association` models the
  manifest as the sequence of its lines. A whitespace tokenizer stands in for
  `operator>>`, and a file that cannot be opened is an error result.
- Module `Odometry` holds class `Vo` (include/Vo.h, src/Vo.cpp), which
  covers `addFrame`, with its `static` toggle and the boundary marker, one
  iteration of `processData`'s loop (`ProcessFrame`, with its tracked half
  `Track`), and the whole loop (`ProcessData`). At module level it holds the
  depth filter inside `estimatePose` and the matched/unmatched keypoint test
  of the overlay.
- `Run` models `init` reading the manifest, followed by `processData`.
- The entities of include/DS.h are in module `Types`. `Frame`'s `pose`
  defaults to the identity.

Some things are free terms (datatype constructors): the PnP solver, pose
composition and inversion, back-projection and point transformation. The
model assumes no law of rigid motion. Because constructors are injective
and distinct, which rigid motions are not, the contracts only ever equate
these terms and never separate them. What is proved is the
counting, ordering, skipping and "nothing else changes" behaviour around
these terms. Three things come in as function-valued parameters: image
loading, feature extraction and descriptor matching. Their library contracts
are preconditions: ORB returns one descriptor row per keypoint, and the
matcher returns indices into the two descriptor sets.

Three behaviours of the code that the model keeps as written:

- `addFrame` moves each new point by the frame's own `pose`
  (src/Vo.cpp:296). `processData` never assigns that pose, so it is always
  the identity, and `cumulaPos` is not used there. `ProcessFrame`'s contract
  shows this: the frame it stores has pose `Identity`.
- There is no minimum-correspondence check before `solvePnPRansac`
  (src/Vo.cpp:265). The model treats every solve as returning a pose, so
  each loaded frame that has a previous frame is tracked and logged; the
  solver's own failure on too few correspondences is listed under
  "Left out".
- A frame that fails to load is skipped with `continue` (src/Vo.cpp:44-46),
  and nothing is updated.

## Model

| member | source | states |
|---|---|---|
| `VectorUtils.RemoveIndexElements` | include/utils.h:9-18 | The result is `Decimate(vec)`, the elements at odd positions in order. The loop invariants are: write index j = ⌊i/2⌋ ≤ i, the first j slots hold old elements 1, 3, …, 2j−1, and every slot at or after i is still unread and untouched. |
| `VectorUtils.DecimateLength` | include/utils.h:10-17 | A vector of n elements keeps exactly ⌊n/2⌋. An empty or one-element vector becomes empty. |
| `VectorUtils.DecimateAt` | include/utils.h:11-15 | The k-th survivor is the old element at position 2k+1. Survivors therefore keep their relative order. |
| `VectorUtils.EvenIndexedAt` | include/utils.h:7 | The k-th dropped element is the one at even position 2k. There are ⌈n/2⌉ of them. |
| `VectorUtils.DecimateSplits` | include/utils.h:11-17 | The survivors and the even-position elements together are exactly the input multiset, so the compaction loses nothing else. |
| `Association.ReadAssociationFile` | src/utils.cpp:6-23 | A file that cannot be opened yields `Failure(CannotOpenFile)` and no lists. Otherwise the two lists have one entry per line, blank and short lines included. The i-th rgb and depth entries are the parse of line i. |
| `Association.Word` | src/utils.cpp:18 | The extracted field is the longest whitespace-free prefix. It is non-empty when the text starts with a non-space, and it is followed by whitespace or the end. |
| `Association.TokensSplit` | src/utils.cpp:16-18 | Tokenising splits at whitespace: the tokens of `a`, a whitespace character and `b` are the tokens of `a` followed by those of `b`. |
| `Association.ParseFormatLine` | src/utils.cpp:16-18 | Round trip: a line written as "stamp name stamp name" from whitespace-free fields parses back to the same rgb and depth records. |
| `Association.ExtraTokensIgnored` | src/utils.cpp:18 | Tokens after the fourth do not change the records. |
| `Association.BlankLineRecords` | src/utils.cpp:15-20 | A line of only whitespace still yields one rgb and one depth record, with no timestamp and an empty file name. |
| `Odometry.EstimatePose` | src/Vo.cpp:247-265 | The correspondence loop builds `pts3d` and `pts2d` so that the pose is the solver applied to exactly `Points3d` and `Points2d` of the matches. |
| `Odometry.CorrespondencesFilter` | src/Vo.cpp:253-262 | `pts3d` and `pts2d` have equal length, no greater than the number of matches. Match j is kept iff the previous frame's depth under its query keypoint is non-zero, and kept matches stay in match order. |
| `Odometry.IsMatched` | src/Vo.cpp:69-75 | The early-exit search returns true iff some match has the keypoint as its train index. |
| `Odometry.UnmatchedKeypoints` | src/Vo.cpp:68-79 | The keypoints painted as unmatched are exactly those no match names, listed in increasing keypoint order. |
| `Odometry.NoMatchesAllUnmatched` | src/Vo.cpp:68-79 | With the empty match list of a frame that has no previous frame, every keypoint is unmatched. |
| `Odometry.NewMapPointsFilter` | src/Vo.cpp:289-300 | `addFrame` appends one point per keypoint that has a non-zero depth sample and an index below the number of descriptor rows, and no other point. Points come in keypoint order, each built from its own keypoint and descriptor row. |
| `Odometry.NewMapPointsCount` | src/Vo.cpp:289-300 | When there is one descriptor row per keypoint, the number of appended points equals the number of keypoints with a non-zero depth sample. |
| `Odometry.Vo.AddFrame` | src/Vo.cpp:282-301 | The toggle flips on every call, dense or not. The store is decimated iff the map is sparse and the toggle was set. The boundary equals the size after any decimation and before any append. The points below it are the kept points, unchanged, and the new points follow. |
| `Odometry.Vo.Track` | src/Vo.cpp:49-56 | `cumulaPos` becomes `old cumulaPos ∘ inverse(rel)`, where rel is the PnP pose of the filtered correspondences. That pose is appended to `cameraPoses` and becomes its last element. The frame's points are added as in `AddFrame`, and `Valid` is preserved. |
| `Odometry.Vo.ProcessFrame` | src/Vo.cpp:37-79 | The new state is `Step` of the old one. If either image is empty, every field stays as it was. Otherwise the frame, with identity pose, becomes `preFrame` and `hasPreFrame` becomes true. The pose is logged and the points added only when a previous frame existed. Decimation is due on the 1st, 3rd, 5th, … tracked frame. The first loaded frame leaves the trajectory and map unchanged and paints every keypoint unmatched. |
| `Odometry.Vo.ProcessData` | src/Vo.cpp:36-86 | The new state is `Replay` of the old state over the images of every manifest entry, in manifest order. `hasPreFrame` ends true iff it was true or some entry loaded. `cameraPoses` keeps its old poses and gains one per loaded frame that had a previous frame (`TrackedCount`). A manifest none of whose entries loads leaves every field unchanged. |
| `Odometry.Step` | src/Vo.cpp:42-58 | One entry's effect on the state: a failed load changes nothing, the first loaded frame only becomes the previous frame, and a later one also accumulates and logs its pose and adds its points after the optional decimation. The previous frame it leaves is always one built by processing: both images loaded, one descriptor per keypoint, identity pose. |
| `Odometry.Replay` | src/Vo.cpp:36-86 | The fold of `Step` over the entries handled so far keeps the previous frame a processed one. |
| `Odometry.ReplayNoLoads` | src/Vo.cpp:44-46 | If no entry loads, every entry is skipped and the state is exactly the one before the loop: previous frame, map, boundary, poses and toggle. |
| `Odometry.ReplayLastLoaded` | src/Vo.cpp:57-58 | After the loop the previous frame exists and is the frame built from the last entry that loaded. |
| `Odometry.ReplayTrajectory` | src/Vo.cpp:49-58 | Over the loop, `hasPreFrame` becomes true iff it was true or some entry loaded. The trajectory keeps its old poses as a prefix and gains exactly `TrackedCount` poses. |
| `Odometry.TrackedCountClosedForm` | src/Vo.cpp:49-58 | Starting without a previous frame, the trajectory gains max(0, loaded − 1) poses. With one, it gains one pose per loaded frame. |
| `Odometry.Run` | src/Vo.cpp:9-58 | An unopenable manifest is fatal. Otherwise a fresh `Vo` run over it ends with max(0, L − 1) poses, where L counts the entries whose two images both decode. |
| `Odometry.Vo.constructor` | include/Vo.h:11-17 | A new `Vo` has a default previous frame (empty images, identity pose), `hasPreFrame` false, an empty map and trajectory, and `cumulaPos` the identity. The manifest lists are the ones `init` reads (src/Vo.cpp:9-11), and the `addFrame` toggle starts true, as its static initialiser says (src/Vo.cpp:283). |

## Left out

- Concurrency: the producer/renderer handoff (`atmVersion`, `conVar`, `mtx`, `isRun`) and the renderer thread `runPangoLin` are left out. This includes the skipped frame's missing `atmVersion++`. Their whole content is thread synchronisation.
- OpenCV and Eigen numerics are not modelled: ORB, brute-force Hamming matching, `solvePnPRansac`, Rodrigues, `cv2eigen`, and back-projection through the intrinsics with depth scale 5000. They are foreign floating-point code. They appear as parameters or as free terms.
- Image decoding (`imread`) and path I/O are parameters, so which files exist is an input. Keypoint coordinates are kept as the pixel their depth lookup samples, so float-to-int truncation is not represented.
- Depth samples are unbounded naturals rather than 16-bit values. Only zero versus non-zero matters to the model.
- Depth lookups on an empty depth image are undefined in the source. The model returns 0 for them, but `Valid` shows they never happen: a previous frame always has both images loaded.
- Rendering, GUI toggles, `drawKeyFrame`, the overlay drawing calls, `waitKey` and window handling are not modelled. They are user interface. Only the matched/unmatched predicate is kept.
- Shutdown and the try/catch cleanup in `applictionStart` are left out. They are resource plumbing.
- Configuration parsing (include/config.hpp), `println` (include/common_include.h) and Main/main.cpp are left out. `isDense` and the dataset root are constructor arguments.
- `Odometry.Vo.AddFrame`: the boundary marker is an integer offset. In the source, `currMapPointsIter` is a vector iterator that a reallocating `emplace_back` can invalidate. The model does not capture that dangling handle.
- `Association.ReadAssociationFile`: timestamps are opaque tokens. The model represents neither the conversion to `double` nor the failure a non-numeric timestamp causes in the stream, which leaves that line's later fields empty. A timestamp the line does not supply is `None`, where the source leaves the double unassigned. Lines are given already split, as `getline` would split them.
- `Odometry.Vo.ProcessFrame`: the `static bool b` of `addFrame` is a field of the object. The source shares it across all `Vo` instances, but only one instance is ever created.
- `Odometry.Run`: the pose solver's failure is not represented. `solvePnPRansac` rejects fewer than four correspondences with an exception that nothing in `processData` catches, which ends the whole run. The model's solver always returns a pose, so the trajectory counts of `Odometry.Run`, `Odometry.Vo.ProcessData` and `Odometry.Vo.Track` assume every solve returns.
- `VectorUtils.RemoveIndexElements`: the compaction runs on a copy of the vector's value and returns the result, instead of rewriting the caller's vector through a reference. The two-index loop and its order are kept; aliasing of the caller's storage is not captured.
