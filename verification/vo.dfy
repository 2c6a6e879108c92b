/** The map store and trajectory bookkeeping of class Vo (include/Vo.h,
    src/Vo.cpp): the per-frame step of processData, addFrame with its
    alternating decimation and boundary marker, the depth filter that
    estimatePose applies to the matches, and the matched/unmatched
    classification of the current keypoints. Feature extraction, matching
    and image loading are parameters; the PnP solver, pose algebra and
    back-projection are the free terms of module Types. */
module Odometry {
  import opened Common
  import opened Types
  import opened VectorUtils
  import opened Association

  // ---------------------------------------------------------------------
  // Contracts of the external capabilities

  /** ORB's detectAndCompute yields one descriptor row per keypoint. */
  ghost predicate ExtractorContract(extract: ColorImage -> Features) {
    forall img :: |extract(img).keypoints| == |extract(img).descriptors|
  }

  ghost predicate MatchesWithin(matches: seq<DMatch>, nQuery: nat, nTrain: nat) {
    forall k :: 0 <= k < |matches| ==>
      0 <= matches[k].queryIdx < nQuery && 0 <= matches[k].trainIdx < nTrain
  }

  /** BFMatcher::match yields indices into the two descriptor sets it is given. */
  ghost predicate MatcherContract(matcher: (seq<Descriptor>, seq<Descriptor>) -> seq<DMatch>) {
    forall q, t :: MatchesWithin(matcher(q, t), |q|, |t|)
  }

  /** Every match names a keypoint of the previous and of the current frame. */
  ghost predicate MatchesInRange(matches: seq<DMatch>, prev: Frame, cur: Frame) {
    MatchesWithin(matches, |prev.keypoints|, |cur.keypoints|)
  }

  /** A frame as processData builds it: both images loaded, the features of
      its colour image, and the default identity pose, which nothing assigns. */
  ghost predicate Processed(frame: Frame) {
    && !frame.rgbImgCv.EmptyColor?
    && !frame.depthImgCv.EmptyDepth?
    && |frame.keypoints| == |frame.descriptors|
    && frame.pose == Identity
  }

  /** The raw depth sample under keypoint i. */
  function KeypointDepth(frame: Frame, i: nat): (r: nat)
    requires i < |frame.keypoints|
  {
    DepthAt(frame.depthImgCv, frame.keypoints[i].pt)
  }

  // ---------------------------------------------------------------------
  // estimatePose: the 3D-2D correspondences handed to the PnP solver

  /** estimatePose keeps match k when the previous frame has a non-zero
      depth sample under the match's query keypoint. */
  function HasDepth(prev: Frame, matches: seq<DMatch>): (r: nat -> bool) {
    (k: nat) => k < |matches| && 0 <= matches[k].queryIdx < |prev.keypoints|
         && KeypointDepth(prev, matches[k].queryIdx) != 0
  }

  /** The positions of the kept matches among the first n, in match order. */
  function KeptMatches(prev: Frame, matches: seq<DMatch>, n: nat): (r: seq<nat>) {
    Select(n, HasDepth(prev, matches))
  }

  /** The query keypoint of a match, back-projected with its depth sample. */
  function ObjectPoint(prev: Frame, m: DMatch): (r: Point3)
    requires 0 <= m.queryIdx < |prev.keypoints|
  {
    BackProject(prev.keypoints[m.queryIdx].pt, KeypointDepth(prev, m.queryIdx))
  }

  /** The train keypoint of a match, in the current image. */
  function ImagePoint(cur: Frame, m: DMatch): (r: Pixel)
    requires 0 <= m.trainIdx < |cur.keypoints|
  {
    cur.keypoints[m.trainIdx].pt
  }

  /** pts3d after the first n matches. */
  function Points3d(prev: Frame, matches: seq<DMatch>, n: nat): (r: seq<Point3>) {
    var idx := KeptMatches(prev, matches, n);
    seq(|idx|, k requires 0 <= k < |idx| => ObjectPoint(prev, matches[idx[k]]))
  }

  /** pts2d after the first n matches. */
  function Points2d(prev: Frame, cur: Frame, matches: seq<DMatch>, n: nat): (r: seq<Pixel>)
    requires MatchesInRange(matches, prev, cur)
  {
    var idx := KeptMatches(prev, matches, n);
    seq(|idx|, k requires 0 <= k < |idx| => ImagePoint(cur, matches[idx[k]]))
  }

  lemma CorrespondencesStep(prev: Frame, cur: Frame, matches: seq<DMatch>, i: nat)
    requires MatchesInRange(matches, prev, cur) && i < |matches|
    ensures Points3d(prev, matches, i + 1) ==
      Points3d(prev, matches, i) + (if HasDepth(prev, matches)(i) then [ObjectPoint(prev, matches[i])] else [])
    ensures Points2d(prev, cur, matches, i + 1) ==
      Points2d(prev, cur, matches, i) + (if HasDepth(prev, matches)(i) then [ImagePoint(cur, matches[i])] else [])
  {
  }

  /** estimatePose: the correspondence loop, then the solver on what it kept. */
  method EstimatePose(framePrev: Frame, frame2: Frame, matches: seq<DMatch>) returns (pose: Pose)
    requires MatchesInRange(matches, framePrev, frame2)
    ensures pose == PnP(Points3d(framePrev, matches, |matches|), Points2d(framePrev, frame2, matches, |matches|))
  {
    var pts3d: seq<Point3> := [];
    var pts2d: seq<Pixel> := [];
    for i := 0 to |matches|
      invariant pts3d == Points3d(framePrev, matches, i)
      invariant pts2d == Points2d(framePrev, frame2, matches, i)
    {
      CorrespondencesStep(framePrev, frame2, matches, i);
      var m := matches[i];
      var d := KeypointDepth(framePrev, m.queryIdx);
      if d == 0 {
        continue;  // no depth return under the previous keypoint
      }
      pts3d := pts3d + [BackProject(framePrev.keypoints[m.queryIdx].pt, d)];
      pts2d := pts2d + [frame2.keypoints[m.trainIdx].pt];
    }
    pose := PnP(pts3d, pts2d);
  }

  /** The two lists are parallel, no longer than the matches, and hold
      exactly the matches whose query keypoint has a depth sample, in match
      order. */
  lemma {:induction false} CorrespondencesFilter(prev: Frame, cur: Frame, matches: seq<DMatch>)
    requires MatchesInRange(matches, prev, cur)
    ensures var idx := KeptMatches(prev, matches, |matches|);
      && |Points3d(prev, matches, |matches|)| == |idx|
      && |Points2d(prev, cur, matches, |matches|)| == |idx|
      && |idx| <= |matches|
      && StrictlyIncreasing(idx)
      && (forall j :: 0 <= j < |matches| ==>
            (j in idx <==> KeypointDepth(prev, matches[j].queryIdx) != 0))
      && (forall k :: 0 <= k < |idx| ==>
            Points3d(prev, matches, |matches|)[k] == ObjectPoint(prev, matches[idx[k]]) &&
            Points2d(prev, cur, matches, |matches|)[k] == ImagePoint(cur, matches[idx[k]]))
  {
    SelectIncreasing(|matches|, HasDepth(prev, matches));
    forall j | 0 <= j < |matches|
      ensures j in KeptMatches(prev, matches, |matches|) <==> KeypointDepth(prev, matches[j].queryIdx) != 0
    {
      SelectMembership(|matches|, HasDepth(prev, matches), j);
    }
  }

  // ---------------------------------------------------------------------
  // The overlay: which current keypoints some match names

  /** Some match has keypoint i of the current frame as its train index. */
  predicate Matched(matches: seq<DMatch>, i: nat) {
    exists k :: 0 <= k < |matches| && matches[k].trainIdx == i
  }

  function Unmatched(matches: seq<DMatch>): (r: nat -> bool) {
    (i: nat) => !Matched(matches, i)
  }

  /** The search over the match list, stopping at the first hit. */
  method IsMatched(matches: seq<DMatch>, i: nat) returns (isMatched: bool)
    ensures isMatched <==> Matched(matches, i)
  {
    isMatched := false;
    var k := 0;
    while k < |matches|
      invariant 0 <= k <= |matches|
      invariant forall l :: 0 <= l < k ==> matches[l].trainIdx != i
    {
      if matches[k].trainIdx == i {
        isMatched := true;
        break;
      }
      k := k + 1;
    }
  }

  /** The keypoints painted as unmatched: exactly those no match names, in
      keypoint order. */
  method UnmatchedKeypoints(keypoints: seq<KeyPoint>, matches: seq<DMatch>) returns (unmatched: seq<nat>)
    ensures unmatched == Select(|keypoints|, Unmatched(matches))
    ensures StrictlyIncreasing(unmatched)
    ensures forall i :: 0 <= i < |keypoints| ==> (i in unmatched <==> !Matched(matches, i))
  {
    unmatched := [];
    for i := 0 to |keypoints|
      invariant unmatched == Select(i, Unmatched(matches))
    {
      var isMatched := IsMatched(matches, i);
      if !isMatched {
        unmatched := unmatched + [i];
      }
    }
    SelectIncreasing(|keypoints|, Unmatched(matches));
    forall i | 0 <= i < |keypoints|
      ensures i in unmatched <==> !Matched(matches, i)
    {
      SelectMembership(|keypoints|, Unmatched(matches), i);
    }
  }

  /** The first loaded frame has no previous frame, so its match list is
      empty and every keypoint is painted unmatched. */
  lemma {:induction false} NoMatchesAllUnmatched(n: nat)
    ensures Select(n, Unmatched([])) == seq(n, i => i)
  {
    if n > 0 {
      NoMatchesAllUnmatched(n - 1);
      assert !Matched([], n - 1);
    }
  }

  // ---------------------------------------------------------------------
  // addFrame: the map-point store

  /** addFrame stores keypoint i when it has a non-zero depth sample and a
      descriptor row. */
  function StoresKeypoint(frame: Frame): (r: nat -> bool) {
    (i: nat) => i < |frame.keypoints| && KeypointDepth(frame, i) != 0 && i < |frame.descriptors|
  }

  /** The point stored for keypoint i: back-projected, moved by the frame's
      own pose, with its descriptor row. */
  function NewMapPoint(frame: Frame, i: nat): (r: MapPoint)
    requires i < |frame.keypoints| && i < |frame.descriptors|
  {
    MapPoint(Transform(frame.pose, BackProject(frame.keypoints[i].pt, KeypointDepth(frame, i))),
             frame.descriptors[i])
  }

  /** The points addFrame appends for the first n keypoints, in keypoint order. */
  function NewMapPoints(frame: Frame, n: nat): (r: seq<MapPoint>) {
    var idx := Select(n, StoresKeypoint(frame));
    seq(|idx|, k requires 0 <= k < |idx| => NewMapPoint(frame, idx[k]))
  }

  /** The store after addFrame's optional decimation. */
  function AfterDecimation(points: seq<MapPoint>, isDense: bool, due: bool): (r: seq<MapPoint>) {
    if !isDense && due then Decimate(points) else points
  }

  /** addFrame appends one point per keypoint with a depth sample and a
      descriptor row, no other, in keypoint order. */
  lemma {:induction false} NewMapPointsFilter(frame: Frame)
    ensures var idx := Select(|frame.keypoints|, StoresKeypoint(frame));
      && |NewMapPoints(frame, |frame.keypoints|)| == |idx|
      && StrictlyIncreasing(idx)
      && (forall i :: 0 <= i < |frame.keypoints| ==>
            (i in idx <==> KeypointDepth(frame, i) != 0 && i < |frame.descriptors|))
      && (forall k :: 0 <= k < |idx| ==> NewMapPoints(frame, |frame.keypoints|)[k] == NewMapPoint(frame, idx[k]))
  {
    var n := |frame.keypoints|;
    SelectIncreasing(n, StoresKeypoint(frame));
    forall i | 0 <= i < n
      ensures i in Select(n, StoresKeypoint(frame)) <==> KeypointDepth(frame, i) != 0 && i < |frame.descriptors|
    {
      SelectMembership(n, StoresKeypoint(frame), i);
    }
  }

  /** For a frame whose extractor gave one descriptor per keypoint, addFrame
      appends exactly as many points as keypoints have a depth sample. */
  lemma {:induction false} NewMapPointsCount(frame: Frame)
    requires |frame.keypoints| == |frame.descriptors|
    ensures |NewMapPoints(frame, |frame.keypoints|)| ==
            |set i: nat | i < |frame.keypoints| && KeypointDepth(frame, i) != 0|
  {
    var n := |frame.keypoints|;
    SelectCount(n, StoresKeypoint(frame));
    assert Passing(n, StoresKeypoint(frame)) == set i: nat | i < n && KeypointDepth(frame, i) != 0;
  }

  // ---------------------------------------------------------------------
  // The trajectory counts over a whole manifest

  /** How many of the flagged frames loaded. */
  function LoadedCount(flags: seq<bool>): (r: nat) {
    if flags == [] then 0
    else LoadedCount(flags[..|flags| - 1]) + (if flags[|flags| - 1] then 1 else 0)
  }

  /** How many loaded frames found a previous frame to track against: one
      existed beforehand (hadPrev) or an earlier frame of the run loaded. */
  function TrackedCount(hadPrev: bool, flags: seq<bool>): (r: nat) {
    if flags == [] then 0
    else
      var before := flags[..|flags| - 1];
      TrackedCount(hadPrev, before) +
        (if flags[|flags| - 1] && (hadPrev || LoadedCount(before) > 0) then 1 else 0)
  }

  /** From a fresh start the trajectory gets max(0, loaded - 1) poses; with
      a previous frame already in place, one per loaded frame. */
  lemma {:induction false} TrackedCountClosedForm(hadPrev: bool, flags: seq<bool>)
    ensures TrackedCount(hadPrev, flags) ==
      if hadPrev then LoadedCount(flags)
      else if LoadedCount(flags) == 0 then 0
      else LoadedCount(flags) - 1
  {
    if flags != [] {
      TrackedCountClosedForm(hadPrev, flags[..|flags| - 1]);
    }
  }

  /** Both images of a manifest entry decoded. */
  predicate FrameLoads(rgbImg: ColorImage, depthImg: DepthImage) {
    !rgbImg.EmptyColor? && !depthImg.EmptyDepth?
  }

  /** format("{}/{}", root, name). */
  function ImagePath(root: string, name: string): (r: string) {
    root + "/" + name
  }

  /** The two images processData loads for each manifest entry. */
  function EntryImages(root: string, rgbData: Files, depthData: Files,
                       readColor: string -> ColorImage, readDepth: string -> DepthImage)
    : (r: seq<(ColorImage, DepthImage)>)
    requires |rgbData| == |depthData|
    ensures |r| == |rgbData|
  {
    seq(|rgbData|, i requires 0 <= i < |rgbData| =>
      (readColor(ImagePath(root, rgbData[i].fileName)),
       readDepth(ImagePath(root, depthData[i].fileName))))
  }

  /** For each loaded image pair, whether both images decoded. */
  function Flags(images: seq<(ColorImage, DepthImage)>): (r: seq<bool>)
    ensures |r| == |images|
  {
    seq(|images|, i requires 0 <= i < |images| => FrameLoads(images[i].0, images[i].1))
  }

  /** For each manifest entry, whether both of its images load. */
  function LoadFlags(root: string, rgbData: Files, depthData: Files,
                     readColor: string -> ColorImage, readDepth: string -> DepthImage): (r: seq<bool>)
    requires |rgbData| == |depthData|
  {
    Flags(EntryImages(root, rgbData, depthData, readColor, readDepth))
  }

  // ---------------------------------------------------------------------
  // processData as a fold of per-entry steps over the manifest

  /** A snapshot of the fields of Vo that processData updates. */
  datatype OdoState = OdoState(preFrame: Frame, hasPreFrame: bool, mapPoints: seq<MapPoint>,
                               boundary: nat, cumulaPos: Pose, cameraPoses: seq<Pose>,
                               toggle: bool)

  /** A previous frame, when there is one, was built by processData. */
  ghost predicate Coherent(s: OdoState) {
    s.hasPreFrame ==> Processed(s.preFrame)
  }

  /** The effect of one iteration of processData's loop on the state: a
      frame that fails to load changes nothing; the first loaded frame only
      becomes the previous frame; a later one is tracked against the
      previous frame, its pose accumulated and logged, and its points added
      after addFrame's optional decimation. */
  function Step(s: OdoState, isDense: bool, rgbImg: ColorImage, depthImg: DepthImage,
                extract: ColorImage -> Features,
                matcher: (seq<Descriptor>, seq<Descriptor>) -> seq<DMatch>): (r: OdoState)
    requires ExtractorContract(extract) && MatcherContract(matcher) && Coherent(s)
    ensures Coherent(r)
  {
    if !FrameLoads(rgbImg, depthImg) then s
    else
      var frame := CurrentFrame(rgbImg, depthImg, extract);
      if !s.hasPreFrame then s.(preFrame := frame, hasPreFrame := true)
      else
        var matches := matcher(s.preFrame.descriptors, frame.descriptors);
        var rel := PnP(Points3d(s.preFrame, matches, |matches|),
                       Points2d(s.preFrame, frame, matches, |matches|));
        var kept := AfterDecimation(s.mapPoints, isDense, s.toggle);
        var pose := Compose(s.cumulaPos, Inverse(rel));
        OdoState(frame, true, kept + NewMapPoints(frame, |frame.keypoints|), |kept|,
                 pose, s.cameraPoses + [pose], !s.toggle)
  }

  /** The state after processData's loop has handled the given image pairs. */
  function Replay(s: OdoState, isDense: bool, images: seq<(ColorImage, DepthImage)>,
                  extract: ColorImage -> Features,
                  matcher: (seq<Descriptor>, seq<Descriptor>) -> seq<DMatch>): (r: OdoState)
    requires ExtractorContract(extract) && MatcherContract(matcher) && Coherent(s)
    ensures Coherent(r)
    decreases |images|
  {
    if images == [] then s
    else
      var last := images[|images| - 1];
      Step(Replay(s, isDense, images[..|images| - 1], extract, matcher), isDense, last.0, last.1, extract, matcher)
  }

  /** A manifest none of whose entries loads leaves every field unchanged. */
  lemma {:induction false} ReplayNoLoads(s: OdoState, isDense: bool, images: seq<(ColorImage, DepthImage)>,
                                         extract: ColorImage -> Features,
                                         matcher: (seq<Descriptor>, seq<Descriptor>) -> seq<DMatch>)
    requires ExtractorContract(extract) && MatcherContract(matcher) && Coherent(s)
    requires LoadedCount(Flags(images)) == 0
    ensures Replay(s, isDense, images, extract, matcher) == s
  {
    if images != [] {
      var before := images[..|images| - 1];
      assert Flags(images)[..|images| - 1] == Flags(before);
      ReplayNoLoads(s, isDense, before, extract, matcher);
    }
  }

  /** After the loop the previous frame is the one built from the last
      entry that loaded. */
  lemma {:induction false} ReplayLastLoaded(s: OdoState, isDense: bool, images: seq<(ColorImage, DepthImage)>,
                                            extract: ColorImage -> Features,
                                            matcher: (seq<Descriptor>, seq<Descriptor>) -> seq<DMatch>,
                                            k: nat)
    requires ExtractorContract(extract) && MatcherContract(matcher) && Coherent(s)
    requires k < |images| && FrameLoads(images[k].0, images[k].1)
    requires forall j :: k < j < |images| ==> !FrameLoads(images[j].0, images[j].1)
    ensures var r := Replay(s, isDense, images, extract, matcher);
      r.hasPreFrame && r.preFrame == CurrentFrame(images[k].0, images[k].1, extract)
    decreases |images|
  {
    if k < |images| - 1 {
      var before := images[..|images| - 1];
      ReplayLastLoaded(s, isDense, before, extract, matcher, k);
    }
  }

  /** Over the loop a previous frame comes to exist exactly when one existed
      or some entry loaded, and the trajectory keeps its old poses and gains
      one per loaded frame that had a previous frame. */
  lemma {:induction false} ReplayTrajectory(s: OdoState, isDense: bool, images: seq<(ColorImage, DepthImage)>,
                                            extract: ColorImage -> Features,
                                            matcher: (seq<Descriptor>, seq<Descriptor>) -> seq<DMatch>)
    requires ExtractorContract(extract) && MatcherContract(matcher) && Coherent(s)
    ensures var r := Replay(s, isDense, images, extract, matcher);
      var flags := Flags(images);
      && r.hasPreFrame == (s.hasPreFrame || LoadedCount(flags) > 0)
      && |r.cameraPoses| == |s.cameraPoses| + TrackedCount(s.hasPreFrame, flags)
      && s.cameraPoses <= r.cameraPoses
  {
    if images != [] {
      var before := images[..|images| - 1];
      assert Flags(images)[..|images| - 1] == Flags(before);
      ReplayTrajectory(s, isDense, before, extract, matcher);
    }
  }

  // ---------------------------------------------------------------------
  // class Vo

  class Vo {
    const isDense: bool          // cfgPtr->isDense
    const datasetRoot: string    // cfgPtr->DATASET_ROOT
    const rgbData: Files
    const depthData: Files

    var preFrame: Frame
    var hasPreFrame: bool
    var mapPoints: seq<MapPoint>
    /** currMapPointsIter as an offset: points below it are historical. */
    var currMapPointsIter: nat
    var cumulaPos: Pose
    var cameraPoses: seq<Pose>
    /** addFrame's function-local `static bool b`: decimate on this call. */
    var toggle: bool

    /** The fields processData updates, as a value. */
    function State(): (r: OdoState)
      reads this
    {
      OdoState(preFrame, hasPreFrame, mapPoints, currMapPointsIter, cumulaPos, cameraPoses, toggle)
    }

    ghost predicate Valid()
      reads this
    {
      && |rgbData| == |depthData|
      && currMapPointsIter <= |mapPoints|
      && (hasPreFrame ==> Processed(preFrame))
      && (!hasPreFrame ==> cameraPoses == [] && mapPoints == [])
      && (cameraPoses == [] ==> cumulaPos == Identity)
      && (cameraPoses != [] ==> cameraPoses[|cameraPoses| - 1] == cumulaPos)
      // addFrame runs once per pose, and b starts true
      && toggle == (|cameraPoses| % 2 == 0)
    }

    /** Vo() followed by the manifest part of init. */
    constructor (isDense: bool, datasetRoot: string, rgbData: Files, depthData: Files)
      requires |rgbData| == |depthData|
      ensures Valid()
      ensures this.isDense == isDense && this.datasetRoot == datasetRoot
      ensures this.rgbData == rgbData && this.depthData == depthData
      ensures preFrame == DefaultFrame && !hasPreFrame
      ensures mapPoints == [] && currMapPointsIter == 0
      ensures cumulaPos == Identity && cameraPoses == [] && toggle
    {
      this.isDense := isDense;
      this.datasetRoot := datasetRoot;
      this.rgbData := rgbData;
      this.depthData := depthData;
      preFrame := DefaultFrame;
      hasPreFrame := false;
      mapPoints := [];
      currMapPointsIter := 0;
      cumulaPos := Identity;
      cameraPoses := [];
      toggle := true;
    }

    /** addFrame: decimate when due and the map is sparse, flip the toggle
        in every mode, mark the boundary, then append the frame's points.
        Points below the boundary are the kept ones, untouched. */
    method AddFrame(frame: Frame)
      modifies this`mapPoints, this`currMapPointsIter, this`toggle
      ensures toggle == !old(toggle)
      ensures currMapPointsIter == |AfterDecimation(old(mapPoints), isDense, old(toggle))|
      ensures mapPoints == AfterDecimation(old(mapPoints), isDense, old(toggle))
                           + NewMapPoints(frame, |frame.keypoints|)
    {
      if !isDense && toggle {
        mapPoints := RemoveIndexElements(mapPoints);
      }
      toggle := !toggle;
      currMapPointsIter := |mapPoints|;
      ghost var kept := mapPoints;
      for i := 0 to |frame.keypoints|
        invariant mapPoints == kept + NewMapPoints(frame, i)
        modifies this`mapPoints
      {
        var d := KeypointDepth(frame, i);
        if d == 0 {
          continue;
        }
        var point := Transform(frame.pose, BackProject(frame.keypoints[i].pt, d));
        if i < |frame.descriptors| {
          mapPoints := mapPoints + [MapPoint(point, frame.descriptors[i])];
        }
      }
    }
  
    /** One iteration of processData's loop. A frame whose colour or depth
        image fails to load is skipped with nothing changed. Otherwise its
        features are extracted; if a previous frame exists, the relative
        pose is estimated from the matches, the cumulative pose becomes
        cumulaPos * rel.inverse() and is logged, and the frame's points are
        added (the decimation is due on the 1st, 3rd, 5th, ... tracked
        frame). In every loaded case the frame becomes the previous frame.
        unmatched lists the keypoints the overlay paints as unmatched. */
    method ProcessFrame(rgbImg: ColorImage, depthImg: DepthImage,
                        extract: ColorImage -> Features,
                        matcher: (seq<Descriptor>, seq<Descriptor>) -> seq<DMatch>)
      returns (loaded: bool, unmatched: seq<nat>)
      requires Valid() && ExtractorContract(extract) && MatcherContract(matcher)
      modifies this
      ensures Valid()
      ensures loaded == FrameLoads(rgbImg, depthImg)
      ensures State() == Step(old(State()), isDense, rgbImg, depthImg, extract, matcher)
      ensures !loaded ==>
        && preFrame == old(preFrame) && hasPreFrame == old(hasPreFrame)
        && mapPoints == old(mapPoints) && currMapPointsIter == old(currMapPointsIter)
        && cumulaPos == old(cumulaPos) && cameraPoses == old(cameraPoses)
        && toggle == old(toggle) && unmatched == []
      ensures loaded ==> preFrame == CurrentFrame(rgbImg, depthImg, extract) && hasPreFrame
      ensures loaded && !old(hasPreFrame) ==>
        && mapPoints == old(mapPoints) && currMapPointsIter == old(currMapPointsIter)
        && cumulaPos == old(cumulaPos) && cameraPoses == old(cameraPoses)
        && unmatched == seq(|preFrame.keypoints|, i => i)
      ensures loaded && old(hasPreFrame) ==>
        var frame := CurrentFrame(rgbImg, depthImg, extract);
        var matches := matcher(old(preFrame).descriptors, frame.descriptors);
        var rel := PnP(Points3d(old(preFrame), matches, |matches|),
                       Points2d(old(preFrame), frame, matches, |matches|));
        var kept := AfterDecimation(old(mapPoints), isDense, |old(cameraPoses)| % 2 == 0);
        && cumulaPos == Compose(old(cumulaPos), Inverse(rel))
        && cameraPoses == old(cameraPoses) + [cumulaPos]
        && currMapPointsIter == |kept|
        && mapPoints == kept + NewMapPoints(frame, |frame.keypoints|)
        && unmatched == Select(|frame.keypoints|, Unmatched(matches))
    {
      ghost var before := State();
      loaded := FrameLoads(rgbImg, depthImg);
      if !loaded {
        unmatched := [];
        return;
      }
      var features := extract(rgbImg);
      var frame := Frame(rgbImg, depthImg, features.keypoints, features.descriptors, Identity);
      var matchesList: seq<DMatch> := [];
      if hasPreFrame {
        matchesList := matcher(preFrame.descriptors, frame.descriptors);
        Track(frame, matchesList);
      }
      preFrame := frame;
      hasPreFrame := true;
      unmatched := UnmatchedKeypoints(frame.keypoints, matchesList);
      if matchesList == [] {
        NoMatchesAllUnmatched(|frame.keypoints|);
      }
      assert frame == CurrentFrame(rgbImg, depthImg, extract);
      assert State() == Step(before, isDense, rgbImg, depthImg, extract, matcher);
    }

    /** The tracked part of a step: estimate the relative pose against the
        previous frame, accumulate and log it, and add the frame's points. */
    method Track(frame: Frame, matches: seq<DMatch>)
      requires Valid() && hasPreFrame && Processed(frame)
      requires MatchesInRange(matches, preFrame, frame)
      modifies this`cumulaPos, this`cameraPoses, this`mapPoints, this`currMapPointsIter, this`toggle
      ensures Valid()
      ensures
        var rel := PnP(Points3d(preFrame, matches, |matches|), Points2d(preFrame, frame, matches, |matches|));
        var kept := AfterDecimation(old(mapPoints), isDense, |old(cameraPoses)| % 2 == 0);
        && cumulaPos == Compose(old(cumulaPos), Inverse(rel))
        && cameraPoses == old(cameraPoses) + [cumulaPos]
        && currMapPointsIter == |kept|
        && mapPoints == kept + NewMapPoints(frame, |frame.keypoints|)
        && toggle == !old(toggle)
    {
      var relative := EstimatePose(preFrame, frame, matches);
      cumulaPos := Compose(cumulaPos, Inverse(relative));
      cameraPoses := cameraPoses + [cumulaPos];
      AddFrame(frame);
    }

    /** processData's loop over the manifest: each entry's two images are
        loaded and the entry is processed, so the new state is the replay of
        the old one over the manifest's images. In particular a previous
        frame exists at the end exactly when one existed before or some
        entry loaded, the trajectory grew by one pose per loaded frame that
        had a previous frame, keeping every earlier pose, and a manifest
        none of whose entries loads changes nothing. */
    method ProcessData(readColor: string -> ColorImage, readDepth: string -> DepthImage,
                       extract: ColorImage -> Features,
                       matcher: (seq<Descriptor>, seq<Descriptor>) -> seq<DMatch>)
      requires Valid() && ExtractorContract(extract) && MatcherContract(matcher)
      modifies this
      ensures Valid()
      ensures State() == Replay(old(State()), isDense,
                                EntryImages(datasetRoot, rgbData, depthData, readColor, readDepth),
                                extract, matcher)
      ensures var flags := LoadFlags(datasetRoot, rgbData, depthData, readColor, readDepth);
        && hasPreFrame == (old(hasPreFrame) || LoadedCount(flags) > 0)
        && |cameraPoses| == |old(cameraPoses)| + TrackedCount(old(hasPreFrame), flags)
        && old(cameraPoses) <= cameraPoses
        && (LoadedCount(flags) == 0 ==> State() == old(State()))
    {
      ghost var images := EntryImages(datasetRoot, rgbData, depthData, readColor, readDepth);
      ghost var start := State();
      for i := 0 to |rgbData|
        invariant Valid()
        invariant State() == Replay(start, isDense, images[..i], extract, matcher)
      {
        var rgbImg := readColor(ImagePath(datasetRoot, rgbData[i].fileName));
        var depthImg := readDepth(ImagePath(datasetRoot, depthData[i].fileName));
        var loaded, unmatched := ProcessFrame(rgbImg, depthImg, extract, matcher);
        assert images[..i + 1][..i] == images[..i];
      }
      assert images[..|rgbData|] == images;
      ReplayTrajectory(start, isDense, images, extract, matcher);
      if LoadedCount(Flags(images)) == 0 {
        ReplayNoLoads(start, isDense, images, extract, matcher);
      }
    }
  }

  /** The frame processData builds from two loaded images. */
  function CurrentFrame(rgbImg: ColorImage, depthImg: DepthImage, extract: ColorImage -> Features): (r: Frame) {
    Frame(rgbImg, depthImg, extract(rgbImg).keypoints, extract(rgbImg).descriptors, Identity)
  }

  /** init followed by processData: an unreadable manifest is fatal;
      otherwise the trajectory ends with max(0, loaded - 1) poses, where
      loaded counts the manifest entries whose two images both decode. */
  method Run(isDense: bool, datasetRoot: string, manifest: Option<seq<string>>,
             readColor: string -> ColorImage, readDepth: string -> DepthImage,
             extract: ColorImage -> Features,
             matcher: (seq<Descriptor>, seq<Descriptor>) -> seq<DMatch>)
    returns (trajectoryLength: Result<nat, ReadError>)
    requires ExtractorContract(extract) && MatcherContract(matcher)
    ensures manifest.None? ==> trajectoryLength == Failure(CannotOpenFile)
    ensures manifest.Some? ==>
      var loaded := LoadedCount(LoadFlags(datasetRoot, RgbRecords(manifest.value),
                                          DepthRecords(manifest.value), readColor, readDepth));
      trajectoryLength == Success(if loaded == 0 then 0 else loaded - 1)
  {
    var files := ReadAssociationFile(manifest);
    if files.Failure? {
      return Failure(files.error);
    }
    RecordsOfLines(manifest.value, files.value.0, files.value.1);
    var vo := new Vo(isDense, datasetRoot, files.value.0, files.value.1);
    vo.ProcessData(readColor, readDepth, extract, matcher);
    TrackedCountClosedForm(false, LoadFlags(datasetRoot, files.value.0, files.value.1, readColor, readDepth));
    return Success(|vo.cameraPoses|);
  }
}
