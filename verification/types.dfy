/** The entities of include/DS.h and the values they are built from.
    Poses and 3D points are free terms: composition, inversion, the PnP
    solver and back-projection are datatype constructors. Constructors are
    injective and distinct, which rigid motions are not (the composition of
    two identities is the identity), so the contracts only ever equate these
    terms and never state that two of them differ. */
module Types {
  import opened Common

  /** The image position a keypoint samples (cv::KeyPoint::pt). */
  datatype Pixel = Pixel(x: int, y: int)

  datatype KeyPoint = KeyPoint(pt: Pixel)

  /** One row of the descriptor matrix. */
  type Descriptor = seq<bv8>

  /** A correspondence: queryIdx indexes the previous frame, trainIdx the current one. */
  datatype DMatch = DMatch(queryIdx: int, trainIdx: int)

  /** Rigid transforms (Eigen::Isometry3d) as free terms. */
  datatype Pose =
    | Identity
    | PnP(pts3d: seq<Point3>, pts2d: seq<Pixel>)  // what solvePnPRansac returns for these inputs
    | Compose(lhs: Pose, rhs: Pose)                // lhs * rhs
    | Inverse(inner: Pose)                         // inner.inverse()

  /** 3D points as free terms. */
  datatype Point3 =
    | BackProject(pt: Pixel, depth: nat)           // pixel and raw depth through the intrinsics
    | Transform(pose: Pose, point: Point3)         // pose * point

  /** An image handle; EmptyColor is the empty cv::Mat imread returns on failure. */
  datatype ColorImage = EmptyColor | ColorImage(handle: nat)

  /** A 16-bit depth image as a function from pixel to raw depth; 0 means no return. */
  datatype DepthImage = EmptyDepth | DepthImage(sample: Pixel -> nat)

  /** Raw depth at p. An empty image is never sampled: frames are only
      processed once both images have loaded. */
  function DepthAt(img: DepthImage, p: Pixel): (r: nat) {
    match img
    case EmptyDepth => 0
    case DepthImage(sample) => sample(p)
  }

  datatype Frame = Frame(
    rgbImgCv: ColorImage,
    depthImgCv: DepthImage,
    keypoints: seq<KeyPoint>,
    descriptors: seq<Descriptor>,
    pose: Pose)

  /** A default-constructed Frame: empty images, no features, identity pose. */
  const DefaultFrame := Frame(EmptyColor, EmptyDepth, [], [], Identity)

  datatype MapPoint = MapPoint(position: Point3, descriptor: Descriptor)

  /** One manifest field pair. A timestamp that the line does not supply is
      None: the source leaves that double unassigned. */
  datatype FileInfo = FileInfo(timeStamp: Option<string>, fileName: string)

  type Files = seq<FileInfo>

  /** What feature extraction yields for an image. */
  datatype Features = Features(keypoints: seq<KeyPoint>, descriptors: seq<Descriptor>)
}
