/** The messages and configuration the 3D detection node works on. */
module Messages {
  import opened Floats

  datatype Option<T> = None | Some(value: T)

  /** yolov8_msgs/Point2D and the size vector of a 2D box, in pixels. */
  datatype Point2D = Point2D(x: real, y: real)

  /** yolov8_msgs/KeyPoint2D. */
  datatype KeyPoint2D = KeyPoint2D(id: int, point: Point2D, score: real)

  /** A freshly constructed KeyPoint2D(): id 0 at (0, 0) with score 0. */
  const DEFAULT_KEYPOINT_2D := KeyPoint2D(0, Point2D(0.0, 0.0), 0.0)

  /** yolov8_msgs/BoundingBox2D: centre and size in pixels (the orientation is not used). */
  datatype BoundingBox2D = BoundingBox2D(center: Point2D, size: Point2D)

  /** A finite 3-vector in metres. */
  datatype Vec3 = Vec3(x: real, y: real, z: real)

  /** yolov8_msgs/BoundingBox3D: centre position, size and frame id. */
  datatype BoundingBox3D = BoundingBox3D(center: Vec3, size: Vec3, frameId: string)

  /** A freshly constructed BoundingBox3D(): zero centre and size, empty frame id. */
  const DEFAULT_BOUNDING_BOX_3D := BoundingBox3D(Vec3(0.0, 0.0, 0.0), Vec3(0.0, 0.0, 0.0), "")

  /** A 3D point whose coordinates are float64 values, possibly NaN or infinite. */
  datatype Point3 = Point3(x: Float, y: Float, z: Float)

  /** yolov8_msgs/KeyPoint3D. */
  datatype KeyPoint3D = KeyPoint3D(id: int, point: Point3, score: real)

  /** yolov8_msgs/KeyPoint3DArray. */
  datatype KeyPoint3DArray = KeyPoint3DArray(data: seq<KeyPoint3D>, frameId: string)

  /** yolov8_msgs/Detection, reduced to the fields the node reads or writes; the other
      fields pass through unchanged. */
  datatype Detection = Detection(
    bbox: BoundingBox2D,
    keypoints: seq<KeyPoint2D>,
    bbox3d: BoundingBox3D,
    keypoints3d: KeyPoint3DArray)

  /** The row-major 3x3 intrinsic matrix K of sensor_msgs/CameraInfo. */
  type Matrix3 = k: seq<real> | |k| == 9 witness [0.0, 0.0, 0.0, 0.0, 0.0, 0.0, 0.0, 0.0, 0.0]

  /** sensor_msgs/CameraInfo, reduced to K and the image size. */
  datatype CameraInfo = CameraInfo(k: Matrix3, width: nat, height: nat) {
    function Fx(): real { k[0] }
    function Fy(): real { k[4] }
    function Px(): real { k[2] }
    function Py(): real { k[5] }
  }

  /** A decoded depth image: rows of raw samples (an integer image has only finite ones). */
  datatype DepthGrid = DepthGrid(rows: seq<seq<Float>>, width: nat)

  /** A rectangular depth image, as numpy holds it: every row is `width` samples long. */
  type DepthImage = g: DepthGrid
    | forall i | 0 <= i < |g.rows| :: |g.rows[i]| == g.width
    witness DepthGrid([], 0)

  /** A rotation quaternion (w, x, y, z), as the transform lookup returns it. */
  datatype Quaternion = Quaternion(w: real, x: real, y: real, z: real)

  /** The result of a successful transform lookup: (translation, rotation). */
  datatype RigidTransform = RigidTransform(translation: Vec3, rotation: Quaternion)

  type Divisor = n: int | n > 0 witness 1

  /** The node's parameters, read once at configuration. */
  datatype Config = Config(
    targetFrame: string,
    maximumDetectionThreshold: real,
    depthImageUnitsDivisor: Divisor)
}
