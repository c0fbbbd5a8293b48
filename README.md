# vision3d-gateway, modelled in Dafny

The vision3d gateway keeps the latest depth frame from a camera, the pose
of that camera in the robot's root frame and the camera's horizontal and
vertical fields of view. It answers requests on an RPC port:

- `Rect tlx tly w h [step]` scans a rectangle of pixels column by column;
- `Points u1 v1 ... un vn` walks a list of pixel pairs;
- `help` answers a fixed text;
- `quit` or an empty request makes `respond` return false with an empty
  reply;
- anything else is answered `NACK`.

For each pixel visited, the gateway unprojects the pixel into a 3-D point
of the camera frame. It uses the depth sample and focal lengths derived
from the fields of view. It then carries the point into the root frame
with the camera pose and appends its three coordinates to the reply.

The model has five modules, one per concern of the gateway:

- `Values` (values.dfy): the tagged fields of a message (integer,
  double, string, vocab) and the coercions a handler applies when it
  reads a field as an int, a double or a string. A vocab reads as its
  tag when read as a string and as its 32-bit code when read as a number,
  so a command word sent as a vocab dispatches like the same word sent as
  a string.
- `Geometry` (geometry.dfy): depth frames, the unprojection
  `GetPoint3D` with its guards, the pinhole projection that inverts it,
  and the homogeneous transform applied to each point.
- `Scan` (scan.dfy): the values a `for (x = from; x < to; x += step)`
  loop visits (`Sweep`) and the column-by-column pixel walk of a
  rectangle (`Grid`).
- `Protocol` (protocol.dfy): a snapshot of the state a request reads, and
  `Answer`, the reference definition of the reply and of the boolean
  `respond` returns. The lemmas about reply lengths, order, NACK and the
  false return are stated against `Answer`.
- `Vision3DGateway` (gateway.dfy): the `Gateway` class and its fields
  `cameraConfigured`, `fovH`, `fovV`, `depth` and `hcam`. It has the
  configuration constructor, the driver query, the ingestion tick and the
  request handler. The Rect and Points loops are methods proved against
  `Answer`.

The tangent used for the focal lengths and the axis-angle to rotation
conversion come from a maths library. They are function-valued fields of
the class, fixed at construction, and nothing is assumed about them. The
camera driver is a function from request to optional reply, together with
a flag saying whether a driver is connected. The frame and the pose list
read in a tick are optional parameters of `UpdateModule`.

A pixel that fails a check is not answered with zeros. `getPoint3D`
returns the zero point for it, and the code then transforms that point
with the camera pose like any other (main.cpp lines 202-204 and 219-221).
The triple in the reply is therefore the camera position, which is zero
only for a camera at the origin. `Protocol.DegenerateReading` states this.

## Model

| member | source | states |
|---|---|---|
| Values.AsInt | modules/vision3d-gateway/src/main.cpp:187-190 | reference definition of reading a field as an int: an int is itself, a double is truncated (`Trunc`), a vocab is its code (`VocabCode`), a string is 0; used for every Rect and Points token |
| Values.AsDouble | modules/vision3d-gateway/src/main.cpp:52-53 | reference definition of reading a field as a double: an int or a vocab is widened, a double is itself, a string is 0; used for the fields of view and the pose entries (lines 105-106, 150-157) |
| Values.AsString | modules/vision3d-gateway/src/main.cpp:172 | a string reads as its text, a vocab as the tag it encodes (at most four characters, the whole tag when it has no more), a number as the empty string |
| Values.VocabCode | modules/vision3d-gateway/src/main.cpp:45-47 | the code a vocab tag is encoded as, which is what it reads as when a number is asked of it: 0 for the empty tag, and only the first four characters count |
| Values.Trunc | modules/vision3d-gateway/src/main.cpp:187-190 | a double read as an int is truncated toward zero: the result is within 1 of the value, on the side of zero |
| Geometry.Focal | modules/vision3d-gateway/src/main.cpp:69-70 | reference definition of the focal length size / (2 tan(fov/2)); `RightAngleFocal` and `ProjectGetPoint3D` are stated about it |
| Geometry.Transform | modules/vision3d-gateway/src/main.cpp:202-204 | reference definition of Hcam·[p; 1] keeping three components (also lines 219-221); `TransformIdentity` and `TransformOrigin` are stated about it |
| Geometry.GetPoint3D | modules/vision3d-gateway/src/main.cpp:64-83 | the point is non-zero exactly when every check passes (pixel in frame, both fields of view positive, depth positive, both focal lengths positive), and a non-zero point has the depth sample as z |
| Geometry.GetPoint3DGuard | modules/vision3d-gateway/src/main.cpp:66-67 | a pixel outside the frame, or a non-positive field of view, gives the zero point whatever the depth |
| Geometry.GetPoint3DDepth | modules/vision3d-gateway/src/main.cpp:67-79 | past the first guard, a non-positive depth gives the zero point; when all checks pass the point is (d·x/f_h, d·y/f_v, d) with x, y the offsets from the optical centre |
| Geometry.ProjectGetPoint3D | modules/vision3d-gateway/src/main.cpp:69-79 | every point the unprojection produces lies in front of the camera and projects back, through the same focal lengths, onto the pixel it came from |
| Geometry.RightAngleFocal | modules/vision3d-gateway/src/main.cpp:69-70 | with a 90 degree field of view whose half-angle tangent is 1, the focal length is half the image side |
| Geometry.CentreOnAxis | modules/vision3d-gateway/src/main.cpp:74-79 | the pixel at the optical centre unprojects onto the optical axis, at its depth |
| Geometry.RightAngleEdge | modules/vision3d-gateway/src/main.cpp:69-79 | with a 90 degree horizontal field of view, the last column of a w-pixel frame lies at x = d·(w−1)/w |
| Geometry.TransformIdentity | modules/vision3d-gateway/src/main.cpp:90 | the identity pose leaves every point where it is |
| Geometry.TransformOrigin | modules/vision3d-gateway/src/main.cpp:202-204 | the zero point is carried to the translation column of the pose |
| Scan.Sweep | modules/vision3d-gateway/src/main.cpp:198 | reference definition of the values a counting loop visits; `SweepLength` and `SweepAt` are stated about it |
| Scan.SweepLength | modules/vision3d-gateway/src/main.cpp:198 | a counting loop from `from` below `to` by a positive step runs ⌈(to − from)/step⌉ times, none when from ≥ to |
| Scan.SweepAt | modules/vision3d-gateway/src/main.cpp:198 | its k-th value is from + k·step |
| Scan.ColumnShape | modules/vision3d-gateway/src/main.cpp:200 | the inner loop at column u visits (u, vs[j]) at position j, one pixel per row |
| Scan.GridLength | modules/vision3d-gateway/src/main.cpp:198-200 | the nested loops visit |us|·|vs| pixels |
| Scan.GridAt | modules/vision3d-gateway/src/main.cpp:198-200 | pixel (us[i], vs[j]) is visited at position i·|vs| + j: all rows of a column before the next column |
| Protocol.Reading | modules/vision3d-gateway/src/main.cpp:202-208 | reference definition of one pixel's triple: the transformed point, as three doubles; `IdentityPoseReading` and `DegenerateReading` are stated about it |
| Protocol.RectPixels | modules/vision3d-gateway/src/main.cpp:198-200 | reference definition of the pixels a Rect scan visits; `RectPixelsLength` and `RectPixelAt` are stated about it |
| Protocol.PointPixels | modules/vision3d-gateway/src/main.cpp:215-218 | reference definition of the pixels a Points walk visits; `PointPixelsShape` and `PointPixelsDropLast` are stated about it |
| Protocol.Answer | modules/vision3d-gateway/src/main.cpp:165-231 | reference definition of `respond`'s return value and reply, with the help text of lines 178-182 as the constant `HelpReply`; `AnswerFalse`, `AnswerNack`, `RectReplyLength`, `RectReplyOrder` and `PointsReply` are stated about it, and `Gateway.Respond` is proved equal to it |
| Protocol.Readings | modules/vision3d-gateway/src/main.cpp:198-209 | reference definition of the triples the Rect and Points loops append (also lines 215-226), one pixel after another; `ReadingsLength` and `ReadingAt` are stated about it, `Answer` is defined with it, and `ScanColumn`, `ScanRect` and `ScanPoints` are proved equal to it |
| Protocol.RectStep | modules/vision3d-gateway/src/main.cpp:191-195 | reference definition of the Rect step, the sixth token or 1; `RectDefaultStep` is stated about it |
| Protocol.Diverges | modules/vision3d-gateway/src/main.cpp:198 | reference definition of the Rect request whose column loop never ends (w > 0 and a step that does not move forward); `Gateway.Respond` and `Answer` exclude it |
| Protocol.ReadingsLength | modules/vision3d-gateway/src/main.cpp:206-208 | three doubles are appended per pixel visited |
| Protocol.ReadingAt | modules/vision3d-gateway/src/main.cpp:202-208 | the k-th triple of a reply is the transformed point of the k-th pixel visited |
| Protocol.AnswerFalse | modules/vision3d-gateway/src/main.cpp:167-175 | `respond` returns false exactly on an empty request or `quit`, and then the reply is empty |
| Protocol.AnswerNack | modules/vision3d-gateway/src/main.cpp:176-229 | the answer is exactly (true, [NACK]) if and only if the request is not `quit`, `help`, `Rect` with at least 5 tokens or `Points` with at least 3 |
| Protocol.RectPixelsLength | modules/vision3d-gateway/src/main.cpp:198-200 | a Rect scan with a positive step visits ⌈w/step⌉·⌈h/step⌉ pixels |
| Protocol.RectPixelAt | modules/vision3d-gateway/src/main.cpp:198-200 | the scan visits (tlx + i·step, tly + j·step) at position i·⌈h/step⌉ + j |
| Protocol.RectReadingAt | modules/vision3d-gateway/src/main.cpp:198-209 | the triple at position i·⌈h/step⌉ + j is the reading of pixel (tlx + i·step, tly + j·step) |
| Protocol.RectReplyLength | modules/vision3d-gateway/src/main.cpp:185-211 | a Rect request with a positive step returns true and answers exactly 3·⌈w/step⌉·⌈h/step⌉ doubles |
| Protocol.RectReplyOrder | modules/vision3d-gateway/src/main.cpp:198-209 | in a Rect reply the triples run u outer, v inner: the one for column i, row j is at position i·rows + j |
| Protocol.RectDefaultStep | modules/vision3d-gateway/src/main.cpp:191-195 | without a sixth token the step is 1 and a w×h rectangle answers 3·w·h doubles (none if w or h is not positive) |
| Protocol.RectEmpty | modules/vision3d-gateway/src/main.cpp:198-200 | a rectangle with w ≤ 0 or h ≤ 0 answers no doubles and returns true |
| Protocol.PointPixelsShape | modules/vision3d-gateway/src/main.cpp:215-218 | the pair walk from an odd token cnt visits ⌊(n − cnt)/2⌋ pairs, the k-th from tokens cnt + 2k and cnt + 2k + 1 |
| Protocol.PointsReply | modules/vision3d-gateway/src/main.cpp:212-227 | a Points request of n tokens returns true and answers 3·⌊(n−1)/2⌋ doubles, the k-th triple from tokens 2k+1 and 2k+2 |
| Protocol.PointPixelsDropLast | modules/vision3d-gateway/src/main.cpp:215 | with an even number of tokens the last one is never read |
| Protocol.PointsIgnoreTrailing | modules/vision3d-gateway/src/main.cpp:212-227 | a Points request with an unpaired last token gets the same answer as without it |
| Protocol.IdentityPoseReading | modules/vision3d-gateway/src/main.cpp:202-208 | with the identity pose each triple is the unprojected point itself |
| Protocol.PointsAnswer | modules/vision3d-gateway/src/main.cpp:212-227 | a Points request returns true and answers the readings of its pairs |
| Protocol.DegenerateReading | modules/vision3d-gateway/src/main.cpp:202-208 | a pixel failing a check is answered with the camera position, the image of the zero point |
| Protocol.RectExample | modules/vision3d-gateway/src/main.cpp:185-211 | `Rect 0 0 4 2 2` answers two points: pixel (0, 0), then pixel (2, 0) |
| Protocol.PointsExample | modules/vision3d-gateway/src/main.cpp:212-227 | `Points 1 2 3 4 5` answers the points of (1, 2) and (3, 4) and drops the 5 |
| Protocol.PointPixelsAgree | modules/vision3d-gateway/src/main.cpp:215-218 | the pairs a Points walk reads depend only on the tokens after the command word |
| Protocol.VocabCommand | modules/vision3d-gateway/src/main.cpp:172-230 | any request whose first field is a vocab of at most four characters gets exactly the answer of the same request with that word sent as a string, whatever follows it |
| Protocol.VocabCommandWords | modules/vision3d-gateway/src/main.cpp:172-185 | worked instances: the vocab `quit` returns false with an empty reply, the vocab `help` answers the help text, and a vocab `Rect 0 0 4 2 2` answers pixels (0, 0) then (2, 0) |
| Vision3DGateway.FovQuery | modules/vision3d-gateway/src/main.cpp:44-47 | reference definition of the request sent to the camera driver, the vocabs `visr get fov` |
| Vision3DGateway.AskDriver | modules/vision3d-gateway/src/main.cpp:42-48 | reference definition of the driver exchange: no answer without a connected driver, otherwise the driver's answer to `FovQuery`; `Gateway.GetCameraOptions` is stated with it |
| Vision3DGateway.CarriesFov | modules/vision3d-gateway/src/main.cpp:50 | reference definition of a driver answer of at least five fields; `Gateway.GetCameraOptions` succeeds exactly on such an answer |
| Vision3DGateway.PoseFromList | modules/vision3d-gateway/src/main.cpp:147-157 | the pose read from a list keeps the rotation built from entries 3..6 and takes its translation column from entries 0..2 |
| Vision3DGateway.PoseFromListHomogeneous | modules/vision3d-gateway/src/main.cpp:154-157 | when the rotation builder yields a homogeneous matrix, so does the pose |
| Vision3DGateway.PixelThenRest | modules/vision3d-gateway/src/main.cpp:200-209 | one pass of the inner loop appends the reading of (u, v) ahead of those of the remaining rows |
| Vision3DGateway.RectAsGrid | modules/vision3d-gateway/src/main.cpp:198 | the readings of a Rect scan are those of the grid the two loops walk, which is empty when w ≤ 0 |
| Vision3DGateway.ColumnThenRest | modules/vision3d-gateway/src/main.cpp:198-210 | one pass of the outer loop appends the readings of column u and keeps collected + still-to-come equal to the whole reply |
| Vision3DGateway.GridDone | modules/vision3d-gateway/src/main.cpp:198 | once u reaches tlx + w nothing is left to append |
| Vision3DGateway.ScanColumn | modules/vision3d-gateway/src/main.cpp:200-209 | the inner loop appends the readings of (u, tly), (u, tly + step), ... below tly + h, in that order |
| Vision3DGateway.ScanRect | modules/vision3d-gateway/src/main.cpp:198-210 | the nested loops append exactly the readings of the Rect pixels, column after column |
| Vision3DGateway.ScanPoints | modules/vision3d-gateway/src/main.cpp:215-226 | the pair loop appends exactly the readings of the token pairs (1,2), (3,4), ... |
| Vision3DGateway.Gateway.Configure | modules/vision3d-gateway/src/main.cpp:86-112 | defaults are no camera, identity pose, zero fields of view and an empty frame; a fov list of at least two values sets both fields of view and marks the camera configured |
| Vision3DGateway.Gateway.GetCameraOptions | modules/vision3d-gateway/src/main.cpp:40-61 | succeeds exactly when a connected driver replies with at least 5 fields; then fov_h and fov_v are fields 3 and 4, otherwise both are unchanged |
| Vision3DGateway.Gateway.UpdateModule | modules/vision3d-gateway/src/main.cpp:131-162 | keeps running; the camera, once configured, stays configured with unchanged fields of view; a new frame replaces the old one wholesale; a pose list of at least 7 values replaces the pose, anything else leaves it; a homogeneous pose stays homogeneous |
| Vision3DGateway.Gateway.Respond | modules/vision3d-gateway/src/main.cpp:165-231 | the reply and the boolean returned are exactly `Answer` on one snapshot of the state, for every request whose Rect scan terminates |

## Left out

- Ports, their opening, interruption and closing, the module's `main`,
  the period and the logging: I/O plumbing with no state of the gateway.
- The grasping module (modules/grasping-module): RPC plumbing to other
  services, outside the gateway.
- What the RPC framework does with `respond`'s return value: the module
  base class is not among the modelled files. The model stops at the
  boolean and the reply.
- The mutex and concurrency: the ingestion thread and the request thread
  are not modelled as running together. The lock covers `depth` only
  (main.cpp lines 140-141 against each scan). `updateModule` writes
  `Hcam` (lines 154-157) and `getCameraOptions` writes the fields of view
  (lines 52-53) without it. Each `Respond` reads one snapshot (`State()`),
  so the model assumes that the pose and the fields of view do not change
  during a scan. It does not capture a scan that sees the pose change
  midway, or a torn pose whose rotation is new and whose translation
  column is still the zero column `axis2dcm` yields (between line 154 and
  lines 155-157).
- Floating point: doubles are reals, so there is no rounding, NaN or
  infinity. `tan` and the value of pi are parameters. A depth sample of
  NaN is not modelled.
- Geometry.GetPoint3D: when a tangent is exactly 0 the model gives focal
  length 0 on that axis, and the guard then rejects the pixel. In C++ a
  tangent of +0.0 gives an infinite focal length, which passes the check,
  and only that axis's coordinate of the point becomes 0. A tangent of
  -0.0 gives minus infinity, which the check rejects as the model does.
- `axis2dcm` and the matrix/vector library: the rotation builder is an
  uninterpreted field, and the product Hcam·[p; 1] is written out as
  three dot products.
- Message encoding: the wire format of fields is not modelled. The help
  reply is modelled field by field with its exact text (`HelpReply`).
- Values.AsInt, Values.AsDouble, Values.AsString: these coercions belong
  to the message library, which is not part of this model. The model
  takes a double read as an int to truncate, and a string read as a
  number to be 0. It takes a number read as a string to be empty, so a
  request whose first field is a number is answered NACK. A vocab reads
  as its tag and as its code. Its characters are taken to be single
  bytes below 128, so signed `char` is not modelled.
- Vision3DGateway.Gateway.Respond: requires that the request is not a
  Rect with w > 0 and a non-positive step. The code never checks the
  step, and such a request loops forever in the column loop; the model
  excludes it rather than claim the code rejects it.
- 32-bit `int`: tlx + w, u += step and the token coercions do not wrap
  around; integers are unbounded.
- Vision3DGateway.Gateway.Configure: the configuration lookup (group
  "camera", key "fov", value a list) is reduced to an optional list of
  values. The same holds for the "depth" entry of the pose message in
  `UpdateModule`.
- Vision3DGateway.Gateway.GetCameraOptions: the driver exchange is a
  function from request to optional reply; a failed write is `None`.
