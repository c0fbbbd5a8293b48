/** The camera geometry of the gateway: depth frames, the unprojection of a
    pixel into a point of the camera frame, and the homogeneous transform that
    carries that point into the output frame. */
module Geometry {

  datatype Vec3 = Vec3(x: real, y: real, z: real)

  /** The all-zero point that stands for "no information". */
  const Origin := Vec3(0.0, 0.0, 0.0)

  /** A 4x4 matrix, row by row. */
  datatype Row = Row(c0: real, c1: real, c2: real, c3: real)
  datatype Mat4 = Mat4(r0: Row, r1: Row, r2: Row, r3: Row)

  const Identity := Mat4(Row(1.0, 0.0, 0.0, 0.0), Row(0.0, 1.0, 0.0, 0.0),
                         Row(0.0, 0.0, 1.0, 0.0), Row(0.0, 0.0, 0.0, 1.0))

  /** The value of the pi constant the unprojection uses. */
  const Pi: real := 3.141592653589793

  function Dot(r: Row, p: Vec3): real
  {
    r.c0 * p.x + r.c1 * p.y + r.c2 * p.z + r.c3 * 1.0
  }

  /** Appends a homogeneous 1 to p, multiplies by h and keeps the first three
      components; the bottom row of h never matters. */
  function Transform(h: Mat4, p: Vec3): Vec3
  {
    Vec3(Dot(h.r0, p), Dot(h.r1, p), Dot(h.r2, p))
  }

  /** The translation column of a homogeneous transform. */
  function Translation(h: Mat4): Vec3
  {
    Vec3(h.r0.c3, h.r1.c3, h.r2.c3)
  }

  lemma TransformIdentity(p: Vec3)
    ensures Transform(Identity, p) == p
  {
  }

  /** The "no information" point lands on the camera position. */
  lemma TransformOrigin(h: Mat4)
    ensures Transform(h, Origin) == Translation(h)
  {
  }

  /** A depth image: `rows[v][u]` is the sample at column u and row v. */
  datatype Image = Image(width: nat, height: nat, rows: seq<seq<real>>)

  type Frame = f: Image | |f.rows| == f.height && forall v :: 0 <= v < |f.rows| ==> |f.rows[v]| == f.width
    witness Image(0, 0, [])

  /** The frame held before any image has been read: it has no pixels. */
  const EmptyFrame: Frame := Image(0, 0, [])

  predicate InFrame(f: Frame, u: int, v: int)
  {
    0 <= u < f.width && 0 <= v < f.height
  }

  function Sample(f: Frame, u: int, v: int): real
    requires InFrame(f, u, v)
  {
    f.rows[v][u]
  }

  /** The focal length, in pixels, of an image side of `size` pixels seen
      under a field of view of `fovDeg` degrees: size / (2 tan(fov/2)).
      A tangent of exactly 0 gives 0, which the unprojection rejects. */
  function Focal(tan: real -> real, size: int, fovDeg: real): real
  {
    var t := tan(fovDeg * (Pi / 180.0) / 2.0);
    if t == 0.0 then 0.0 else size as real / (2.0 * t)
  }

  /** Whether every check of the unprojection passes for pixel (u, v). */
  predicate Unprojectable(f: Frame, fovH: real, fovV: real, tan: real -> real, u: int, v: int)
  {
    && InFrame(f, u, v) && fovH > 0.0 && fovV > 0.0
    && Sample(f, u, v) > 0.0
    && Focal(tan, f.width, fovH) > 0.0 && Focal(tan, f.height, fovV) > 0.0
  }

  /** Offsets of a pixel from the optical centre of the frame. */
  function OffsetU(f: Frame, u: int): real { u as real - 0.5 * (f.width as real - 1.0) }
  function OffsetV(f: Frame, v: int): real { v as real - 0.5 * (f.height as real - 1.0) }

  /** The camera-frame point seen at pixel (u, v), or Origin when a check
      fails: the pixel lies outside the frame, a field of view is not
      positive, the depth sample is not positive, or a focal length is not
      positive. */
  function GetPoint3D(f: Frame, fovH: real, fovV: real, tan: real -> real, u: int, v: int): (p: Vec3)
    ensures p != Origin <==> Unprojectable(f, fovH, fovV, tan, u, v)
    ensures p != Origin ==> p.z == Sample(f, u, v)
  {
    if InFrame(f, u, v) && fovH > 0.0 && fovV > 0.0 then
      var fh := Focal(tan, f.width, fovH);
      var fv := Focal(tan, f.height, fovV);
      var d := Sample(f, u, v);
      if d > 0.0 && fh > 0.0 && fv > 0.0 then
        Vec3(d * (OffsetU(f, u) / fh), d * (OffsetV(f, v) / fv), d)
      else
        Origin
    else
      Origin
  }

  /** Pinhole projection of a camera-frame point with focal lengths fh, fv
      onto a frame of the given size: the inverse of the unprojection. */
  function Project(p: Vec3, fh: real, fv: real, width: nat, height: nat): (real, real)
    requires p.z != 0.0
  {
    (fh * p.x / p.z + 0.5 * (width as real - 1.0), fv * p.y / p.z + 0.5 * (height as real - 1.0))
  }

  lemma ScaleCancels(d: real, a: real, f: real)
    requires d != 0.0 && f != 0.0
    ensures f * (d * (a / f)) / d == a
  {
    assert d * (a / f) == (d * a) / f;
    assert f * ((d * a) / f) == d * a;
  }

  /** Every point the unprojection produces projects back onto its pixel. */
  lemma ProjectGetPoint3D(f: Frame, fovH: real, fovV: real, tan: real -> real, u: int, v: int)
    requires Unprojectable(f, fovH, fovV, tan, u, v)
    ensures GetPoint3D(f, fovH, fovV, tan, u, v).z > 0.0
    ensures Project(GetPoint3D(f, fovH, fovV, tan, u, v),
                    Focal(tan, f.width, fovH), Focal(tan, f.height, fovV),
                    f.width, f.height) == (u as real, v as real)
  {
    var d := Sample(f, u, v);
    var fh, fv := Focal(tan, f.width, fovH), Focal(tan, f.height, fovV);
    var p := GetPoint3D(f, fovH, fovV, tan, u, v);
    assert p == Vec3(d * (OffsetU(f, u) / fh), d * (OffsetV(f, v) / fv), d);
    ScaleCancels(d, OffsetU(f, u), fh);
    ScaleCancels(d, OffsetV(f, v), fv);
    assert fh * p.x / p.z == OffsetU(f, u);
    assert fv * p.y / p.z == OffsetV(f, v);
    assert Project(p, fh, fv, f.width, f.height).0 == u as real;
    assert Project(p, fh, fv, f.width, f.height).1 == v as real;
  }

  /** Outside the frame, or while a field of view is not positive, the
      result is Origin whatever the depth. */
  lemma GetPoint3DGuard(f: Frame, fovH: real, fovV: real, tan: real -> real, u: int, v: int)
    requires !InFrame(f, u, v) || fovH <= 0.0 || fovV <= 0.0
    ensures GetPoint3D(f, fovH, fovV, tan, u, v) == Origin
  {
  }

  /** Past the first guard: a non-positive depth gives Origin; a positive one
      gives the scaled offsets and the depth itself as z. */
  lemma GetPoint3DDepth(f: Frame, fovH: real, fovV: real, tan: real -> real, u: int, v: int)
    requires InFrame(f, u, v) && fovH > 0.0 && fovV > 0.0
    ensures Sample(f, u, v) <= 0.0 ==> GetPoint3D(f, fovH, fovV, tan, u, v) == Origin
    ensures Unprojectable(f, fovH, fovV, tan, u, v) ==>
      var d := Sample(f, u, v);
      GetPoint3D(f, fovH, fovV, tan, u, v)
        == Vec3(d * OffsetU(f, u) / Focal(tan, f.width, fovH),
                d * OffsetV(f, v) / Focal(tan, f.height, fovV), d)
  {
  }

  /** With a field of view whose half-angle tangent is 1 (90 degrees), the
      focal length is half the image side. */
  lemma RightAngleFocal(tan: real -> real, size: int)
    requires tan(90.0 * (Pi / 180.0) / 2.0) == 1.0
    ensures Focal(tan, size, 90.0) == size as real / 2.0
  {
  }

  /** The pixel at the optical centre unprojects onto the optical axis. */
  lemma CentreOnAxis(f: Frame, fovH: real, fovV: real, tan: real -> real, u: int, v: int)
    requires 2 * u == f.width - 1 && 2 * v == f.height - 1
    requires Unprojectable(f, fovH, fovV, tan, u, v)
    ensures GetPoint3D(f, fovH, fovV, tan, u, v) == Vec3(0.0, 0.0, Sample(f, u, v))
  {
  }

  /** With a 90 degree horizontal field of view, the last column of a frame
      w pixels wide lies at x = d (w - 1) / w. */
  lemma RightAngleEdge(f: Frame, fovV: real, tan: real -> real, v: int)
    requires tan(90.0 * (Pi / 180.0) / 2.0) == 1.0
    requires Unprojectable(f, 90.0, fovV, tan, f.width - 1, v)
    ensures GetPoint3D(f, 90.0, fovV, tan, f.width - 1, v).x
         == Sample(f, f.width - 1, v) * (f.width as real - 1.0) / f.width as real
  {
    var w := f.width as real;
    var d := Sample(f, f.width - 1, v);
    RightAngleFocal(tan, f.width);
    assert OffsetU(f, f.width - 1) == 0.5 * (w - 1.0);
    assert 0.5 * (w - 1.0) / (w / 2.0) == (w - 1.0) / w;
  }
}
