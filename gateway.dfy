/** The gateway module itself: the perception state it keeps, how each
    ingestion tick updates that state, and how a request is answered from
    one snapshot of it. */
module Vision3DGateway {
  import opened Values
  import opened Geometry
  import opened Protocol

  /** The request sent to the camera driver for its fields of view. */
  function FovQuery(): seq<Value>
  {
    [Vocab("visr"), Vocab("get"), Vocab("fov")]
  }

  /** The driver's answer to FovQuery: nothing when no driver is connected
      or the exchange fails. */
  function AskDriver(connected: bool, driver: seq<Value> -> Option<seq<Value>>): Option<seq<Value>>
  {
    if connected then driver(FovQuery()) else None
  }

  /** A driver answer that carries both fields of view, at fields 3 and 4. */
  predicate CarriesFov(rep: Option<seq<Value>>)
  {
    rep.Some? && |rep.value| >= 5
  }

  /** A transform whose bottom row is that of a rigid motion. */
  predicate Homogeneous(h: Mat4)
  {
    h.r3 == Row(0.0, 0.0, 0.0, 1.0)
  }

  /** Two transforms that agree everywhere but in the translation column. */
  predicate SameRotation(a: Mat4, b: Mat4)
  {
    && a.r0.(c3 := 0.0) == b.r0.(c3 := 0.0)
    && a.r1.(c3 := 0.0) == b.r1.(c3 := 0.0)
    && a.r2.(c3 := 0.0) == b.r2.(c3 := 0.0)
    && a.r3 == b.r3
  }

  /** The camera pose carried by a pose list: the rotation is built from the
      orientation at entries 3..6 and the translation is entries 0..2. */
  function PoseFromList(axis2dcm: (real, real, real, real) -> Mat4, pose: seq<Value>): (h: Mat4)
    requires |pose| >= 7
    ensures SameRotation(h, axis2dcm(AsDouble(pose[3]), AsDouble(pose[4]), AsDouble(pose[5]), AsDouble(pose[6])))
    ensures Translation(h) == Vec3(AsDouble(pose[0]), AsDouble(pose[1]), AsDouble(pose[2]))
  {
    var rot := axis2dcm(AsDouble(pose[3]), AsDouble(pose[4]), AsDouble(pose[5]), AsDouble(pose[6]));
    rot.(r0 := rot.r0.(c3 := AsDouble(pose[0])),
         r1 := rot.r1.(c3 := AsDouble(pose[1])),
         r2 := rot.r2.(c3 := AsDouble(pose[2])))
  }

  /** When the rotation builder yields homogeneous matrices, so does every
      pose read from a list. */
  lemma PoseFromListHomogeneous(axis2dcm: (real, real, real, real) -> Mat4, pose: seq<Value>)
    requires |pose| >= 7
    requires Homogeneous(axis2dcm(AsDouble(pose[3]), AsDouble(pose[4]), AsDouble(pose[5]), AsDouble(pose[6])))
    ensures Homogeneous(PoseFromList(axis2dcm, pose))
  {
  }

  /** The readings of a column are those of its first pixel, then the rest. */
  lemma PixelThenRest(tan: real -> real, snap: Snapshot, u: int, v: int, to: int, step: int)
    requires step > 0 && v < to
    ensures Readings(tan, snap, Scan.Column(u, Scan.Sweep(v, to, step)))
         == Reading(tan, snap, (u, v)) + Readings(tan, snap, Scan.Column(u, Scan.Sweep(v + step, to, step)))
  {
    var rest := Scan.Sweep(v + step, to, step);
    assert Scan.Sweep(v, to, step) == [v] + rest;
    assert ([v] + rest)[1..] == rest;
    assert Scan.Column(u, [v] + rest) == [(u, v)] + Scan.Column(u, rest);
    assert ([(u, v)] + Scan.Column(u, rest))[1..] == Scan.Column(u, rest);
  }

  /** The rows every column of a Rect scan visits; none when there is no
      column at all. */
  function Rows(tly: int, h: int, w: int, step: int): seq<int>
    requires w > 0 ==> step > 0
  {
    if w > 0 then Scan.Sweep(tly, tly + h, step) else []
  }

  /** The readings of a Rect scan as the grid its two loops walk. */
  lemma RectAsGrid(tan: real -> real, snap: Snapshot, tlx: int, tly: int, w: int, h: int, step: int)
    requires w > 0 ==> step > 0
    ensures Readings(tan, snap, Scan.Grid(Scan.Sweep(tlx, tlx + w, step), Rows(tly, h, w, step)))
         == Readings(tan, snap, RectPixels(tlx, tly, w, h, step))
  {
    if w <= 0 {
      assert Scan.Sweep(tlx, tlx + w, step) == [];
    }
  }

  /** Appending the readings of column u keeps the outer scan's account:
      what is collected plus what is still to come is the whole reply. */
  lemma ColumnThenRest(tan: real -> real, snap: Snapshot, tlx: int, tly: int, w: int, h: int, step: int, u: int,
                       reply: seq<Value>, column: seq<Value>)
    requires tlx <= u < tlx + w && step > 0
    requires reply + Readings(tan, snap, Scan.Grid(Scan.Sweep(u, tlx + w, step), Rows(tly, h, w, step)))
          == Readings(tan, snap, RectPixels(tlx, tly, w, h, step))
    requires column == Readings(tan, snap, Scan.Column(u, Scan.Sweep(tly, tly + h, step)))
    ensures (reply + column) + Readings(tan, snap, Scan.Grid(Scan.Sweep(u + step, tlx + w, step), Rows(tly, h, w, step)))
         == Readings(tan, snap, RectPixels(tlx, tly, w, h, step))
  {
    var vs := Rows(tly, h, w, step);
    assert vs == Scan.Sweep(tly, tly + h, step);
    var rest := Scan.Sweep(u + step, tlx + w, step);
    assert Scan.Sweep(u, tlx + w, step) == [u] + rest;
    assert ([u] + rest)[1..] == rest;
    var head, tail := Readings(tan, snap, Scan.Column(u, vs)), Readings(tan, snap, Scan.Grid(rest, vs));
    assert Readings(tan, snap, Scan.Grid(Scan.Sweep(u, tlx + w, step), vs)) == head + tail by {
      ReadingsAppend(tan, snap, Scan.Column(u, vs), Scan.Grid(rest, vs));
    }
    assert reply + (head + tail) == (reply + head) + tail;
  }

  /** Once u has reached the bound no column is left. */
  lemma GridDone(tan: real -> real, snap: Snapshot, u: int, to: int, step: int, vs: seq<int>, reply: seq<Value>)
    requires u >= to
    ensures reply + Readings(tan, snap, Scan.Grid(Scan.Sweep(u, to, step), vs)) == reply
  {
    assert reply + [] == reply;
  }

  /** The inner loop of a Rect request: v from tly below tly + h by step at
      column u, appending the three coordinates of each output-frame point. */
  method ScanColumn(tan: real -> real, snap: Snapshot, u: int, tly: int, h: int, step: int)
    returns (column: seq<Value>)
    requires step > 0
    ensures column == Readings(tan, snap, Scan.Column(u, Scan.Sweep(tly, tly + h, step)))
  {
    column := [];
    var v := tly;
    while v < tly + h
      invariant tly <= v
      invariant column + Readings(tan, snap, Scan.Column(u, Scan.Sweep(v, tly + h, step)))
             == Readings(tan, snap, Scan.Column(u, Scan.Sweep(tly, tly + h, step)))
      decreases tly + h - v
    {
      var p := Transform(snap.hcam, GetPoint3D(snap.depth, snap.fovH, snap.fovV, tan, u, v));
      PixelThenRest(tan, snap, u, v, tly + h, step);
      column := column + [Double(p.x), Double(p.y), Double(p.z)];
      v := v + step;
    }
  }

  /** The outer loop of a Rect request: u from tlx below tlx + w by step,
      each column scanned in turn over one snapshot. */
  method ScanRect(tan: real -> real, snap: Snapshot, tlx: int, tly: int, w: int, h: int, step: int)
    returns (reply: seq<Value>)
    requires w > 0 ==> step > 0
    ensures reply == Readings(tan, snap, RectPixels(tlx, tly, w, h, step))
  {
    reply := [];
    RectAsGrid(tan, snap, tlx, tly, w, h, step);
    var u := tlx;
    while u < tlx + w
      invariant tlx <= u
      invariant reply + Readings(tan, snap, Scan.Grid(Scan.Sweep(u, tlx + w, step), Rows(tly, h, w, step)))
             == Readings(tan, snap, RectPixels(tlx, tly, w, h, step))
      decreases tlx + w - u
    {
      var column := ScanColumn(tan, snap, u, tly, h, step);
      ColumnThenRest(tan, snap, tlx, tly, w, h, step, u, reply, column);
      reply := reply + column;
      u := u + step;
    }
    GridDone(tan, snap, u, tlx + w, step, Rows(tly, h, w, step), reply);
  }

  /** The pair walk of a Points request over one snapshot: tokens cnt and
      cnt + 1 for cnt = 1, 3, ... while cnt + 1 is a token. */
  method ScanPoints(tan: real -> real, snap: Snapshot, command: seq<Value>) returns (reply: seq<Value>)
    ensures reply == Readings(tan, snap, PointPixels(command, 1))
  {
    reply := [];
    var cnt := 1;
    while cnt < |command| - 1
      invariant 1 <= cnt
      invariant reply + Readings(tan, snap, PointPixels(command, cnt))
             == Readings(tan, snap, PointPixels(command, 1))
      decreases |command| - cnt
    {
      var u := AsInt(command[cnt]);
      var v := AsInt(command[cnt + 1]);
      var p := Transform(snap.hcam, GetPoint3D(snap.depth, snap.fovH, snap.fovV, tan, u, v));
      reply := reply + [Double(p.x), Double(p.y), Double(p.z)];
      cnt := cnt + 2;
    }
  }

  class Gateway {
    /** The tangent used for the focal lengths and the axis-angle to
        rotation-matrix conversion; both come from the maths library. */
    const tan: real -> real
    const axis2dcm: (real, real, real, real) -> Mat4

    var cameraConfigured: bool
    var fovH: real
    var fovV: real
    var depth: Frame
    var hcam: Mat4

    /** What a query reads under the lock. */
    function State(): Snapshot
      reads this
    {
      Snapshot(depth, hcam, fovH, fovV)
    }

    /** Configuration: no camera, identity pose and zero fields of view by
        default; a "fov" list of at least two values in the camera group
        of the configuration sets both fields of view and marks the camera
        configured. `fovSetting` is that list, when the group has one. */
    constructor Configure(tan: real -> real, axis2dcm: (real, real, real, real) -> Mat4,
                          fovSetting: Option<seq<Value>>)
      ensures this.tan == tan && this.axis2dcm == axis2dcm
      ensures depth == EmptyFrame && hcam == Identity
      ensures cameraConfigured <==> fovSetting.Some? && |fovSetting.value| >= 2
      ensures cameraConfigured ==>
        fovH == AsDouble(fovSetting.value[0]) && fovV == AsDouble(fovSetting.value[1])
      ensures !cameraConfigured ==> fovH == 0.0 && fovV == 0.0
    {
      this.tan := tan;
      this.axis2dcm := axis2dcm;
      depth := EmptyFrame;
      cameraConfigured := false;
      hcam := Identity;
      fovH := 0.0;
      fovV := 0.0;
      new;
      if fovSetting.Some? {
        var fov := fovSetting.value;
        if |fov| >= 2 {
          cameraConfigured := true;
          fovH := AsDouble(fov[0]);
          fovV := AsDouble(fov[1]);
        }
      }
    }

    /** Asks the camera driver for its fields of view. Succeeds, and sets
        both, only on a reply of at least 5 fields; otherwise nothing
        changes. */
    method GetCameraOptions(connected: bool, driver: seq<Value> -> Option<seq<Value>>) returns (ok: bool)
      modifies this`fovH, this`fovV
      ensures ok == CarriesFov(AskDriver(connected, driver))
      ensures ok ==> (fovH == AsDouble(AskDriver(connected, driver).value[3])
                   && fovV == AsDouble(AskDriver(connected, driver).value[4]))
      ensures !ok ==> fovH == old(fovH) && fovV == old(fovV)
    {
      ok := false;
      if connected {
        var rep := driver(FovQuery());
        if rep.Some? {
          if |rep.value| >= 5 {
            fovH := AsDouble(rep.value[3]);
            fovV := AsDouble(rep.value[4]);
            ok := true;
          }
        }
      }
    }

    /** One ingestion tick. While the camera is not configured the driver
        is asked again; a configured camera is never unconfigured and its
        fields of view never change. A new frame replaces the stored one
        wholesale. A pose list of at least 7 values replaces the pose;
        anything else leaves it as it was. */
    method UpdateModule(connected: bool, driver: seq<Value> -> Option<seq<Value>>,
                        frame: Option<Frame>, pose: Option<seq<Value>>) returns (keepRunning: bool)
      modifies this
      ensures keepRunning
      ensures cameraConfigured == (old(cameraConfigured) || CarriesFov(AskDriver(connected, driver)))
      ensures old(cameraConfigured) || !cameraConfigured ==> fovH == old(fovH) && fovV == old(fovV)
      ensures !old(cameraConfigured) && cameraConfigured ==>
        fovH == AsDouble(AskDriver(connected, driver).value[3])
        && fovV == AsDouble(AskDriver(connected, driver).value[4])
      ensures depth == if frame.Some? then frame.value else old(depth)
      ensures hcam == if pose.Some? && |pose.value| >= 7 then PoseFromList(axis2dcm, pose.value) else old(hcam)
      ensures (forall a, b, c, d :: Homogeneous(axis2dcm(a, b, c, d))) && old(Homogeneous(hcam)) ==> Homogeneous(hcam)
    {
      if !cameraConfigured {
        cameraConfigured := GetCameraOptions(connected, driver);
      }
      if frame.Some? {
        depth := frame.value;
      }
      if pose.Some? {
        var list := pose.value;
        if |list| >= 7 {
          hcam := PoseFromList(axis2dcm, list);
        }
      }
      keepRunning := true;
    }

    /** Answers one request from one snapshot of the state. The reply starts
        empty; Rect and Points append three doubles per visited pixel. A
        Rect whose column loop would never end is excluded. */
    method Respond(command: seq<Value>) returns (result: bool, reply: seq<Value>)
      requires !Diverges(command)
      ensures Response(result, reply) == Answer(tan, State(), command)
    {
      reply := [];
      if |command| == 0 {
        return false, reply;
      }
      var cmd := AsString(command[0]);
      if cmd == "quit" {
        return false, reply;
      } else if cmd == "help" {
        reply := HelpReply;
      } else if cmd == "Rect" && |command| >= 5 {
        var tlx, tly, w, h := AsInt(command[1]), AsInt(command[2]), AsInt(command[3]), AsInt(command[4]);
        var step := 1;
        if |command| >= 6 {
          step := AsInt(command[5]);
        }
        assert step == RectStep(command);
        reply := ScanRect(tan, State(), tlx, tly, w, h, step);
      } else if cmd == "Points" && |command| >= 3 {
        reply := ScanPoints(tan, State(), command);
      } else {
        reply := Nack;
      }
      result := true;
    }
  }
}
