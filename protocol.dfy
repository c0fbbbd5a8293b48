/** The request/reply protocol of the gateway: what each command answers,
    given one snapshot of the perception state. */
module Protocol {
  import opened Values
  import opened Geometry
  import opened Scan

  /** What a query reads in one go: the depth frame, the camera pose and the
      fields of view. */
  datatype Snapshot = Snapshot(depth: Frame, hcam: Mat4, fovH: real, fovV: real)

  /** The boolean respond returns (false for an empty request or quit) and
      the reply it fills in. */
  datatype Response = Response(result: bool, reply: seq<Value>)

  const Nack: seq<Value> := [Str("NACK")]

  /** The fixed text answered to help. */
  const HelpReply: seq<Value> := [
    Vocab("many"),
    Str("Available commands are:"),
    Str("- [Rect tlx tly w h step]: Given the pixels in the rectangle defined by {(tlx,tly) (tlx+w,tly+h)} (parsed by columns), the response contains the corresponding 3D points in the ROOT frame. The optional parameter step defines the sampling quantum; by default step=1."),
    Str("- [Points u_1 v_1 ... u_n v_n]: Given a list of n pixels, the response contains the corresponding 3D points in the ROOT frame."),
    Str("For more details on the commands, check the module's documentation")
  ]

  /** The output-frame point of one pixel, as three doubles. */
  function Reading(tan: real -> real, s: Snapshot, px: (int, int)): seq<Value>
  {
    var q := Transform(s.hcam, GetPoint3D(s.depth, s.fovH, s.fovV, tan, px.0, px.1));
    [Double(q.x), Double(q.y), Double(q.z)]
  }

  /** The readings of a list of pixels, one triple after another. */
  function Readings(tan: real -> real, s: Snapshot, pxs: seq<(int, int)>): seq<Value>
  {
    if pxs == [] then [] else Reading(tan, s, pxs[0]) + Readings(tan, s, pxs[1..])
  }

  lemma {:induction false} ReadingsAppend(tan: real -> real, s: Snapshot, a: seq<(int, int)>, b: seq<(int, int)>)
    ensures Readings(tan, s, a + b) == Readings(tan, s, a) + Readings(tan, s, b)
  {
    if a != [] {
      ReadingsAppend(tan, s, a[1..], b);
      assert (a + b)[0] == a[0];
      assert (a + b)[1..] == a[1..] + b;
      calc {
        Readings(tan, s, a + b);
        Reading(tan, s, a[0]) + Readings(tan, s, a[1..] + b);
        Reading(tan, s, a[0]) + (Readings(tan, s, a[1..]) + Readings(tan, s, b));
        (Reading(tan, s, a[0]) + Readings(tan, s, a[1..])) + Readings(tan, s, b);
      }
    } else {
      assert a + b == b;
    }
  }

  /** Three doubles per pixel. */
  lemma {:induction false} ReadingsLength(tan: real -> real, s: Snapshot, pxs: seq<(int, int)>)
    ensures |Readings(tan, s, pxs)| == 3 * |pxs|
  {
    if pxs != [] {
      ReadingsLength(tan, s, pxs[1..]);
    }
  }

  /** The k-th triple of a reply is t. */
  predicate TripleIs(reply: seq<Value>, k: int, t: seq<Value>)
  {
    0 <= k && 3 * k + 3 <= |reply| && reply[3 * k .. 3 * k + 3] == t
  }

  /** Prefixing one triple moves every later triple up by one place. */
  lemma TripleShift(t: seq<Value>, rest: seq<Value>, k: int, u: seq<Value>)
    requires |t| == 3 && TripleIs(rest, k, u)
    ensures TripleIs(t + rest, k + 1, u)
  {
    assert (t + rest)[3 * (k + 1) .. 3 * (k + 1) + 3] == rest[3 * k .. 3 * k + 3];
  }

  /** The k-th triple is the reading of the k-th pixel. */
  lemma {:induction false} ReadingAt(tan: real -> real, s: Snapshot, pxs: seq<(int, int)>, k: int)
    requires 0 <= k < |pxs|
    ensures TripleIs(Readings(tan, s, pxs), k, Reading(tan, s, pxs[k]))
  {
    var head, tail := Reading(tan, s, pxs[0]), Readings(tan, s, pxs[1..]);
    assert Readings(tan, s, pxs) == head + tail;
    ReadingsLength(tan, s, pxs[1..]);
    if k > 0 {
      ReadingAt(tan, s, pxs[1..], k - 1);
      TripleShift(head, tail, k - 1, Reading(tan, s, pxs[k]));
    } else {
      assert (head + tail)[0 .. 3] == head;
    }
  }

  predicate IsRect(command: seq<Value>)
  {
    |command| >= 5 && AsString(command[0]) == "Rect"
  }

  predicate IsPoints(command: seq<Value>)
  {
    |command| >= 3 && AsString(command[0]) == "Points"
  }

  /** The sampling step of a Rect request: the sixth token, 1 by default. */
  function RectStep(command: seq<Value>): int
    requires |command| >= 5
  {
    if |command| >= 6 then AsInt(command[5]) else 1
  }

  /** A Rect request whose column loop never ends: a positive width scanned
      with a step that does not move forward. Nothing checks the step. */
  predicate Diverges(command: seq<Value>)
  {
    IsRect(command) && AsInt(command[3]) > 0 && RectStep(command) <= 0
  }

  /** The pixels a Rect scan visits: columns tlx, tlx + step, ... below
      tlx + w, and in each the rows tly, tly + step, ... below tly + h. */
  function RectPixels(tlx: int, tly: int, w: int, h: int, step: int): seq<(int, int)>
    requires w > 0 ==> step > 0
  {
    if w <= 0 then [] else Grid(Sweep(tlx, tlx + w, step), Sweep(tly, tly + h, step))
  }

  /** The pixels of a Points request read from token cnt on: consecutive
      pairs, a last unpaired token left out. */
  function PointPixels(command: seq<Value>, cnt: nat): seq<(int, int)>
    decreases |command| - cnt
  {
    if cnt + 1 >= |command| then []
    else [(AsInt(command[cnt]), AsInt(command[cnt + 1]))] + PointPixels(command, cnt + 2)
  }

  /** The answer to a request. An empty request or quit returns false;
      help answers a fixed text; Rect (at least 5 tokens) and Points (at
      least 3) answer one triple per pixel; anything else answers NACK. */
  function Answer(tan: real -> real, s: Snapshot, command: seq<Value>): Response
    requires !Diverges(command)
  {
    if |command| == 0 then Response(false, [])
    else
      var cmd := AsString(command[0]);
      if cmd == "quit" then Response(false, [])
      else if cmd == "help" then Response(true, HelpReply)
      else if cmd == "Rect" && |command| >= 5 then
        var tlx, tly, w, h := AsInt(command[1]), AsInt(command[2]), AsInt(command[3]), AsInt(command[4]);
        Response(true, Readings(tan, s, RectPixels(tlx, tly, w, h, RectStep(command))))
      else if cmd == "Points" && |command| >= 3 then
        Response(true, Readings(tan, s, PointPixels(command, 1)))
      else Response(true, Nack)
  }

  /** A request the dispatcher does not understand. */
  predicate Unrecognised(command: seq<Value>)
  {
    && |command| > 0
    && var cmd := AsString(command[0]);
    && cmd != "quit" && cmd != "help"
    && !(cmd == "Rect" && |command| >= 5)
    && !(cmd == "Points" && |command| >= 3)
  }

  /** respond returns false exactly on an empty request or quit, with an
      empty reply. */
  lemma AnswerFalse(tan: real -> real, s: Snapshot, command: seq<Value>)
    requires !Diverges(command)
    ensures !Answer(tan, s, command).result <==> |command| == 0 || AsString(command[0]) == "quit"
    ensures !Answer(tan, s, command).result ==> Answer(tan, s, command).reply == []
  {
  }

  /** The reply is exactly NACK if and only if the request is not understood,
      a Rect with fewer than 5 tokens and a Points with fewer than 3 included. */
  lemma AnswerNack(tan: real -> real, s: Snapshot, command: seq<Value>)
    requires !Diverges(command)
    ensures Answer(tan, s, command) == Response(true, Nack) <==> Unrecognised(command)
  {
    if IsRect(command) {
      var step := RectStep(command);
      ReadingsLength(tan, s, RectPixels(AsInt(command[1]), AsInt(command[2]), AsInt(command[3]), AsInt(command[4]), step));
    } else if IsPoints(command) {
      ReadingsLength(tan, s, PointPixels(command, 1));
    } else if |command| > 0 && AsString(command[0]) == "help" {
      assert HelpReply[0] != Nack[0];
    }
  }

  /** The pixel visited i columns and j rows into a Rect scan. */
  function RectCell(command: seq<Value>, i: int, j: int): (int, int)
    requires |command| >= 5
  {
    var step := RectStep(command);
    (AsInt(command[1]) + i * step, AsInt(command[2]) + j * step)
  }

  /** A Rect scan with a positive step visits ceil(w / step) columns of
      ceil(h / step) rows. */
  lemma RectPixelsLength(tlx: int, tly: int, w: int, h: int, step: int)
    requires step > 0
    ensures |RectPixels(tlx, tly, w, h, step)| == CeilDiv(w, step) * CeilDiv(h, step)
  {
    if w > 0 {
      SweepLength(tlx, tlx + w, step);
      SweepLength(tly, tly + h, step);
      GridLength(Sweep(tlx, tlx + w, step), Sweep(tly, tly + h, step));
    }
  }

  /** The scan visits pixel (tlx + i * step, tly + j * step) at position
      i * rows + j: each column's rows in turn, then the next column. */
  lemma RectPixelAt(tlx: int, tly: int, w: int, h: int, step: int, i: int, j: int)
    requires step > 0 && 0 <= i < CeilDiv(w, step) && 0 <= j < CeilDiv(h, step)
    ensures i * CeilDiv(h, step) + j < |RectPixels(tlx, tly, w, h, step)|
    ensures RectPixels(tlx, tly, w, h, step)[i * CeilDiv(h, step) + j] == (tlx + i * step, tly + j * step)
  {
    var us, vs := Sweep(tlx, tlx + w, step), Sweep(tly, tly + h, step);
    SweepLength(tlx, tlx + w, step);
    SweepLength(tly, tly + h, step);
    SweepAt(tlx, tlx + w, step, i);
    SweepAt(tly, tly + h, step, j);
    GridAt(us, vs, i, j);
  }

  /** The triple of the pixel visited i columns and j rows into a scan. */
  lemma RectReadingAt(tan: real -> real, s: Snapshot, tlx: int, tly: int, w: int, h: int, step: int, i: int, j: int)
    requires step > 0 && 0 <= i < CeilDiv(w, step) && 0 <= j < CeilDiv(h, step)
    ensures TripleIs(Readings(tan, s, RectPixels(tlx, tly, w, h, step)), i * CeilDiv(h, step) + j,
                     Reading(tan, s, (tlx + i * step, tly + j * step)))
  {
    var pxs := RectPixels(tlx, tly, w, h, step);
    var k := i * CeilDiv(h, step) + j;
    RectPixelAt(tlx, tly, w, h, step, i, j);
    assert 0 <= k < |pxs| && pxs[k] == (tlx + i * step, tly + j * step);
    ReadingAt(tan, s, pxs, k);
  }

  /** A Rect request with a positive step answers exactly
      3 * ceil(w / step) * ceil(h / step) doubles. */
  lemma RectReplyLength(tan: real -> real, s: Snapshot, command: seq<Value>)
    requires IsRect(command) && RectStep(command) > 0
    ensures var step := RectStep(command);
      var r := Answer(tan, s, command);
      r.result && |r.reply| == 3 * (CeilDiv(AsInt(command[3]), step) * CeilDiv(AsInt(command[4]), step))
  {
    var tlx, tly, w, h, step := AsInt(command[1]), AsInt(command[2]), AsInt(command[3]), AsInt(command[4]), RectStep(command);
    RectPixelsLength(tlx, tly, w, h, step);
    ReadingsLength(tan, s, RectPixels(tlx, tly, w, h, step));
  }

  /** A Rect reply runs u outer and v inner: the triple of pixel
      (tlx + i * step, tly + j * step) comes at position i * rows + j. */
  lemma RectReplyOrder(tan: real -> real, s: Snapshot, command: seq<Value>)
    requires IsRect(command) && RectStep(command) > 0
    ensures var rows := CeilDiv(AsInt(command[4]), RectStep(command));
      forall i, j :: 0 <= i < CeilDiv(AsInt(command[3]), RectStep(command)) && 0 <= j < rows ==>
        TripleIs(Answer(tan, s, command).reply, i * rows + j, Reading(tan, s, RectCell(command, i, j)))
  {
    var tlx, tly, w, h, step := AsInt(command[1]), AsInt(command[2]), AsInt(command[3]), AsInt(command[4]), RectStep(command);
    var rows := CeilDiv(h, step);
    var reply := Answer(tan, s, command).reply;
    assert reply == Readings(tan, s, RectPixels(tlx, tly, w, h, step));
    forall i, j | 0 <= i < CeilDiv(w, step) && 0 <= j < rows
      ensures TripleIs(reply, i * rows + j, Reading(tan, s, RectCell(command, i, j)))
    {
      RectReadingAt(tan, s, tlx, tly, w, h, step, i, j);
      assert RectCell(command, i, j) == (tlx + i * step, tly + j * step);
    }
  }

  /** Without a sixth token the step is 1 and every pixel of a w x h
      rectangle is answered. */
  lemma RectDefaultStep(tan: real -> real, s: Snapshot, command: seq<Value>)
    requires IsRect(command) && |command| == 5
    ensures var w, h := AsInt(command[3]), AsInt(command[4]);
      |Answer(tan, s, command).reply| == 3 * (if w > 0 then w else 0) * (if h > 0 then h else 0)
  {
    RectReplyLength(tan, s, command);
  }

  /** An empty rectangle answers no doubles. */
  lemma RectEmpty(tan: real -> real, s: Snapshot, command: seq<Value>)
    requires IsRect(command) && !Diverges(command)
    requires AsInt(command[3]) <= 0 || AsInt(command[4]) <= 0
    ensures Answer(tan, s, command) == Response(true, [])
  {
    var w, h, step := AsInt(command[3]), AsInt(command[4]), RectStep(command);
    if w > 0 {
      var us := Sweep(AsInt(command[1]), AsInt(command[1]) + w, step);
      GridLength(us, Sweep(AsInt(command[2]), AsInt(command[2]) + h, step));
    }
  }

  /** The k-th pair of a Points request: tokens 2k + 1 and 2k + 2. */
  function PairAt(command: seq<Value>, k: nat): (int, int)
    requires 2 * k + 2 < |command|
  {
    (AsInt(command[2 * k + 1]), AsInt(command[2 * k + 2]))
  }

  lemma {:induction false} PointPixelsShape(command: seq<Value>, cnt: nat)
    requires cnt % 2 == 1
    decreases |command| - cnt
    ensures |PointPixels(command, cnt)| == if cnt + 1 >= |command| then 0 else (|command| - cnt) / 2
    ensures forall k :: 0 <= k < |PointPixels(command, cnt)| ==>
      cnt + 2 * k + 1 < |command|
      && PointPixels(command, cnt)[k] == (AsInt(command[cnt + 2 * k]), AsInt(command[cnt + 2 * k + 1]))
  {
    if cnt + 1 < |command| {
      PointPixelsShape(command, cnt + 2);
      var pxs := PointPixels(command, cnt);
      forall k | 0 <= k < |pxs|
        ensures cnt + 2 * k + 1 < |command|
          && pxs[k] == (AsInt(command[cnt + 2 * k]), AsInt(command[cnt + 2 * k + 1]))
      {
        if k > 0 {
          assert pxs[k] == PointPixels(command, cnt + 2)[k - 1];
        }
      }
    }
  }

  /** A Points request returns true and answers the readings of its pairs. */
  lemma PointsAnswer(tan: real -> real, s: Snapshot, command: seq<Value>)
    requires IsPoints(command)
    ensures Answer(tan, s, command) == Response(true, Readings(tan, s, PointPixels(command, 1)))
  {
  }

  /** A Points request of n tokens answers exactly 3 * floor((n - 1) / 2)
      doubles, the k-th triple from tokens 2k + 1 and 2k + 2. */
  lemma PointsReply(tan: real -> real, s: Snapshot, command: seq<Value>)
    requires IsPoints(command)
    ensures Answer(tan, s, command).result
    ensures |Answer(tan, s, command).reply| == 3 * ((|command| - 1) / 2)
    ensures forall k :: 0 <= k < (|command| - 1) / 2 ==>
      TripleIs(Answer(tan, s, command).reply, k, Reading(tan, s, PairAt(command, k)))
  {
    var pxs := PointPixels(command, 1);
    var reply := Answer(tan, s, command).reply;
    PointsAnswer(tan, s, command);
    PointPixelsShape(command, 1);
    ReadingsLength(tan, s, pxs);
    forall k | 0 <= k < (|command| - 1) / 2
      ensures TripleIs(reply, k, Reading(tan, s, PairAt(command, k)))
    {
      ReadingAt(tan, s, pxs, k);
      assert pxs[k] == PairAt(command, k);
    }
  }

  lemma {:induction false} PointPixelsDropLast(command: seq<Value>, cnt: nat)
    requires |command| > 0 && |command| % 2 == 0 && cnt % 2 == 1
    decreases |command| - cnt
    ensures PointPixels(command, cnt) == PointPixels(command[..|command| - 1], cnt)
  {
    var prefix := command[..|command| - 1];
    if cnt + 1 < |command| {
      assert cnt + 1 < |prefix|;
      PointPixelsDropLast(command, cnt + 2);
      assert prefix[cnt] == command[cnt] && prefix[cnt + 1] == command[cnt + 1];
    } else {
      assert cnt + 1 >= |prefix|;
    }
  }

  /** An unpaired last token of a Points request is ignored: the answer is
      the one without it. */
  lemma PointsIgnoreTrailing(tan: real -> real, s: Snapshot, command: seq<Value>)
    requires IsPoints(command) && |command| % 2 == 0
    ensures Answer(tan, s, command) == Answer(tan, s, command[..|command| - 1])
  {
    PointPixelsDropLast(command, 1);
  }

  /** With the identity pose, each triple is the camera-frame point itself. */
  lemma IdentityPoseReading(tan: real -> real, s: Snapshot, px: (int, int))
    requires s.hcam == Identity
    ensures var p := GetPoint3D(s.depth, s.fovH, s.fovV, tan, px.0, px.1);
      Reading(tan, s, px) == [Double(p.x), Double(p.y), Double(p.z)]
  {
    TransformIdentity(GetPoint3D(s.depth, s.fovH, s.fovV, tan, px.0, px.1));
  }

  /** A pixel that fails a check is answered with the camera position, the
      image of the zero point, not with zeros. */
  lemma DegenerateReading(tan: real -> real, s: Snapshot, px: (int, int))
    requires !Unprojectable(s.depth, s.fovH, s.fovV, tan, px.0, px.1)
    ensures Reading(tan, s, px) == [Double(s.hcam.r0.c3), Double(s.hcam.r1.c3), Double(s.hcam.r2.c3)]
  {
    TransformOrigin(s.hcam);
  }

  /** `Rect 0 0 4 2 2` answers two points, pixel (0, 0) then pixel (2, 0). */
  lemma RectExample(tan: real -> real, s: Snapshot)
    ensures Answer(tan, s, [Str("Rect"), Int(0), Int(0), Int(4), Int(2), Int(2)]).reply
         == Reading(tan, s, (0, 0)) + Reading(tan, s, (2, 0))
  {
    var command := [Str("Rect"), Int(0), Int(0), Int(4), Int(2), Int(2)];
    assert AsString(command[0]) == "Rect" && RectStep(command) == 2;
    assert Sweep(4, 4, 2) == [];
    assert Sweep(2, 4, 2) == [2];
    assert Sweep(0, 4, 2) == [0, 2];
    assert Sweep(2, 2, 2) == [];
    assert Sweep(0, 2, 2) == [0];
    assert Column(0, [0]) == [(0, 0)];
    assert Column(2, [0]) == [(2, 0)];
    assert Grid([2], [0]) == [(2, 0)];
    assert Grid([0, 2], [0]) == [(0, 0), (2, 0)];
    assert Readings(tan, s, [(2, 0)]) == Reading(tan, s, (2, 0));
    assert Readings(tan, s, [(0, 0), (2, 0)]) == Reading(tan, s, (0, 0)) + Reading(tan, s, (2, 0));
  }

  /** `Points 1 2 3 4 5` answers two points, from (1, 2) and (3, 4); the 5
      is dropped. */
  lemma PointsExample(tan: real -> real, s: Snapshot)
    ensures Answer(tan, s, [Str("Points"), Int(1), Int(2), Int(3), Int(4), Int(5)]).reply
         == Reading(tan, s, (1, 2)) + Reading(tan, s, (3, 4))
  {
    var command := [Str("Points"), Int(1), Int(2), Int(3), Int(4), Int(5)];
    assert PointPixels(command, 5) == [];
    assert PointPixels(command, 3) == [(3, 4)];
    assert PointPixels(command, 1) == [(1, 2), (3, 4)];
    assert AsString(command[0]) == "Points";
    assert Readings(tan, s, [(3, 4)]) == Reading(tan, s, (3, 4));
    assert Readings(tan, s, [(1, 2), (3, 4)]) == Reading(tan, s, (1, 2)) + Reading(tan, s, (3, 4));
  }

  /** The pairs of a Points request depend only on its tokens from cnt on. */
  lemma {:induction false} PointPixelsAgree(a: seq<Value>, b: seq<Value>, cnt: nat)
    requires |a| == |b| && 0 < cnt
    requires forall i :: 1 <= i < |a| ==> a[i] == b[i]
    decreases |a| - cnt
    ensures PointPixels(a, cnt) == PointPixels(b, cnt)
  {
    if cnt + 1 < |a| {
      PointPixelsAgree(a, b, cnt + 2);
    }
  }

  /** A command word sent as a vocab dispatches like the same word sent as a
      string, whatever follows it: a vocab `quit` returns false, `help`
      answers the help text, and `Rect` and `Points` scan the same pixels. */
  lemma VocabCommand(tan: real -> real, s: Snapshot, command: seq<Value>, w: string)
    requires |command| > 0 && command[0] == Vocab(w) && |w| <= 4 && !Diverges(command)
    ensures !Diverges(command[0 := Str(w)])
    ensures Answer(tan, s, command) == Answer(tan, s, command[0 := Str(w)])
  {
    var other := command[0 := Str(w)];
    assert AsString(command[0]) == AsString(other[0]) == w;
    if |command| >= 3 {
      PointPixelsAgree(command, other, 1);
    }
  }

  /** The command words `quit`, `help` and `Rect` sent as vocabs. */
  lemma VocabCommandWords(tan: real -> real, s: Snapshot)
    ensures Answer(tan, s, [Vocab("quit")]) == Response(false, [])
    ensures Answer(tan, s, [Vocab("help")]) == Response(true, HelpReply)
    ensures Answer(tan, s, [Vocab("Rect"), Int(0), Int(0), Int(4), Int(2), Int(2)]).reply
         == Reading(tan, s, (0, 0)) + Reading(tan, s, (2, 0))
  {
    VocabCommand(tan, s, [Vocab("quit")], "quit");
    VocabCommand(tan, s, [Vocab("help")], "help");
    VocabCommand(tan, s, [Vocab("Rect"), Int(0), Int(0), Int(4), Int(2), Int(2)], "Rect");
    RectExample(tan, s);
  }
}
