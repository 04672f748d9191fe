/**
 * What the detector server makes of one camera frame: the detector's boxes
 * become targets described by their offset from the frame centre and their
 * area, and only boxes the detector is confident about are listed.
 */
module Detection {
  import opened Basics

  const FRAME_WIDTH: int := 640
  const FRAME_HEIGHT: int := 320
  const FRAME_CENTER_X: int := FRAME_WIDTH / 2
  const FRAME_CENTER_Y: int := FRAME_HEIGHT / 2

  /** Boxes at or below this confidence are not reported. */
  const CONF_THRESHOLD: real := 0.4

  /** The status every reply of the server carries. */
  const TARGETS_STATUS: string := "hedefler"

  /** One detector box: class name, confidence and corner coordinates in pixels. */
  datatype Box = Box(name: string, conf: real, xmin: real, ymin: real, xmax: real, ymax: real)

  /** One reported target: class name, confidence, offset of the box centre from the frame centre, box area. */
  datatype Target = Target(name: string, conf: real, dx: int, dy: int, area: int)

  /**
   * A detector reply as the client sees it after decoding: Malformed when
   * the bytes were not valid JSON, otherwise its "status" (None when
   * absent) and its "hedefler" list (empty when absent).
   */
  datatype Reply = Malformed | Parsed(status: Option<string>, targets: seq<Target>)

  /** Python's `int(x)` on a number: the integer part, rounding toward zero. */
  function Truncate(x: real): (r: int)
    ensures x >= 0.0 ==> r >= 0 && r as real <= x < r as real + 1.0
    ensures x < 0.0 ==> r <= 0 && r as real - 1.0 < x <= r as real
  {
    if x >= 0.0 then x.Floor else -((-x).Floor)
  }

  /**
   * The target reported for a box. Python's `//` rounds toward minus
   * infinity; with the divisor 2 that is Dafny's `/`.
   */
  function TargetOf(b: Box): (t: Target)
    ensures t.name == b.name && t.conf == b.conf
    // the reported centre is the midpoint of the truncated corners, rounded down
    ensures var sx := Truncate(b.xmin) + Truncate(b.xmax);
      2 * (t.dx + FRAME_CENTER_X) <= sx <= 2 * (t.dx + FRAME_CENTER_X) + 1
    ensures var sy := Truncate(b.ymin) + Truncate(b.ymax);
      2 * (t.dy + FRAME_CENTER_Y) <= sy <= 2 * (t.dy + FRAME_CENTER_Y) + 1
    // a box centred on the frame centre has no offset
    ensures Truncate(b.xmin) + Truncate(b.xmax) == 2 * FRAME_CENTER_X ==> t.dx == 0
    ensures Truncate(b.ymin) + Truncate(b.ymax) == 2 * FRAME_CENTER_Y ==> t.dy == 0
    // the area is that of the box with truncated corners; non-negative when the corners are in order
    ensures t.area == (Truncate(b.xmax) - Truncate(b.xmin)) * (Truncate(b.ymax) - Truncate(b.ymin))
    ensures Truncate(b.xmin) <= Truncate(b.xmax) && Truncate(b.ymin) <= Truncate(b.ymax) ==> t.area >= 0
  {
    var xmin, ymin, xmax, ymax := Truncate(b.xmin), Truncate(b.ymin), Truncate(b.xmax), Truncate(b.ymax);
    var xCenter := (xmin + xmax) / 2;
    var yCenter := (ymin + ymax) / 2;
    var width, height := xmax - xmin, ymax - ymin;
    assert width >= 0 && height >= 0 ==> width * height >= 0;
    Target(b.name, b.conf, xCenter - FRAME_CENTER_X, yCenter - FRAME_CENTER_Y, width * height)
  }

  /** The targets listed for a frame's boxes: confident boxes only, in detector order. */
  function TargetsOf(boxes: seq<Box>): (ts: seq<Target>)
    ensures |ts| <= |boxes|
    ensures forall i :: 0 <= i < |ts| ==> ts[i].conf > CONF_THRESHOLD
  {
    if boxes == [] then []
    else
      var last := boxes[|boxes| - 1];
      TargetsOf(boxes[..|boxes| - 1]) + (if last.conf > CONF_THRESHOLD then [TargetOf(last)] else [])
  }

  /**
   * Listing distributes over concatenation, so the list keeps detector
   * order and a box is listed exactly when its confidence is above the
   * threshold.
   */
  lemma {:induction false} TargetsOfAppend(a: seq<Box>, b: seq<Box>)
    ensures TargetsOf(a + b) == TargetsOf(a) + TargetsOf(b)
    decreases |b|
  {
    if b == [] {
      assert a + b == a;
    } else {
      var b' := b[..|b| - 1];
      assert (a + b)[..|a + b| - 1] == a + b';
      assert (a + b)[|a + b| - 1] == b[|b| - 1];
      TargetsOfAppend(a, b');
    }
  }

  /** A single box is listed, as its target, exactly when its confidence is above the threshold. */
  lemma TargetsOfOne(b: Box)
    ensures TargetsOf([b]) == if b.conf > CONF_THRESHOLD then [TargetOf(b)] else []
  {
    assert [b][..0] == [];
  }

  /** The server's loop over the detector's boxes, appending each confident one to the list. */
  method ListTargets(boxes: seq<Box>) returns (ts: seq<Target>)
    ensures ts == TargetsOf(boxes)
    ensures forall i :: 0 <= i < |ts| ==> ts[i].conf > CONF_THRESHOLD
  {
    ts := [];
    for i := 0 to |boxes|
      invariant ts == TargetsOf(boxes[..i])
    {
      assert boxes[..i + 1][..i] == boxes[..i];
      var box := boxes[i];
      if box.conf > CONF_THRESHOLD {
        ts := ts + [TargetOf(box)];
      }
    }
    assert boxes[..|boxes|] == boxes;
  }

  /** The reply the server sends for a frame in which the detector found `boxes`. */
  function ServerReply(boxes: seq<Box>): (r: Reply)
    ensures r.Parsed? && r.status == Some(TARGETS_STATUS)
    ensures |r.targets| <= |boxes|
  {
    Parsed(Some(TARGETS_STATUS), TargetsOf(boxes))
  }
}
