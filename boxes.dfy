/** The annotation entities of a video and the box normaliser that turns a
    pixel box into a normalised single-class detection label. */
module Boxes {

  /** One annotated box: the frame it belongs to and its pixel corners.
      Nothing says x1 <= x2 or y1 <= y2; degenerate boxes are allowed. */
  datatype FrameBox = FrameBox(frame: nat, x1: real, y1: real, x2: real, y2: real)

  /** One annotation track: its boxes in the order the annotation file lists them. */
  datatype Track = Track(bboxes: seq<FrameBox>)

  /** One entry of the annotation file. */
  datatype VideoRecord = VideoRecord(videoId: string, annotations: seq<Track>)

  /** A frame dimension in pixels. */
  type Pos = n: int | n > 0 witness 1

  /** The content of one label file: class id, centre, width and height. */
  datatype Label = Label(classId: nat, xCenter: real, yCenter: real, width: real, height: real)

  predicate InUnit(v: real) {
    0.0 <= v <= 1.0
  }

  predicate LabelInUnit(l: Label) {
    InUnit(l.xCenter) && InUnit(l.yCenter) && InUnit(l.width) && InUnit(l.height)
  }

  function Max(a: real, b: real): real {
    if a >= b then a else b
  }

  function Min(a: real, b: real): real {
    if a <= b then a else b
  }

  /** max(0.0, min(1.0, v)): the clamp the normaliser applies to each value. */
  function Clamp01(v: real): (r: real)
    ensures InUnit(r)
    ensures InUnit(v) <==> r == v
    ensures v < 0.0 ==> r == 0.0
    ensures v > 1.0 ==> r == 1.0
  {
    Max(0.0, Min(1.0, v))
  }

  /** The centre/size ratios of a box before clamping. */
  function RawLabel(b: FrameBox, w: Pos, h: Pos): Label {
    var boxW := b.x2 - b.x1;
    var boxH := b.y2 - b.y1;
    var xCenter := (b.x1 + b.x2) / 2.0;
    var yCenter := (b.y1 + b.y2) / 2.0;
    Label(0, xCenter / w as real, yCenter / h as real, boxW / w as real, boxH / h as real)
  }

  /** The label written for box b of a w x h frame: every ratio clamped to [0,1]
      on its own, and left unchanged where it already lies in [0,1]. */
  function Normalize(b: FrameBox, w: Pos, h: Pos): (l: Label)
    ensures l.classId == 0
    ensures LabelInUnit(l)
    ensures var raw := RawLabel(b, w, h);
      && (InUnit(raw.xCenter) <==> l.xCenter == raw.xCenter)
      && (InUnit(raw.yCenter) <==> l.yCenter == raw.yCenter)
      && (InUnit(raw.width) <==> l.width == raw.width)
      && (InUnit(raw.height) <==> l.height == raw.height)
  {
    var raw := RawLabel(b, w, h);
    Label(0, Clamp01(raw.xCenter), Clamp01(raw.yCenter), Clamp01(raw.width), Clamp01(raw.height))
  }

  /** A box that lies inside the frame with its corners in order is written
      exactly as its unclamped ratios: clamping never changes it. */
  lemma NormalizeInsideFrame(b: FrameBox, w: Pos, h: Pos)
    requires 0.0 <= b.x1 <= b.x2 <= w as real
    requires 0.0 <= b.y1 <= b.y2 <= h as real
    ensures Normalize(b, w, h) == RawLabel(b, w, h)
  {
  }

  /** Inverted corners give a zero width or height instead of an error. */
  lemma NormalizeInverted(b: FrameBox, w: Pos, h: Pos)
    ensures b.x2 < b.x1 ==> Normalize(b, w, h).width == 0.0
    ensures b.y2 < b.y1 ==> Normalize(b, w, h).height == 0.0
  {
  }
}
