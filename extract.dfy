/** Extract_dataset_Yolov8: the per-video, per-frame loop that writes one
    label and one image per decoded frame under a per-split counter, and the
    four counters that account for every video and every sampled frame. */
module Extract {
  import opened Boxes
  import opened Sampling
  import opened Partitioner

  /** What the loop learns from the outside world. Every oracle is a function
      of its arguments only. */
  datatype Env = Env(
    pathExists: string -> bool,      // os.path.exists(video_path)
    canOpen: string -> bool,         // cv2.VideoCapture(video_path).isOpened()
    frameWidth: string -> Pos,       // int(cap.get(CAP_PROP_FRAME_WIDTH))
    frameHeight: string -> Pos,      // int(cap.get(CAP_PROP_FRAME_HEIGHT))
    decodeOk: (string, nat) -> bool, // cap.set(CAP_PROP_POS_FRAMES, f); cap.read() returned ret
    draw: Draw)                      // the indices random.shuffle draws after random.seed(42)

  ghost predicate ValidEnv(env: Env) {
    ValidDraw(env.draw)
  }

  datatype SplitName = Train | Val

  function Other(sp: SplitName): SplitName {
    if sp == Train then Val else Train
  }

  datatype Counters = Counters(trainCount: nat, valCount: nat, errorVideo: nat, errorFrame: nat)

  /** One written sample: labels/<split>/<id>.txt holds labelLine, and
      images/<split>/<id>.jpg holds frame number frame of the video at video. */
  datatype Record = Record(split: SplitName, id: nat, labelLine: Label, video: string, frame: nat)

  /** The counters and the log of written samples so far. */
  datatype Progress = Progress(counters: Counters, log: seq<Record>)

  const Start := Progress(Counters(0, 0, 0, 0), [])

  function VideoPath(videoId: string): string {
    "train/samples/" + videoId + "/drone_video.mp4"
  }

  predicate Opens(v: VideoRecord, env: Env) {
    var path := VideoPath(v.videoId);
    env.pathExists(path) && env.canOpen(path)
  }

  /** The counter that names the next sample of split sp. */
  function Count(c: Counters, sp: SplitName): nat {
    if sp == Train then c.trainCount else c.valCount
  }

  function Bump(c: Counters, sp: SplitName): Counters {
    if sp == Train then c.(trainCount := c.trainCount + 1) else c.(valCount := c.valCount + 1)
  }

  /** One selected frame: on a successful decode its label and image are
      written under the current counter of sp, which then moves on; otherwise
      error_frame moves on. */
  function FrameStep(p: Progress, sp: SplitName, b: FrameBox, path: string, w: Pos, h: Pos, env: Env): Progress {
    if env.decodeOk(path, b.frame) then
      Progress(Bump(p.counters, sp), p.log + [Record(sp, Count(p.counters, sp), Normalize(b, w, h), path, b.frame)])
    else
      Progress(p.counters.(errorFrame := p.counters.errorFrame + 1), p.log)
  }

  /** The frames of one split of one video, in order. */
  function SplitStep(p: Progress, sp: SplitName, frames: seq<FrameBox>, path: string, w: Pos, h: Pos, env: Env): Progress
    decreases |frames|
  {
    if |frames| == 0 then p
    else FrameStep(SplitStep(p, sp, frames[..|frames| - 1], path, w, h, env), sp, frames[|frames| - 1], path, w, h, env)
  }

  /** The train and val boxes of a video that opens. */
  function VideoParts(v: VideoRecord, split: real, env: Env): (seq<FrameBox>, seq<FrameBox>)
    requires ValidEnv(env)
  {
    Partition(Shuffled(AllFrames(v.annotations, Stride), env.draw), split)
  }

  /** One video: skipped with error_video + 1 if its file is missing or does
      not open; otherwise its train frames, then its val frames. */
  function VideoStep(p: Progress, v: VideoRecord, split: real, env: Env): Progress
    requires ValidEnv(env)
  {
    if !Opens(v, env) then
      Progress(p.counters.(errorVideo := p.counters.errorVideo + 1), p.log)
    else
      var path := VideoPath(v.videoId);
      var w, h := env.frameWidth(path), env.frameHeight(path);
      var parts := VideoParts(v, split, env);
      SplitStep(SplitStep(p, Train, parts.0, path, w, h, env), Val, parts.1, path, w, h, env)
  }

  /** The whole run over the annotation file's videos, in order. */
  function Run(videos: seq<VideoRecord>, split: real, env: Env): Progress
    requires ValidEnv(env)
    decreases |videos|
  {
    if |videos| == 0 then Start
    else VideoStep(Run(videos[..|videos| - 1], split, env), videos[|videos| - 1], split, env)
  }

  // ---------------------------------------------------------------------
  // Reference quantities the counters are measured against.

  /** How many of the frames decode. */
  function Decoded(frames: seq<FrameBox>, path: string, env: Env): nat
    decreases |frames|
  {
    if |frames| == 0 then 0
    else Decoded(frames[..|frames| - 1], path, env) + (if env.decodeOk(path, frames[|frames| - 1].frame) then 1 else 0)
  }

  /** How many videos are missing or do not open. */
  function Unopened(videos: seq<VideoRecord>, env: Env): nat
    decreases |videos|
  {
    if |videos| == 0 then 0
    else Unopened(videos[..|videos| - 1], env) + (if Opens(videos[|videos| - 1], env) then 0 else 1)
  }

  /** How many boxes the videos that open sample in all. */
  function SampledTotal(videos: seq<VideoRecord>, env: Env): nat
    decreases |videos|
  {
    if |videos| == 0 then 0
    else
      var v := videos[|videos| - 1];
      SampledTotal(videos[..|videos| - 1], env) + (if Opens(v, env) then |AllFrames(v.annotations, Stride)| else 0)
  }

  /** The ids of the samples written to split sp, in the order they were written. */
  function IdsIn(log: seq<Record>, sp: SplitName): seq<nat>
    decreases |log|
  {
    if |log| == 0 then []
    else IdsIn(log[..|log| - 1], sp) + (if log[|log| - 1].split == sp then [log[|log| - 1].id] else [])
  }

  /** lo, lo + 1, ..., hi - 1. */
  function Range(lo: nat, hi: nat): seq<nat>
    requires lo <= hi
    decreases hi - lo
  {
    if hi == lo then [] else Range(lo, hi - 1) + [hi - 1]
  }

  /** The ids written to each split are exactly 0 .. count - 1, in order. */
  predicate Dense(p: Progress) {
    IdsIn(p.log, Train) == Range(0, p.counters.trainCount) && IdsIn(p.log, Val) == Range(0, p.counters.valCount)
  }

  /** Every written label has class 0 and values in [0,1]. */
  predicate LabelsOk(log: seq<Record>) {
    forall k :: 0 <= k < |log| ==> log[k].labelLine.classId == 0 && LabelInUnit(log[k].labelLine)
  }

  // ---------------------------------------------------------------------
  // What one split, one video and the whole run do to the counters and the log.

  /** Range(lo, hi) is the run of consecutive numbers from lo below hi. */
  lemma {:induction false} RangeSpec(lo: nat, hi: nat)
    requires lo <= hi
    ensures |Range(lo, hi)| == hi - lo
    ensures forall k :: 0 <= k < hi - lo ==> Range(lo, hi)[k] == lo + k
    decreases hi - lo
  {
    if hi > lo {
      RangeSpec(lo, hi - 1);
    }
  }

  lemma {:induction false} RangeAppend(a: nat, b: nat, c: nat)
    requires a <= b <= c
    ensures Range(a, b) + Range(b, c) == Range(a, c)
    decreases c - b
  {
    if c > b {
      RangeAppend(a, b, c - 1);
    }
  }

  /** Processing the frames of split sp: the counter of sp grows by the number
      of frames that decode, error_frame by the number that do not, and
      nothing else changes; the log only grows. */
  lemma {:induction false} SplitStepCounters(p: Progress, sp: SplitName, frames: seq<FrameBox>, path: string, w: Pos, h: Pos, env: Env)
    ensures var q := SplitStep(p, sp, frames, path, w, h, env);
      && Count(q.counters, sp) == Count(p.counters, sp) + Decoded(frames, path, env)
      && Count(q.counters, Other(sp)) == Count(p.counters, Other(sp))
      && q.counters.errorVideo == p.counters.errorVideo
      && q.counters.errorFrame + Decoded(frames, path, env) == p.counters.errorFrame + |frames|
      && |q.log| == |p.log| + Decoded(frames, path, env)
      && q.log[..|p.log|] == p.log
    decreases |frames|
  {
    if |frames| > 0 {
      var prefix := frames[..|frames| - 1];
      SplitStepCounters(p, sp, prefix, path, w, h, env);
      var q0 := SplitStep(p, sp, prefix, path, w, h, env);
      assert (q0.log + [Record(sp, Count(q0.counters, sp), Normalize(frames[|frames| - 1], w, h), path, frames[|frames| - 1].frame)])[..|p.log|] == p.log;
    }
  }

  /** One frame appends the split's current counter to its ids if it decodes,
      and nothing otherwise. */
  lemma FrameStepIds(p: Progress, sp: SplitName, b: FrameBox, path: string, w: Pos, h: Pos, env: Env)
    ensures var q := FrameStep(p, sp, b, path, w, h, env);
      && IdsIn(q.log, sp) == IdsIn(p.log, sp) + (if env.decodeOk(path, b.frame) then [Count(p.counters, sp)] else [])
      && IdsIn(q.log, Other(sp)) == IdsIn(p.log, Other(sp))
  {
  }

  /** Processing the frames of split sp appends to sp's ids the next
      Decoded(frames) consecutive ids, with no gap for a frame that fails. */
  lemma {:induction false} SplitStepIds(p: Progress, sp: SplitName, frames: seq<FrameBox>, path: string, w: Pos, h: Pos, env: Env)
    ensures IdsIn(SplitStep(p, sp, frames, path, w, h, env).log, sp)
      == IdsIn(p.log, sp) + Range(Count(p.counters, sp), Count(p.counters, sp) + Decoded(frames, path, env))
    decreases |frames|
  {
    if |frames| > 0 {
      var prefix := frames[..|frames| - 1];
      SplitStepIds(p, sp, prefix, path, w, h, env);
      SplitStepCounters(p, sp, prefix, path, w, h, env);
      FrameStepIds(SplitStep(p, sp, prefix, path, w, h, env), sp, frames[|frames| - 1], path, w, h, env);
    }
  }

  /** Processing the frames of split sp leaves the other split's ids alone. */
  lemma {:induction false} SplitStepOtherIds(p: Progress, sp: SplitName, frames: seq<FrameBox>, path: string, w: Pos, h: Pos, env: Env)
    ensures IdsIn(SplitStep(p, sp, frames, path, w, h, env).log, Other(sp)) == IdsIn(p.log, Other(sp))
    decreases |frames|
  {
    if |frames| > 0 {
      var prefix := frames[..|frames| - 1];
      SplitStepOtherIds(p, sp, prefix, path, w, h, env);
      FrameStepIds(SplitStep(p, sp, prefix, path, w, h, env), sp, frames[|frames| - 1], path, w, h, env);
    }
  }

  /** Every label a split writes is a normalised label. */
  lemma {:induction false} SplitStepLabels(p: Progress, sp: SplitName, frames: seq<FrameBox>, path: string, w: Pos, h: Pos, env: Env)
    requires LabelsOk(p.log)
    ensures LabelsOk(SplitStep(p, sp, frames, path, w, h, env).log)
    decreases |frames|
  {
    if |frames| > 0 {
      SplitStepLabels(p, sp, frames[..|frames| - 1], path, w, h, env);
    }
  }

  /** The frames of one split keep the ids of both splits dense. */
  lemma {:induction false} SplitStepDense(p: Progress, sp: SplitName, frames: seq<FrameBox>, path: string, w: Pos, h: Pos, env: Env)
    requires Dense(p)
    ensures Dense(SplitStep(p, sp, frames, path, w, h, env))
  {
    SplitStepIds(p, sp, frames, path, w, h, env);
    SplitStepOtherIds(p, sp, frames, path, w, h, env);
    SplitStepCounters(p, sp, frames, path, w, h, env);
    var c := Count(p.counters, sp);
    RangeAppend(0, c, c + Decoded(frames, path, env));
  }

  /** One video. A video that is missing or does not open adds exactly 1 to
      error_video and changes nothing else. A video that opens leaves
      error_video alone, adds to train_count the train frames that decode and
      to val_count the val frames that decode, and adds exactly
      len(all_frames) to train_count + val_count + error_frame. */
  lemma VideoStepCounters(p: Progress, v: VideoRecord, split: real, env: Env)
    requires ValidEnv(env)
    ensures var q := VideoStep(p, v, split, env);
      var c, d := p.counters, q.counters;
      && (!Opens(v, env) ==> d == c.(errorVideo := c.errorVideo + 1) && q.log == p.log)
      && (Opens(v, env) ==>
            var path := VideoPath(v.videoId);
            var parts := VideoParts(v, split, env);
            && d.errorVideo == c.errorVideo
            && d.trainCount == c.trainCount + Decoded(parts.0, path, env)
            && d.valCount == c.valCount + Decoded(parts.1, path, env)
            && d.trainCount + d.valCount + d.errorFrame
               == c.trainCount + c.valCount + c.errorFrame + |AllFrames(v.annotations, Stride)|)
      && |q.log| == |p.log| + (d.trainCount - c.trainCount) + (d.valCount - c.valCount)
  {
    if Opens(v, env) {
      var path := VideoPath(v.videoId);
      var w, h := env.frameWidth(path), env.frameHeight(path);
      var parts := VideoParts(v, split, env);
      PartitionCovers(AllFrames(v.annotations, Stride), split, env.draw);
      SplitStepCounters(p, Train, parts.0, path, w, h, env);
      SplitStepCounters(SplitStep(p, Train, parts.0, path, w, h, env), Val, parts.1, path, w, h, env);
    }
  }

  /** One video keeps the ids dense and the labels normalised. */
  lemma VideoStepKeeps(p: Progress, v: VideoRecord, split: real, env: Env)
    requires ValidEnv(env)
    requires Dense(p) && LabelsOk(p.log)
    ensures Dense(VideoStep(p, v, split, env)) && LabelsOk(VideoStep(p, v, split, env).log)
  {
    if Opens(v, env) {
      var path := VideoPath(v.videoId);
      var w, h := env.frameWidth(path), env.frameHeight(path);
      var parts := VideoParts(v, split, env);
      var p1 := SplitStep(p, Train, parts.0, path, w, h, env);
      SplitStepDense(p, Train, parts.0, path, w, h, env);
      SplitStepDense(p1, Val, parts.1, path, w, h, env);
      SplitStepLabels(p, Train, parts.0, path, w, h, env);
      SplitStepLabels(p1, Val, parts.1, path, w, h, env);
    }
  }

  /** The run accounts for every video and every sampled frame: error_video
      counts the videos that do not open, and every box sampled from a video
      that opens is either a train sample, a val sample or a frame error.
      Every written sample is counted once. */
  lemma {:induction false} RunAccounting(videos: seq<VideoRecord>, split: real, env: Env)
    requires ValidEnv(env)
    ensures var c := Run(videos, split, env).counters;
      && c.errorVideo == Unopened(videos, env)
      && c.trainCount + c.valCount + c.errorFrame == SampledTotal(videos, env)
      && |Run(videos, split, env).log| == c.trainCount + c.valCount
    decreases |videos|
  {
    if |videos| > 0 {
      var prefix := videos[..|videos| - 1];
      RunAccounting(prefix, split, env);
      VideoStepCounters(Run(prefix, split, env), videos[|videos| - 1], split, env);
    }
  }

  /** Ids are never reset between videos: after any number of videos the ids
      of each split are exactly 0 .. count - 1, even when frames failed to
      decode, and every label is normalised. */
  lemma {:induction false} RunDense(videos: seq<VideoRecord>, split: real, env: Env)
    requires ValidEnv(env)
    ensures Dense(Run(videos, split, env))
    ensures LabelsOk(Run(videos, split, env).log)
    decreases |videos|
  {
    if |videos| == 0 {
      assert Range(0, 0) == [];
    } else {
      var prefix := videos[..|videos| - 1];
      RunDense(prefix, split, env);
      VideoStepKeeps(Run(prefix, split, env), videos[|videos| - 1], split, env);
    }
  }

  // ---------------------------------------------------------------------
  // The loops of the source.

  /** Lines 86-113 for train and lines 116-143 for val: decode each frame of the
      split; write its label and image under the split's counter on success,
      count a frame error otherwise. */
  method ProcessSplit(p: Progress, sp: SplitName, frames: seq<FrameBox>, path: string, w: Pos, h: Pos, env: Env)
    returns (q: Progress)
    ensures q == SplitStep(p, sp, frames, path, w, h, env)
  {
    q := p;
    for j := 0 to |frames|
      invariant q == SplitStep(p, sp, frames[..j], path, w, h, env)
    {
      var bbox := frames[j];
      if env.decodeOk(path, bbox.frame) {
        var labelLine := Normalize(bbox, w, h);
        var id := Count(q.counters, sp);
        q := Progress(Bump(q.counters, sp), q.log + [Record(sp, id, labelLine, path, bbox.frame)]);
      } else {
        q := q.(counters := q.counters.(errorFrame := q.counters.errorFrame + 1));
      }
      assert frames[..j + 1][..j] == frames[..j];
    }
    assert frames[..|frames|] == frames;
  }

  /** Lines 41-153: one video. */
  method ProcessVideo(p: Progress, v: VideoRecord, split: real, env: Env) returns (q: Progress)
    requires ValidEnv(env)
    ensures q == VideoStep(p, v, split, env)
  {
    var path := VideoPath(v.videoId);
    if !env.pathExists(path) {
      return Progress(p.counters.(errorVideo := p.counters.errorVideo + 1), p.log);
    }
    if !env.canOpen(path) {
      return Progress(p.counters.(errorVideo := p.counters.errorVideo + 1), p.log);
    }
    var imgHeight := env.frameHeight(path);
    var imgWidth := env.frameWidth(path);
    var allFrames := CollectFrames(v.annotations);
    allFrames := Shuffled(allFrames, env.draw);
    var splitIdx := SplitIndex(|allFrames|, split);
    var trainFrames := allFrames[..splitIdx];
    var valFrames := allFrames[splitIdx..];
    q := ProcessSplit(p, Train, trainFrames, path, imgWidth, imgHeight, env);
    q := ProcessSplit(q, Val, valFrames, path, imgWidth, imgHeight, env);
  }

  /** Lines 33-153: every video of the annotation file, in order, from zero
      counters and an empty dataset. */
  method ExtractDataset(videos: seq<VideoRecord>, split: real, env: Env) returns (q: Progress)
    requires ValidEnv(env)
    ensures q == Run(videos, split, env)
    ensures q.counters.errorVideo == Unopened(videos, env)
    ensures q.counters.trainCount + q.counters.valCount + q.counters.errorFrame == SampledTotal(videos, env)
    ensures |q.log| == q.counters.trainCount + q.counters.valCount
    ensures IdsIn(q.log, Train) == Range(0, q.counters.trainCount)
    ensures IdsIn(q.log, Val) == Range(0, q.counters.valCount)
    ensures LabelsOk(q.log)
  {
    q := Start;
    for i := 0 to |videos|
      invariant q == Run(videos[..i], split, env)
    {
      q := ProcessVideo(q, videos[i], split, env);
      assert videos[..i + 1][..i] == videos[..i];
    }
    assert videos[..|videos|] == videos;
    RunAccounting(videos, split, env);
    RunDense(videos, split, env);
  }
}
