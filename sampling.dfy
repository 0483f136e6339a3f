/** Stride sampling of annotation tracks and the concatenation of the sampled
    boxes of a video into one candidate list. */
module Sampling {
  import opened Boxes

  /** The source keeps every seventh box of a track. */
  const Stride: nat := 7

  function MinNat(a: nat, b: nat): nat {
    if a <= b then a else b
  }

  /** s[::k]: the elements of s at positions 0, k, 2k, ..., in order. */
  function Sample<T>(s: seq<T>, k: nat): seq<T>
    requires k > 0
    decreases |s|
  {
    if |s| == 0 then [] else [s[0]] + Sample(s[MinNat(k, |s|)..], k)
  }

  /** The sampled boxes of every track, track after track: all_frames. */
  function AllFrames(tracks: seq<Track>, k: nat): seq<FrameBox>
    requires k > 0
    decreases |tracks|
  {
    if |tracks| == 0 then []
    else AllFrames(tracks[..|tracks| - 1], k) + Sample(tracks[|tracks| - 1].bboxes, k)
  }

  /** The number of boxes each track contributes, ceil(len / k), summed over tracks. */
  function SampledCount(tracks: seq<Track>, k: nat): nat
    requires k > 0
    decreases |tracks|
  {
    if |tracks| == 0 then 0
    else SampledCount(tracks[..|tracks| - 1], k) + (|tracks[|tracks| - 1].bboxes| + k - 1) / k
  }

  lemma MulMono(a: int, b: int, k: int)
    requires a <= b && k > 0
    ensures a * k <= b * k
  {
  }

  lemma DivUnique(a: int, k: int, q: int)
    requires k > 0 && q * k <= a < q * k + k
    ensures a / k == q
  {
    var d := a / k;
    assert d * k <= a < d * k + k;
    if d < q {
      MulMono(d + 1, q, k);
    } else if d > q {
      MulMono(q + 1, d, k);
    }
  }

  lemma {:induction false} SampleBounds<T>(s: seq<T>, k: nat)
    requires k > 0
    ensures |s| <= |Sample(s, k)| * k < |s| + k
    decreases |s|
  {
    if |s| > 0 {
      var rest := s[MinNat(k, |s|)..];
      SampleBounds(rest, k);
      assert |Sample(s, k)| * k == k + |Sample(rest, k)| * k;
    }
  }

  /** A sampled track has ceil(|s| / k) boxes, the t-th of which is the box at
      position t * k; in particular an empty track gives nothing. */
  lemma {:induction false} SampleSpec<T>(s: seq<T>, k: nat)
    requires k > 0
    ensures |Sample(s, k)| == (|s| + k - 1) / k
    ensures forall t :: 0 <= t < |Sample(s, k)| ==> t * k < |s| && Sample(s, k)[t] == s[t * k]
    ensures |s| == 0 <==> Sample(s, k) == []
    decreases |s|
  {
    SampleBounds(s, k);
    DivUnique(|s| + k - 1, k, |Sample(s, k)|);
    if |s| > 0 {
      var rest := s[MinNat(k, |s|)..];
      SampleSpec(rest, k);
      forall t | 0 <= t < |Sample(s, k)|
        ensures t * k < |s| && Sample(s, k)[t] == s[t * k]
      {
        if t > 0 {
          assert Sample(s, k)[t] == Sample(rest, k)[t - 1];
          assert (t - 1) * k + k == t * k;
          assert |rest| > 0;
          assert MinNat(k, |s|) == k;
        }
      }
    }
  }

  /** all_frames holds one entry per sampled box: its length is the sum of the
      per-track sampled lengths. */
  lemma {:induction false} AllFramesLength(tracks: seq<Track>, k: nat)
    requires k > 0
    ensures |AllFrames(tracks, k)| == SampledCount(tracks, k)
    decreases |tracks|
  {
    if |tracks| > 0 {
      AllFramesLength(tracks[..|tracks| - 1], k);
      SampleSpec(tracks[|tracks| - 1].bboxes, k);
    }
  }

  /** Lines 69-74: the nested loops that append every seventh box of every
      track to all_frames. */
  method CollectFrames(tracks: seq<Track>) returns (allFrames: seq<FrameBox>)
    ensures allFrames == AllFrames(tracks, Stride)
  {
    allFrames := [];
    for i := 0 to |tracks|
      invariant allFrames == AllFrames(tracks[..i], Stride)
    {
      var bboxes := tracks[i].bboxes;
      ghost var before := allFrames;
      var j := 0;
      while j < |bboxes|
        invariant allFrames + Sample(bboxes[MinNat(j, |bboxes|)..], Stride) == before + Sample(bboxes, Stride)
        decreases |bboxes| - j
      {
        assert bboxes[j..][MinNat(Stride, |bboxes| - j)..] == bboxes[MinNat(j + Stride, |bboxes|)..];
        allFrames := allFrames + [bboxes[j]];
        j := j + Stride;
      }
      assert tracks[..i + 1][..i] == tracks[..i];
    }
    assert tracks[..|tracks|] == tracks;
  }

  /** The worked case of a 21-box track: positions 0, 7 and 14 are kept. */
  lemma SampleOfTwentyOne<T>(s: seq<T>)
    requires |s| == 21
    ensures Sample(s, Stride) == [s[0], s[7], s[14]]
  {
    SampleSpec(s, Stride);
  }
}
