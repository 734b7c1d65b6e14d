/** Video processing: a single forward pass over the decoded frames with a
    counter that starts at 0 and is incremented before each test, so the
    first frame is frame 1; every fifth frame is run through the detector
    and recorded. Decoding is outside the model: the video is the finite
    sequence of frames the decoder yields (empty when it cannot be opened),
    and the detector is the function `detect`. */
module Video {
  import opened Records
  import opened Detections

  /** Every `SampleInterval`-th frame is processed. */
  const SampleInterval: nat := 5

  /** The record for the `k`-th sampled frame (0-based): frame number
      `5 * (k + 1)`, the plastic count of that (1-based) frame. */
  function SampleAt<F>(frames: seq<F>, detect: F -> seq<Detection>, k: nat): FrameRecord
    requires SampleInterval * (k + 1) <= |frames|
  {
    var n := SampleInterval * (k + 1);
    FrameRecord(n, PlasticCount(detect(frames[n - 1])))
  }

  /** The records a whole video yields, stated in closed form: one per
      complete group of five frames. */
  function Sampled<F>(frames: seq<F>, detect: F -> seq<Detection>): seq<FrameRecord> {
    seq(|frames| / SampleInterval, k requires 0 <= k < |frames| / SampleInterval => SampleAt(frames, detect, k))
  }

  /** The frame loop: walks the frames once, counting them from 1, and
      appends a record whenever the count is a multiple of five. */
  method ProcessVideo<F>(frames: seq<F>, detect: F -> seq<Detection>) returns (records: seq<FrameRecord>)
    ensures records == Sampled(frames, detect)
    ensures |records| == |frames| / SampleInterval
    ensures forall k :: 0 <= k < |records| ==>
              && records[k].frame == SampleInterval * (k + 1)
              && records[k].plasticCount == PlasticCount(detect(frames[records[k].frame - 1]))
    ensures forall k :: 0 <= k < |records| ==>
              0 < records[k].frame <= |frames| && records[k].frame % SampleInterval == 0
    ensures forall j, k :: 0 <= j < k < |records| ==> records[j].frame < records[k].frame
  {
    var frameCount := 0;
    records := [];
    while frameCount < |frames|
      invariant 0 <= frameCount <= |frames|
      invariant |records| == frameCount / SampleInterval
      invariant forall k :: 0 <= k < |records| ==> records[k] == SampleAt(frames, detect, k)
    {
      var frame := frames[frameCount];
      frameCount := frameCount + 1;
      if frameCount % SampleInterval == 0 {
        records := records + [FrameRecord(frameCount, PlasticCount(detect(frame)))];
      }
    }
  }

  /** Every record's frame number is a positive multiple of five that does
      not exceed the number of frames, and the frame numbers strictly
      increase. */
  lemma SampledFrameNumbers<F>(frames: seq<F>, detect: F -> seq<Detection>)
    ensures forall k :: 0 <= k < |Sampled(frames, detect)| ==>
              var f := Sampled(frames, detect)[k].frame;
              0 < f <= |frames| && f % SampleInterval == 0
    ensures forall j, k :: 0 <= j < k < |Sampled(frames, detect)| ==>
              Sampled(frames, detect)[j].frame < Sampled(frames, detect)[k].frame
  {
  }

  /** A 30-frame video yields six records, for frames 5, 10, 15, 20, 25 and 30. */
  lemma ThirtyFrameVideo<F>(frames: seq<F>, detect: F -> seq<Detection>)
    requires |frames| == 30
    ensures |Sampled(frames, detect)| == 6
    ensures forall k :: 0 <= k < 6 ==> Sampled(frames, detect)[k].frame == 5 * (k + 1)
  {
  }

  /** Frames after the last complete group of five are never looked at:
      appending fewer than five frames to a video whose length is a multiple
      of five changes nothing. */
  lemma TrailingFramesIgnored<F>(frames: seq<F>, extra: seq<F>, detect: F -> seq<Detection>)
    requires |frames| % SampleInterval == 0
    requires |extra| < SampleInterval
    ensures Sampled(frames + extra, detect) == Sampled(frames, detect)
  {
  }
}
