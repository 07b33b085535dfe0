/** A Pull over an opened read handle: the server slices each chunk out of the shared mapping when its
    turn comes, while other clients go on creating, writing, sealing and deleting. */
module PullStream {
  import opened Bytes
  import P = Plasma
  import T = Transport

  /** The chunk at position `i`, sliced out of what the handle shows at that moment. */
  function SliceNow(s: P.Plasma, h: P.ReadHandle, i: nat): T.PullChunk {
    var shown := P.Shown(s, h);
    if shown.None? then T.Broken
    else
      var data := shown.value.1;
      var start, end := T.ChunkStart(i), T.ChunkEnd(i, |data|);
      if start <= end then T.Data(data[start..end]) else T.Broken
  }

  /** The whole stream: metadata and size when the Pull begins, then one chunk per later moment;
      `moments[i]` is what else has happened by the time chunk `i` is sent. */
  function Stream(capacity: nat, steps: seq<P.Step>, h: P.ReadHandle, moments: seq<seq<P.Step>>): seq<T.PullChunk> {
    var shown := P.Shown(P.Run(capacity, steps), h);
    if shown.None? then []
    else [T.Head(T.Meta(shown.value.0, |shown.value.1|))] +
         seq(|moments|, i requires 0 <= i < |moments| => SliceNow(P.Run(capacity, steps + moments[i]), h, i))
  }

  lemma {:induction false} SliceOfWritten(capacity: nat, steps: seq<P.Step>, h: P.ReadHandle, more: seq<P.Step>, i: nat)
    requires P.Disciplined(capacity, steps) && h in P.Run(capacity, steps).handles
    requires h.slot < |P.Run(capacity, steps).slots| && i < |T.Chunks(P.Run(capacity, steps).slots[h.slot].data)|
    ensures SliceNow(P.Run(capacity, steps + more), h, i) ==
            T.Data(T.Chunks(P.Run(capacity, steps).slots[h.slot].data)[i])
  {
    P.DisciplinedHandlesStable(capacity, steps, more, h);
    T.ChunkAt(P.Run(capacity, steps).slots[h.slot].data, i);
  }

  /** However the chunks are spread over the rest of the run, the frames are those of the object its
      creator sealed, so the receiver reassembles exactly that. */
  lemma {:induction false} PullStreamsCreatedObject(capacity: nat, steps: seq<P.Step>, h: P.ReadHandle,
      moments: seq<seq<P.Step>>)
    requires P.Disciplined(capacity, steps) && h in P.Run(capacity, steps).handles
    ensures h.slot < |P.Run(capacity, steps).slots|
    ensures var slot := P.Run(capacity, steps).slots[h.slot];
            |moments| == |T.Chunks(slot.data)| ==>
              && Stream(capacity, steps, h, moments) == T.PullFrames(T.Object(slot.metadata, slot.data))
              && T.IsPull(Stream(capacity, steps, h, moments))
  {
    P.DisciplinedHandlesStable(capacity, steps, [], h);
    assert steps + [] == steps;
    var slot := P.Run(capacity, steps).slots[h.slot];
    var obj := T.Object(slot.metadata, slot.data);
    if |moments| == |T.Chunks(slot.data)| {
      forall i | 0 <= i < |moments|
        ensures SliceNow(P.Run(capacity, steps + moments[i]), h, i) == T.PullFrames(obj)[i + 1]
      {
        SliceOfWritten(capacity, steps, h, moments[i], i);
      }
      assert Stream(capacity, steps, h, moments) == T.PullFrames(obj);
      T.PullRoundTrip(obj);
    }
  }
}
