/** Object transfer between raylets: the chunked Pull and Push streams and their reassembly. */
module Transport {
  import opened Bytes

  type ObjectId = seq<byte>

  const CHUNK: nat := 0x1_0000
  const ID_SIZE: nat := 28

  datatype Object = Object(metadata: seq<byte>, data: seq<byte>)

  /** One item of a stream: what leads it, a piece of the data, a frame with no kind set, a transport
      error. */
  datatype Frame<+H> = Head(head: H) | Data(bytes: seq<byte>) | Empty | Broken

  datatype Meta = Meta(metadata: seq<byte>, dataSize: nat)
  datatype Header = Header(id: ObjectId, metadata: seq<byte>, dataSize: nat)

  type PullChunk = Frame<Meta>
  type PushFrame = Frame<Header>

  datatype PullResult = Pulled(obj: Object) | Malformed | ShortRead(expected: nat, got: nat) | PullFailed

  datatype PushResult = Accepted(id: ObjectId, obj: Object) | InvalidArgument | PushFailed

  // ---------- Cutting into chunks ----------

  function Chunks(data: seq<byte>): (r: seq<seq<byte>>)
    decreases |data|
  {
    if data == [] then [] else if |data| <= CHUNK then [data] else [data[..CHUNK]] + Chunks(data[CHUNK..])
  }

  function Concat(chunks: seq<seq<byte>>): seq<byte> {
    if chunks == [] then [] else chunks[0] + Concat(chunks[1..])
  }

  /** The chunks are non-empty, full but for the last, as few as possible, and together the data. */
  lemma {:induction false} ChunksOf(data: seq<byte>)
    ensures Concat(Chunks(data)) == data
    ensures |Chunks(data)| == (|data| + CHUNK - 1) / CHUNK
    ensures forall i :: 0 <= i < |Chunks(data)| ==> 0 < |Chunks(data)[i]| <= CHUNK
    ensures forall i :: 0 <= i < |Chunks(data)| - 1 ==> |Chunks(data)[i]| == CHUNK
    decreases |data|
  {
    if data == [] {
    } else if |data| <= CHUNK {
      assert Concat([data]) == data + Concat([]);
    } else {
      ChunksOf(data[CHUNK..]);
      var rest := Chunks(data[CHUNK..]);
      assert Chunks(data)[1..] == rest;
      assert data == data[..CHUNK] + data[CHUNK..];
      assert (|data| + CHUNK - 1) / CHUNK == 1 + (|data| - CHUNK + CHUNK - 1) / CHUNK;
    }
  }

  /** Taking one more full or final chunk off the front of what is left. */
  lemma NextChunk(data: seq<byte>, start: nat, end: nat)
    requires start < |data| && end == (if start + CHUNK < |data| then start + CHUNK else |data|)
    ensures Chunks(data[start..]) == [data[start..end]] + Chunks(data[end..])
  {
    var left := data[start..];
    if |left| <= CHUNK {
      assert left == data[start..end] && data[end..] == [];
    } else {
      assert left[..CHUNK] == data[start..end] && left[CHUNK..] == data[end..];
    }
  }

  /** Where the `i`-th chunk starts and ends in data of length `n`. */
  function ChunkStart(i: nat): nat { i * CHUNK }
  function ChunkEnd(i: nat, n: nat): nat { if (i + 1) * CHUNK < n then (i + 1) * CHUNK else n }

  lemma SliceOfTail(data: seq<byte>, n: nat, lo: nat, hi: nat)
    requires n <= |data| && lo <= hi <= |data| - n
    ensures data[n..][lo..hi] == data[n + lo..n + hi]
  {
  }

  lemma {:induction false} ChunkAt(data: seq<byte>, i: nat)
    requires i < |Chunks(data)|
    ensures ChunkStart(i) < ChunkEnd(i, |data|) <= |data|
    ensures Chunks(data)[i] == data[ChunkStart(i)..ChunkEnd(i, |data|)]
    decreases i
  {
    if i > 0 {
      var rest := data[CHUNK..];
      ChunkAt(rest, i - 1);
      assert Chunks(data)[i] == Chunks(rest)[i - 1];
      SliceOfTail(data, CHUNK, ChunkStart(i - 1), ChunkEnd(i - 1, |rest|));
    }
  }

  // ---------- Streams ----------

  /** What leads a stream, then its data cut into chunks. */
  function FramesOf<H>(head: H, data: seq<byte>): (r: seq<Frame<H>>)
    ensures |r| == 1 + |Chunks(data)|
  {
    [Head(head)] + seq(|Chunks(data)|, i requires 0 <= i < |Chunks(data)| => Data(Chunks(data)[i]))
  }

  predicate AllData<H>(frames: seq<Frame<H>>) { forall i :: 0 <= i < |frames| ==> frames[i].Data? }

  function Payload<H>(frames: seq<Frame<H>>): seq<byte>
    requires AllData(frames)
  {
    if frames == [] then [] else frames[0].bytes + Payload(frames[1..])
  }

  /** One leading frame, then only data. */
  predicate WellFormed<H>(frames: seq<Frame<H>>) {
    frames != [] && frames[0].Head? && AllData(frames[1..])
  }

  /** The first frame that cannot belong is a transport error. */
  ghost predicate BreaksFirst<H>(frames: seq<Frame<H>>) {
    exists k :: 0 <= k < |frames| && BreaksAt(frames, k)
  }

  predicate BreaksAt<H>(frames: seq<Frame<H>>, k: nat)
    requires k < |frames|
  {
    frames[k].Broken? && (k == 0 || WellFormed(frames[..k]))
  }

  lemma BreaksHere<H>(frames: seq<Frame<H>>, i: nat)
    requires 1 <= i < |frames| && frames[0].Head? && AllData(frames[1..i]) && !frames[i].Data?
    ensures BreaksFirst(frames) <==> frames[i].Broken?
  {
    assert frames[..i][1..] == frames[1..i];
    if frames[i].Broken? { assert BreaksAt(frames, i); }
    forall k | 0 <= k < |frames| && k != i ensures !BreaksAt(frames, k) {
      if k == 0 {
      } else if k < i {
        assert frames[1..i][k - 1].Data?;
      } else {
        assert !frames[..k][1..][i - 1].Data?;
      }
    }
  }

  lemma NeverBreaks<H>(frames: seq<Frame<H>>)
    requires WellFormed(frames)
    ensures !BreaksFirst(frames)
  {
    forall k | 0 <= k < |frames| ensures !BreaksAt(frames, k) { if k > 0 { assert frames[1..][k - 1].Data?; } }
  }

  lemma {:induction false} PayloadSplit<H>(a: seq<Frame<H>>, b: seq<Frame<H>>)
    requires AllData(a) && AllData(b)
    ensures AllData(a + b) && Payload(a + b) == Payload(a) + Payload(b)
  {
    if a == [] {
      assert a + b == b;
    } else {
      assert (a + b)[1..] == a[1..] + b;
      PayloadSplit(a[1..], b);
    }
  }

  /** One more data frame after the first `i`. */
  lemma ExtendPayload<H>(frames: seq<Frame<H>>, i: nat)
    requires 1 <= i < |frames| && AllData(frames[1..i]) && frames[i].Data?
    ensures AllData(frames[1..i + 1]) && Payload(frames[1..i + 1]) == Payload(frames[1..i]) + frames[i].bytes
  {
    var last := [frames[i]];
    assert frames[1..i + 1] == frames[1..i] + last;
    PayloadSplit(frames[1..i], last);
    assert Payload(last) == frames[i].bytes + Payload(last[1..]);
  }

  lemma {:induction false} PayloadOfChunks<H>(chunks: seq<seq<byte>>, frames: seq<Frame<H>>)
    requires |frames| == |chunks| && forall i :: 0 <= i < |chunks| ==> frames[i] == Data(chunks[i])
    ensures AllData(frames) && Payload(frames) == Concat(chunks)
  {
    if chunks == [] {
    } else {
      PayloadOfChunks(chunks[1..], frames[1..]);
    }
  }

  lemma StreamRoundTrip<H>(head: H, data: seq<byte>)
    ensures var frames := FramesOf(head, data);
            && WellFormed(frames) && Payload(frames[1..]) == data
            && |frames| - 1 == (|data| + CHUNK - 1) / CHUNK
            && (forall i :: 1 <= i < |frames| ==> 0 < |frames[i].bytes| <= CHUNK)
  {
    ChunksOf(data);
    PayloadOfChunks(Chunks(data), FramesOf(head, data)[1..]);
  }

  // ---------- Pull ----------

  function PullFrames(obj: Object): seq<PullChunk> { FramesOf(Meta(obj.metadata, |obj.data|), obj.data) }

  /** The server's streaming loop over an opened read handle. */
  method ServePull(obj: Object) returns (frames: seq<PullChunk>)
    ensures frames == PullFrames(obj)
  {
    frames := [Head(Meta(obj.metadata, |obj.data|))];
    var start := 0;
    ghost var sent: seq<seq<byte>> := [];
    while start < |obj.data|
      invariant 0 <= start <= |obj.data|
      invariant Chunks(obj.data) == sent + Chunks(obj.data[start..])
      invariant |frames| == 1 + |sent| && frames[0] == Head(Meta(obj.metadata, |obj.data|))
      invariant forall i :: 0 <= i < |sent| ==> frames[i + 1] == Data(sent[i])
    {
      var end := if start + CHUNK < |obj.data| then start + CHUNK else |obj.data|;
      NextChunk(obj.data, start, end);
      var chunk := obj.data[start..end];
      frames := frames + [Data(chunk)];
      sent := sent + [chunk];
      start := end;
    }
    assert Chunks(obj.data) == sent;
    assert frames == PullFrames(obj);
  }

  /** One metadata frame, then only data frames, totalling the announced size. */
  predicate IsPull(frames: seq<PullChunk>) {
    WellFormed(frames) && |Payload(frames[1..])| == frames[0].head.dataSize
  }

  /** The client's reassembly loop. */
  method Reassemble(frames: seq<PullChunk>) returns (r: PullResult)
    ensures r.Pulled? <==> IsPull(frames)
    ensures r.Pulled? <==> WellFormed(frames) && |Payload(frames[1..])| == frames[0].head.dataSize
    ensures r.Pulled? ==> r.obj == Object(frames[0].head.metadata, Payload(frames[1..]))
    ensures r.ShortRead? <==> WellFormed(frames) && !IsPull(frames)
    ensures r.ShortRead? ==> r == ShortRead(frames[0].head.dataSize, |Payload(frames[1..])|)
    ensures r.PullFailed? <==> BreaksFirst(frames)
  {
    if frames == [] { return Malformed; }
    if frames[0].Broken? {
      assert BreaksAt(frames, 0);
      return PullFailed;
    }
    if !frames[0].Head? {
      forall k | 0 <= k < |frames| ensures !BreaksAt(frames, k) { }
      return Malformed;
    }
    var data: seq<byte> := [];
    for i := 1 to |frames|
      invariant AllData(frames[1..i]) && data == Payload(frames[1..i])
    {
      if frames[i].Broken? {
        assert !frames[1..][i - 1].Data?;
        BreaksHere(frames, i);
        return PullFailed;
      }
      if !frames[i].Data? {
        assert !frames[1..][i - 1].Data?;
        BreaksHere(frames, i);
        return Malformed;
      }
      ExtendPayload(frames, i);
      data := data + frames[i].bytes;
    }
    assert frames[1..|frames|] == frames[1..];
    NeverBreaks(frames);
    if |data| != frames[0].head.dataSize { return ShortRead(frames[0].head.dataSize, |data|); }
    return Pulled(Object(frames[0].head.metadata, data));
  }

  /** Whatever the object's size, the frames the server sends reassemble to it, in the least number of
      data frames, none of them empty. */
  lemma PullRoundTrip(obj: Object)
    ensures var frames := PullFrames(obj);
            && IsPull(frames)
            && Object(frames[0].head.metadata, Payload(frames[1..])) == obj
            && |frames| - 1 == (|obj.data| + CHUNK - 1) / CHUNK
            && (forall i :: 1 <= i < |frames| ==> 0 < |frames[i].bytes| <= CHUNK)
  {
    StreamRoundTrip(Meta(obj.metadata, |obj.data|), obj.data);
  }

  // ---------- Push ----------

  function PushFrames(id: ObjectId, obj: Object): seq<PushFrame> {
    FramesOf(Header(id, obj.metadata, |obj.data|), obj.data)
  }

  predicate IsPush(frames: seq<PushFrame>) {
    && WellFormed(frames) && |frames[0].head.id| == ID_SIZE
    && |Payload(frames[1..])| == frames[0].head.dataSize
  }

  /** Some stretch of data frames after the header is longer than the header announced. */
  ghost predicate Overruns(frames: seq<PushFrame>) { exists k :: 1 <= k <= |frames| && OverrunsAt(frames, k) }

  predicate OverrunsAt(frames: seq<PushFrame>, k: nat)
    requires 1 <= k <= |frames|
  {
    frames[0].Head? && AllData(frames[1..k]) && |Payload(frames[1..k])| > frames[0].head.dataSize
  }

  /** The server's accumulator: it stops at the first frame that cannot belong. */
  method AcceptPush(frames: seq<PushFrame>) returns (r: PushResult)
    ensures r.Accepted? <==> IsPush(frames)
    ensures r.Accepted? <==>
            WellFormed(frames) && |frames[0].head.id| == 28 && |Payload(frames[1..])| == frames[0].head.dataSize
    ensures r.Accepted? ==> r == Accepted(frames[0].head.id, Object(frames[0].head.metadata, Payload(frames[1..])))
    ensures r.PushFailed? ==> BreaksFirst(frames)
    ensures r.InvalidArgument? && BreaksFirst(frames) ==>
            frames[0].Head? && (|frames[0].head.id| != ID_SIZE || Overruns(frames))
  {
    if frames == [] { return InvalidArgument; }
    if frames[0].Broken? {
      assert BreaksAt(frames, 0);
      return PushFailed;
    }
    if !frames[0].Head? {
      forall k | 0 <= k < |frames| ensures !BreaksAt(frames, k) { }
      return InvalidArgument;
    }
    var header := frames[0].head;
    if |header.id| != ID_SIZE { return InvalidArgument; }
    var data: seq<byte> := [];
    for i := 1 to |frames|
      invariant AllData(frames[1..i]) && data == Payload(frames[1..i]) && |data| <= header.dataSize
    {
      if frames[i].Broken? {
        assert !frames[1..][i - 1].Data?;
        BreaksHere(frames, i);
        return PushFailed;
      }
      if !frames[i].Data? {
        assert !frames[1..][i - 1].Data?;
        BreaksHere(frames, i);
        return InvalidArgument;
      }
      ExtendPayload(frames, i);
      if |data| + |frames[i].bytes| > header.dataSize {
        OverrunIsFinal(frames, i);
        assert OverrunsAt(frames, i + 1);
        return InvalidArgument;
      }
      data := data + frames[i].bytes;
    }
    assert frames[1..|frames|] == frames[1..];
    NeverBreaks(frames);
    if |data| != header.dataSize { return InvalidArgument; }
    return Accepted(header.id, Object(header.metadata, data));
  }

  /** More data than announced cannot be made good by later frames. */
  lemma OverrunIsFinal(frames: seq<PushFrame>, i: nat)
    requires 1 <= i < |frames| && frames[0].Head? && AllData(frames[1..i + 1])
    requires |Payload(frames[1..i + 1])| > frames[0].head.dataSize
    ensures !IsPush(frames)
  {
    if AllData(frames[1..]) {
      var tail := frames[i + 1..];
      assert frames[1..] == frames[1..i + 1] + tail;
      forall k | 0 <= k < |tail| ensures tail[k].Data? { assert tail[k] == frames[1..][i + k]; }
      PayloadSplit(frames[1..i + 1], tail);
    }
  }

  /** What the client pushes is accepted, and sealed as it was. */
  lemma PushRoundTrip(id: ObjectId, obj: Object)
    requires |id| == ID_SIZE
    ensures var frames := PushFrames(id, obj);
            && IsPush(frames) && frames[0].head.id == id
            && Object(frames[0].head.metadata, Payload(frames[1..])) == obj
  {
    StreamRoundTrip(Header(id, obj.metadata, |obj.data|), obj.data);
  }

  /** Handling a whole push: an object that is there already counts as success and is left alone. */
  method ReceivePush(frames: seq<PushFrame>, plasma: map<ObjectId, Object>)
    returns (ok: bool, plasma': map<ObjectId, Object>)
    ensures ok <==>
            WellFormed(frames) && |frames[0].head.id| == 28 && |Payload(frames[1..])| == frames[0].head.dataSize
    ensures !ok ==> plasma' == plasma
    ensures ok ==> plasma' == if frames[0].head.id in plasma then plasma
                              else plasma[frames[0].head.id := Object(frames[0].head.metadata, Payload(frames[1..]))]
  {
    var r := AcceptPush(frames);
    if !r.Accepted? { return false, plasma; }
    if r.id in plasma { return true, plasma; }
    return true, plasma[r.id := r.obj];
  }
}
