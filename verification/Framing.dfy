/** Length-prefixed frames over a stream socket that may deliver its bytes in any pieces. */
module Framing {
  import opened Bytes

  const MAX_FRAME_BYTES: nat := 0x400_0000

  /** A complete body, a clean end, a length over the cap, or an end in the middle of a body. */
  datatype Received = Frame(body: seq<byte>) | Eof | TooLarge | CutOff

  function FrameOf(body: seq<byte>): seq<byte> { ToLe(|body|, 4) + body }

  function FramesOf(bodies: seq<seq<byte>>): seq<byte> {
    if bodies == [] then [] else FrameOf(bodies[0]) + FramesOf(bodies[1..])
  }

  /** What one receive makes of the bytes still to come, and what it leaves. */
  function Receive(stream: seq<byte>): (Received, seq<byte>) {
    if |stream| < 4 then (Eof, [])
    else
      var length := FromLe(stream[..4]);
      if length > MAX_FRAME_BYTES then (TooLarge, stream[4..])
      else if |stream| < 4 + length then (CutOff, [])
      else (Frame(stream[4..4 + length]), stream[4 + length..])
  }

  /** Receiving until something other than a frame comes. */
  function ReceiveAll(stream: seq<byte>): (seq<seq<byte>>, Received)
    decreases |stream|
  {
    var (r, rest) := Receive(stream);
    if !r.Frame? then ([], r)
    else var (bodies, last) := ReceiveAll(rest); ([r.body] + bodies, last)
  }

  // ---------- The socket ----------

  class Socket {
    /** Bytes sent by the peer before it closed and not read yet. */
    var incoming: seq<byte>
    /** How the kernel happens to split the reads to come. */
    var splits: seq<nat>

    constructor (incoming: seq<byte>, splits: seq<nat>)
      ensures this.incoming == incoming
    {
      this.incoming := incoming;
      this.splits := splits;
    }

    /** Some of the bytes, at least one unless the peer has closed and all are read. */
    method Recv(n: nat) returns (chunk: seq<byte>)
      modifies this
      ensures chunk + incoming == old(incoming)
      ensures |chunk| <= n && (chunk == [] <==> n == 0 || old(incoming) == [])
    {
      var most := if n < |incoming| then n else |incoming|;
      var size := if splits == [] || splits[0] > most then most
                  else if splits[0] == 0 && most > 0 then 1
                  else splits[0];
      if splits != [] { splits := splits[1..]; }
      chunk := incoming[..size];
      incoming := incoming[size..];
    }

    /** Python's receive loop: collect chunks until `n` bytes are there or the peer is gone. */
    method RecvExact(n: nat) returns (r: Option<seq<byte>>)
      modifies this
      ensures |old(incoming)| >= n ==> r == Some(old(incoming)[..n]) && incoming == old(incoming)[n..]
      ensures |old(incoming)| < n ==> r == None && incoming == []
    {
      var got: seq<byte> := [];
      var remaining := n;
      while remaining > 0
        invariant 0 <= remaining && |got| + remaining == n
        invariant got + incoming == old(incoming)
      {
        var chunk := Recv(remaining);
        if chunk == [] { return None; }
        got := got + chunk;
        remaining := remaining - |chunk|;
      }
      assert got == old(incoming)[..n] && incoming == old(incoming)[n..];
      return Some(got);
    }

    /** Rust's `read_exact`: fill a buffer in place. */
    method ReadExact(buf: array<byte>) returns (ok: bool)
      modifies this, buf
      ensures ok <==> |old(incoming)| >= buf.Length
      ensures ok ==> buf[..] == old(incoming)[..buf.Length] && incoming == old(incoming)[buf.Length..]
      ensures !ok ==> incoming == []
    {
      var filled := 0;
      while filled < buf.Length
        invariant 0 <= filled <= buf.Length
        invariant buf[..filled] + incoming == old(incoming)
      {
        var chunk := Recv(buf.Length - filled);
        if chunk == [] { return false; }
        ghost var before := buf[..filled];
        forall i | 0 <= i < |chunk| { buf[filled + i] := chunk[i]; }
        assert buf[..filled + |chunk|] == before + chunk;
        filled := filled + |chunk|;
      }
      assert buf[..filled] == buf[..];
      return true;
    }

    /** The worker's side. */
    method RecvFrame() returns (r: Received)
      modifies this
      ensures (r, incoming) == Receive(old(incoming))
    {
      var header := RecvExact(4);
      if header.None? { return Eof; }
      var length := FromLe(header.value);
      if length > MAX_FRAME_BYTES { return TooLarge; }
      var body := RecvExact(length);
      if body.None? { return CutOff; }
      assert old(incoming)[4..][..length] == old(incoming)[4..4 + length];
      assert old(incoming)[4..][length..] == old(incoming)[4 + length..];
      return Frame(body.value);
    }

    /** The driver's side. */
    method ReadFrame() returns (r: Received)
      modifies this
      ensures (r, incoming) == Receive(old(incoming))
    {
      var header := new byte[4];
      var ok := ReadExact(header);
      if !ok { return Eof; }
      var length := FromLe(header[..]);
      if length > MAX_FRAME_BYTES { return TooLarge; }
      var body := new byte[length];
      ok := ReadExact(body);
      if !ok { return CutOff; }
      assert old(incoming)[4..][..length] == old(incoming)[4..4 + length];
      assert old(incoming)[4..][length..] == old(incoming)[4 + length..];
      return Frame(body[..]);
    }

    /** A peer's whole reading of the connection. */
    method RecvAll() returns (bodies: seq<seq<byte>>, last: Received)
      modifies this
      ensures (bodies, last) == ReceiveAll(old(incoming))
    {
      bodies := [];
      while true
        invariant bodies + ReceiveAll(incoming).0 == ReceiveAll(old(incoming)).0
        invariant ReceiveAll(incoming).1 == ReceiveAll(old(incoming)).1
        decreases |incoming|
      {
        ghost var stream := incoming;
        last := RecvFrame();
        if !last.Frame? {
          assert bodies == bodies + [];
          return bodies, last;
        }
        assert ReceiveAll(stream).0 == [last.body] + ReceiveAll(incoming).0;
        bodies := bodies + [last.body];
      }
    }
  }

  // ---------- What arrives is what was sent ----------

  predicate Sendable(bodies: seq<seq<byte>>) { forall i :: 0 <= i < |bodies| ==> |bodies[i]| <= MAX_FRAME_BYTES }

  lemma HeaderReadsBack(body: seq<byte>, rest: seq<byte>)
    requires |body| < 0x1_0000_0000
    ensures var stream := FrameOf(body) + rest;
            FromLe(stream[..4]) == |body| && stream[4..] == body + rest
  {
    Widths();
    LeRoundTrip(|body|, 4);
    var header, stream := ToLe(|body|, 4), FrameOf(body) + rest;
    assert |header| == 4 && stream == header + (body + rest);
    assert stream[..4] == header && stream[4..] == body + rest;
  }

  lemma ReceiveOne(body: seq<byte>, rest: seq<byte>)
    requires |body| < 0x1_0000_0000
    ensures |body| <= MAX_FRAME_BYTES ==> Receive(FrameOf(body) + rest) == (Frame(body), rest)
    ensures |body| > MAX_FRAME_BYTES ==> Receive(FrameOf(body) + rest).0 == TooLarge
  {
    HeaderReadsBack(body, rest);
    var stream := FrameOf(body) + rest;
    if |body| <= MAX_FRAME_BYTES {
      assert stream[4..4 + |body|] == body && stream[4 + |body|..] == rest;
    }
  }

  /** A body is received exactly when its frame, within the cap, comes next. */
  lemma {:induction false} ReceivesIff(stream: seq<byte>, body: seq<byte>, rest: seq<byte>)
    ensures Receive(stream) == (Frame(body), rest) <==> |body| <= MAX_FRAME_BYTES && stream == FrameOf(body) + rest
  {
    if Receive(stream) == (Frame(body), rest) {
      LeBack(stream[..4]);
      assert stream == stream[..4] + stream[4..4 + |body|] + stream[4 + |body|..];
      assert stream == FrameOf(body) + rest;
    }
    if |body| <= MAX_FRAME_BYTES { ReceiveOne(body, rest); }
  }

  /** For any list of bodies within the cap, receiving yields exactly that list and then the end. */
  lemma {:induction false} ReceivesWhatWasSent(bodies: seq<seq<byte>>)
    requires Sendable(bodies)
    ensures ReceiveAll(FramesOf(bodies)) == (bodies, Eof)
  {
    if bodies == [] {
    } else {
      ReceiveOne(bodies[0], FramesOf(bodies[1..]));
      ReceivesWhatWasSent(bodies[1..]);
      assert bodies == [bodies[0]] + bodies[1..];
    }
  }

  /** A connection that breaks anywhere yields exactly the bodies sent completely before that point, in
      order: the longest run of them that fits. Then comes the end if it broke within four bytes of the last
      one, that is, between frames or in a length prefix, and a cut-off body otherwise. */
  lemma {:induction false} BreaksCleanly(bodies: seq<seq<byte>>, n: nat)
    requires Sendable(bodies) && n <= |FramesOf(bodies)|
    ensures var (got, last) := ReceiveAll(FramesOf(bodies)[..n]);
            && got <= bodies && |FramesOf(got)| <= n
            && last == (if n < |FramesOf(got)| + 4 then Eof else CutOff)
            && (|got| < |bodies| ==> |FramesOf(got)| + |FrameOf(bodies[|got|])| > n)
  {
    if bodies == [] {
    } else {
      var rest, first := FramesOf(bodies[1..]), FrameOf(bodies[0]);
      if n >= |first| {
        assert FramesOf(bodies)[..n] == first + rest[..n - |first|];
        ReceiveOne(bodies[0], rest[..n - |first|]);
        BreaksCleanly(bodies[1..], n - |first|);
        OneMore(bodies, ReceiveAll(rest[..n - |first|]).0);
      } else {
        BreaksInFirst(bodies[0], rest, n);
      }
    }
  }

  lemma OneMore(bodies: seq<seq<byte>>, got: seq<seq<byte>>)
    requires bodies != [] && got <= bodies[1..]
    ensures [bodies[0]] + got <= bodies && FramesOf([bodies[0]] + got) == FrameOf(bodies[0]) + FramesOf(got)
    ensures |got| < |bodies[1..]| ==> bodies[1..][|got|] == bodies[|got| + 1]
  {
    assert ([bodies[0]] + got)[1..] == got;
  }

  lemma BreaksInFirst(body: seq<byte>, rest: seq<byte>, n: nat)
    requires |body| <= MAX_FRAME_BYTES && n < |FrameOf(body)|
    ensures Receive((FrameOf(body) + rest)[..n]).0 == if n < 4 then Eof else CutOff
  {
    HeaderReadsBack(body, rest);
    if n >= 4 { assert (FrameOf(body) + rest)[..n][..4] == (FrameOf(body) + rest)[..4]; }
  }

  // ---------- Sending ----------

  /** The worker refuses a body over the cap. */
  method SendFrame(outgoing: seq<byte>, body: seq<byte>) returns (r: Option<seq<byte>>)
    ensures r.Some? <==> |body| <= MAX_FRAME_BYTES
    ensures r.Some? ==> r.value == outgoing + FrameOf(body)
  {
    if |body| > MAX_FRAME_BYTES { return None; }
    return Some(outgoing + (ToLe(|body|, 4) + body));
  }

  /** The driver refuses only a body whose length does not fit the prefix, so a body between the two
      limits is sent and then rejected by every receiver. */
  method WriteFrame(outgoing: seq<byte>, body: seq<byte>) returns (r: Option<seq<byte>>)
    ensures r.Some? <==> |body| < 0x1_0000_0000
    ensures r.Some? ==> r.value == outgoing + FrameOf(body)
    ensures r.Some? ==> (forall rest :: Receive(FrameOf(body) + rest).0 == Frame(body) <==> |body| <= MAX_FRAME_BYTES)
  {
    if |body| >= 0x1_0000_0000 { return None; }
    forall rest ensures Receive(FrameOf(body) + rest).0 == Frame(body) <==> |body| <= MAX_FRAME_BYTES {
      ReceiveOne(body, rest);
    }
    var out := outgoing + ToLe(|body|, 4);
    out := out + body;
    assert out == outgoing + FrameOf(body);
    return Some(out);
  }
}
