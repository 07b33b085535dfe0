/** The wire form of a task error, written by the driver in Rust and by workers in Python. */
module ErrorPayload {
  import opened Bytes

  /** Which byte strings are UTF-8 is left open. */
  type Utf8 = seq<byte> -> bool

  datatype Payload = Payload(message: seq<byte>, traceback: Option<seq<byte>>, rawCode: nat, pickled: Option<seq<byte>>)

  datatype Error =
    | Truncated(needed: nat)
    | LengthOverflow(claimed: nat, remaining: nat)
    | InvalidUtf8
    | InvalidFlag(value: byte)

  datatype Result<T> = Ok(value: T) | Err(error: Error)

  const U32: nat := 0x1_0000_0000

  // ---------- Encoding ----------

  function Prefixed(bytes: seq<byte>): seq<byte> { ToLe(|bytes|, 4) + bytes }

  function Optional(bytes: Option<seq<byte>>): seq<byte> {
    if bytes.None? then [0] else [1] + Prefixed(bytes.value)
  }

  function Encode(p: Payload): seq<byte> {
    Prefixed(p.message) + Optional(p.traceback) + ToLe(p.rawCode, 2) + Optional(p.pickled)
  }

  // ---------- Decoding ----------

  /** A value read off the front, and the bytes after it. */
  datatype Read<T> = Read(value: T, rest: seq<byte>)

  function ReadInt(buf: seq<byte>, width: nat): Result<Read<nat>> {
    if |buf| < width then Err(Truncated(width - |buf|)) else Ok(Read(FromLe(buf[..width]), buf[width..]))
  }

  function ReadFlag(buf: seq<byte>): Result<Read<bool>> {
    if |buf| < 1 then Err(Truncated(1))
    else if buf[0] == 0 then Ok(Read(false, buf[1..]))
    else if buf[0] == 1 then Ok(Read(true, buf[1..]))
    else Err(InvalidFlag(buf[0]))
  }

  function ReadBytes(buf: seq<byte>): Result<Read<seq<byte>>> {
    match ReadInt(buf, 4)
    case Err(e) => Err(e)
    case Ok(r) =>
      if |r.rest| < r.value then Err(LengthOverflow(r.value, |r.rest|))
      else Ok(Read(r.rest[..r.value], r.rest[r.value..]))
  }

  function ReadString(utf8: Utf8, buf: seq<byte>): Result<Read<seq<byte>>> {
    match ReadBytes(buf)
    case Err(e) => Err(e)
    case Ok(r) => if utf8(r.value) then Ok(r) else Err(InvalidUtf8)
  }

  /** A flag, and a section after it when the flag is set. */
  function ReadOptional(utf8: Option<Utf8>, buf: seq<byte>): Result<Read<Option<seq<byte>>>> {
    match ReadFlag(buf)
    case Err(e) => Err(e)
    case Ok(flag) =>
      if !flag.value then Ok(Read(None, flag.rest))
      else
        match if utf8.Some? then ReadString(utf8.value, flag.rest) else ReadBytes(flag.rest)
        case Err(e) => Err(e)
        case Ok(r) => Ok(Read(Some(r.value), r.rest))
  }

  function DecodeTail(message: seq<byte>, traceback: Option<seq<byte>>, buf: seq<byte>): Result<Payload> {
    match ReadInt(buf, 2)
    case Err(e) => Err(e)
    case Ok(rawCode) =>
      match ReadOptional(None, rawCode.rest)
      case Err(e) => Err(e)
      case Ok(pickled) => Ok(Payload(message, traceback, rawCode.value, pickled.value))
  }

  function DecodeRest(utf8: Utf8, message: seq<byte>, buf: seq<byte>): Result<Payload> {
    match ReadOptional(Some(utf8), buf)
    case Err(e) => Err(e)
    case Ok(traceback) => DecodeTail(message, traceback.value, traceback.rest)
  }

  function Decode(utf8: Utf8, buf: seq<byte>): Result<Payload> {
    match ReadString(utf8, buf)
    case Err(e) => Err(e)
    case Ok(message) => DecodeRest(utf8, message.value, message.rest)
  }

  // ---------- Round trip ----------

  predicate Fits(bytes: seq<byte>) { |bytes| < U32 }

  /** The length limits the encoder insists on, and strings that are strings. */
  predicate Encodable(utf8: Utf8, p: Payload) {
    && Fits(p.message) && utf8(p.message) && p.rawCode < 0x1_0000
    && (p.traceback.Some? ==> Fits(p.traceback.value) && utf8(p.traceback.value))
    && (p.pickled.Some? ==> Fits(p.pickled.value))
  }

  lemma IntReadsBack(v: nat, width: nat, tail: seq<byte>)
    requires v < Pow256(width)
    ensures ReadInt(ToLe(v, width) + tail, width) == Ok(Read(v, tail))
  {
  }

  lemma BytesReadBack(bytes: seq<byte>, tail: seq<byte>)
    requires Fits(bytes)
    ensures ReadBytes(Prefixed(bytes) + tail) == Ok(Read(bytes, tail))
  {
    Widths();
    assert Prefixed(bytes) + tail == ToLe(|bytes|, 4) + (bytes + tail);
    IntReadsBack(|bytes|, 4, bytes + tail);
  }

  lemma FlagFirst(flag: seq<byte>, bytes: seq<byte>, tail: seq<byte>)
    ensures (flag + bytes) + tail == flag + (bytes + tail)
  {
  }

  lemma PresentReadsBack(utf8: Option<Utf8>, rest: seq<byte>, value: seq<byte>, tail: seq<byte>)
    requires ReadBytes(rest) == Ok(Read(value, tail)) && (utf8.Some? ==> utf8.value(value))
    ensures ReadOptional(utf8, [1] + rest) == Ok(Read(Some(value), tail))
  {
    assert ([1] + rest)[1..] == rest;
  }

  lemma AbsentReadsBack(utf8: Option<Utf8>, tail: seq<byte>)
    ensures ReadOptional(utf8, [0] + tail) == Ok(Read(None, tail))
  {
    assert ([0] + tail)[1..] == tail;
  }

  lemma OptionalReadsBack(utf8: Option<Utf8>, bytes: Option<seq<byte>>, tail: seq<byte>)
    requires bytes.Some? ==> Fits(bytes.value) && (utf8.Some? ==> utf8.value(bytes.value))
    ensures ReadOptional(utf8, Optional(bytes) + tail) == Ok(Read(bytes, tail))
  {
    if bytes.Some? {
      BytesReadBack(bytes.value, tail);
      PresentReadsBack(utf8, Prefixed(bytes.value) + tail, bytes.value, tail);
      FlagFirst([1], Prefixed(bytes.value), tail);
    } else {
      AbsentReadsBack(utf8, tail);
    }
  }

  /** Decoding inverts encoding and ignores whatever follows. */
  lemma {:induction false} DecodeInvertsEncode(utf8: Utf8, p: Payload, tail: seq<byte>)
    requires Encodable(utf8, p)
    ensures Decode(utf8, Encode(p) + tail) == Ok(p)
  {
    Widths();
    var c := Optional(p.pickled) + tail;
    var b := ToLe(p.rawCode, 2) + c;
    var a := Optional(p.traceback) + b;
    assert Encode(p) + tail == Prefixed(p.message) + a;
    BytesReadBack(p.message, a);
    OptionalReadsBack(Some(utf8), p.traceback, b);
    IntReadsBack(p.rawCode, 2, c);
    OptionalReadsBack(None, p.pickled, tail);
  }

  // ---------- Nothing else is accepted ----------

  function Tail(p: Payload): seq<byte> { ToLe(p.rawCode, 2) + Optional(p.pickled) }

  lemma EncodeInParts(p: Payload)
    ensures Encode(p) == Prefixed(p.message) + (Optional(p.traceback) + Tail(p))
  {
    var a, b, c, d := Prefixed(p.message), Optional(p.traceback), ToLe(p.rawCode, 2), Optional(p.pickled);
    assert a + b + c + d == a + (b + (c + d));
  }

  lemma {:induction false} IntOnlyFrom(buf: seq<byte>, width: nat)
    requires ReadInt(buf, width).Ok?
    ensures var r := ReadInt(buf, width).value; r.value < Pow256(width) && buf == ToLe(r.value, width) + r.rest
  {
    var head, rest := buf[..width], buf[width..];
    assert |head| == width && buf == head + rest;
    LeBack(head);
  }

  lemma {:induction false} BytesOnlyFrom(buf: seq<byte>)
    requires ReadBytes(buf).Ok?
    ensures var r := ReadBytes(buf).value; Fits(r.value) && buf == Prefixed(r.value) + r.rest
  {
    Widths();
    IntOnlyFrom(buf, 4);
    var len, r := ReadInt(buf, 4).value, ReadBytes(buf).value;
    assert len.rest == r.value + r.rest;
    assert ToLe(|r.value|, 4) + (r.value + r.rest) == Prefixed(r.value) + r.rest;
  }

  lemma {:induction false} OptionalOnlyFrom(utf8: Option<Utf8>, buf: seq<byte>)
    requires ReadOptional(utf8, buf).Ok?
    ensures var r := ReadOptional(utf8, buf).value;
            && buf == Optional(r.value) + r.rest
            && (r.value.Some? ==> Fits(r.value.value) && (utf8.Some? ==> utf8.value(r.value.value)))
  {
    var flag, r := ReadFlag(buf).value, ReadOptional(utf8, buf).value;
    assert buf == [buf[0]] + flag.rest;
    if flag.value {
      BytesOnlyFrom(flag.rest);
      FlagFirst([1], Prefixed(r.value.value), r.rest);
    }
  }

  lemma {:induction false} TailOnlyFrom(message: seq<byte>, traceback: Option<seq<byte>>, buf: seq<byte>)
    requires DecodeTail(message, traceback, buf).Ok?
    ensures var p := DecodeTail(message, traceback, buf).value;
            && p.message == message && p.traceback == traceback && p.rawCode < 0x1_0000
            && (p.pickled.Some? ==> Fits(p.pickled.value)) && Tail(p) <= buf
  {
    Widths();
    IntOnlyFrom(buf, 2);
    var code := ReadInt(buf, 2).value;
    OptionalOnlyFrom(None, code.rest);
    var pickled := ReadOptional(None, code.rest).value;
    FlagFirst(ToLe(code.value, 2), Optional(pickled.value), pickled.rest);
  }

  lemma {:induction false} RestOnlyFrom(utf8: Utf8, message: seq<byte>, buf: seq<byte>)
    requires DecodeRest(utf8, message, buf).Ok?
    ensures var p := DecodeRest(utf8, message, buf).value;
            && p.message == message && p.rawCode < 0x1_0000 && (p.pickled.Some? ==> Fits(p.pickled.value))
            && (p.traceback.Some? ==> Fits(p.traceback.value) && utf8(p.traceback.value))
            && Optional(p.traceback) + Tail(p) <= buf
  {
    OptionalOnlyFrom(Some(utf8), buf);
    var t := ReadOptional(Some(utf8), buf).value;
    TailOnlyFrom(message, t.value, t.rest);
    PrefixAfter(Optional(t.value), Tail(DecodeRest(utf8, message, buf).value), t.rest);
  }

  lemma PrefixAfter(a: seq<byte>, b: seq<byte>, rest: seq<byte>)
    requires b <= rest
    ensures a + b <= a + rest
  {
  }

  /** Bytes decode to a payload exactly when they start with its encoding: no other flag, length or string is
      let through. */
  lemma {:induction false} DecodesIff(utf8: Utf8, buf: seq<byte>, p: Payload)
    ensures Decode(utf8, buf) == Ok(p) <==> Encodable(utf8, p) && Encode(p) <= buf
  {
    EncodeInParts(p);
    if Decode(utf8, buf) == Ok(p) {
      BytesOnlyFrom(buf);
      var m := ReadBytes(buf).value;
      RestOnlyFrom(utf8, m.value, m.rest);
      PrefixAfter(Prefixed(p.message), Optional(p.traceback) + Tail(p), m.rest);
    }
    if Encodable(utf8, p) && Encode(p) <= buf {
      assert Encode(p) + buf[|Encode(p)|..] == buf;
      DecodeInvertsEncode(utf8, p, buf[|Encode(p)|..]);
    }
  }

  /** Where the sections are: the message's length and bytes, a traceback flag and section, two bytes of
      code, a flag and section for the pickled exception. */
  lemma EncodeLayout(p: Payload)
    ensures var e, m, t := Encode(p), |p.message|, |Optional(p.traceback)|;
            && |e| >= 4 + m + t + 2 && e[..4] == ToLe(m, 4) && e[4..4 + m] == p.message
            && e[4 + m..4 + m + t] == Optional(p.traceback)
            && e[4 + m + t..6 + m + t] == ToLe(p.rawCode, 2) && e[6 + m + t..] == Optional(p.pickled)
  {
    EncodeInParts(p);
    var m, rest := Prefixed(p.message), Optional(p.traceback) + Tail(p);
    assert (m + rest)[|m|..] == rest && (m + rest)[..4] == m[..4] && (m + rest)[4..|m|] == m[4..];
    assert rest[..|Optional(p.traceback)|] == Optional(p.traceback) && rest[|Optional(p.traceback)|..] == Tail(p);
  }

  lemma OptionalLayout(bytes: Option<seq<byte>>)
    ensures bytes.None? ==> Optional(bytes) == [0]
    ensures bytes.Some? ==> Optional(bytes)[0] == 1 && Optional(bytes)[1..5] == ToLe(|bytes.value|, 4) &&
                            Optional(bytes)[5..] == bytes.value
  {
  }

  /** What is wrong is named: a message that is no string, and a flag that is neither 0 nor 1. */
  lemma WrongIsNamed(utf8: Utf8, message: seq<byte>, flag: byte, rest: seq<byte>)
    requires Fits(message)
    ensures !utf8(message) ==> Decode(utf8, Prefixed(message) + rest) == Err(InvalidUtf8)
    ensures utf8(message) && flag > 1 ==> Decode(utf8, Prefixed(message) + ([flag] + rest)) == Err(InvalidFlag(flag))
  {
    BytesReadBack(message, rest);
    BytesReadBack(message, [flag] + rest);
  }

  // ---------- Cut short ----------

  /** What is reported when only `n` bytes of a section are there: how much of its length is missing, or the
      length it claims and what is left. */
  function SectionError(bytes: seq<byte>, n: nat): Error {
    if n < 4 then Truncated(4 - n) else LengthOverflow(|bytes|, n - 4)
  }

  function OptionalError(bytes: Option<seq<byte>>, n: nat): Error {
    if n == 0 || bytes.None? then Truncated(1) else SectionError(bytes.value, n - 1)
  }

  function TailError(p: Payload, n: nat): Error {
    if n < 2 then Truncated(2 - n) else OptionalError(p.pickled, n - 2)
  }

  function RestError(p: Payload, n: nat): Error {
    var t := |Optional(p.traceback)|;
    if n < t then OptionalError(p.traceback, n) else TailError(p, n - t)
  }

  function CutError(p: Payload, n: nat): (e: Error)
    ensures e.Truncated? || e.LengthOverflow?
  {
    var m := |Prefixed(p.message)|;
    if n < m then SectionError(p.message, n) else RestError(p, n - m)
  }

  lemma BytesCutShort(bytes: seq<byte>, n: nat)
    requires Fits(bytes) && n < |Prefixed(bytes)|
    ensures ReadBytes(Prefixed(bytes)[..n]) == Err(SectionError(bytes, n))
  {
    Widths();
    LeRoundTrip(|bytes|, 4);
    if n >= 4 {
      assert Prefixed(bytes)[..n][..4] == ToLe(|bytes|, 4);
    }
  }

  lemma ShortAfterFlag(utf8: Option<Utf8>, rest: seq<byte>)
    requires ReadBytes(rest).Err?
    ensures ReadOptional(utf8, [1] + rest) == Err(ReadBytes(rest).error)
  {
    assert ([1] + rest)[1..] == rest;
  }

  lemma OptionalCutShort(utf8: Option<Utf8>, bytes: Option<seq<byte>>, n: nat)
    requires bytes.Some? ==> Fits(bytes.value)
    requires n < |Optional(bytes)|
    ensures ReadOptional(utf8, Optional(bytes)[..n]) == Err(OptionalError(bytes, n))
  {
    if bytes.Some? && n > 0 {
      assert Optional(bytes)[..n] == [1] + Prefixed(bytes.value)[..n - 1];
      BytesCutShort(bytes.value, n - 1);
      ShortAfterFlag(utf8, Prefixed(bytes.value)[..n - 1]);
    }
  }

  lemma CutInTail(p: Payload, n: nat)
    requires p.rawCode < 0x1_0000 && (p.pickled.Some? ==> Fits(p.pickled.value)) && n < |Tail(p)|
    ensures DecodeTail(p.message, p.traceback, Tail(p)[..n]) == Err(TailError(p, n))
  {
    if n >= 2 {
      Widths();
      assert Tail(p)[..n] == ToLe(p.rawCode, 2) + Optional(p.pickled)[..n - 2];
      IntReadsBack(p.rawCode, 2, Optional(p.pickled)[..n - 2]);
      OptionalCutShort(None, p.pickled, n - 2);
    }
  }

  /** A prefix of two parts is a prefix of the first, or the first and a prefix of the second. */
  lemma CutInParts(a: seq<byte>, b: seq<byte>, n: nat)
    requires n <= |a + b|
    ensures n < |a| ==> (a + b)[..n] == a[..n]
    ensures n >= |a| ==> (a + b)[..n] == a + b[..n - |a|]
  {
  }

  lemma CutInRest(utf8: Utf8, p: Payload, n: nat)
    requires Encodable(utf8, p) && n < |Optional(p.traceback) + Tail(p)|
    ensures DecodeRest(utf8, p.message, (Optional(p.traceback) + Tail(p))[..n]) == Err(RestError(p, n))
  {
    var t, rest := Optional(p.traceback), Tail(p);
    CutInParts(t, rest, n);
    if n < |t| {
      OptionalCutShort(Some(utf8), p.traceback, n);
    } else {
      OptionalReadsBack(Some(utf8), p.traceback, rest[..n - |t|]);
      CutInTail(p, n - |t|);
    }
  }

  lemma CutInMessage(utf8: Utf8, message: seq<byte>, n: nat)
    requires Fits(message) && n < |Prefixed(message)|
    ensures Decode(utf8, Prefixed(message)[..n]) == Err(SectionError(message, n))
  {
    BytesCutShort(message, n);
  }

  lemma CutAfterMessage(utf8: Utf8, p: Payload, cut: seq<byte>)
    requires Encodable(utf8, p) && DecodeRest(utf8, p.message, cut).Err?
    ensures Decode(utf8, Prefixed(p.message) + cut) == Err(DecodeRest(utf8, p.message, cut).error)
  {
    BytesReadBack(p.message, cut);
  }

  /** Every strict prefix of an encoding is rejected for its length, never read as something else: the error
      says how many bytes of a fixed field are missing, or what length a section claims and what is left. */
  lemma {:induction false} CutShortIsRejected(utf8: Utf8, p: Payload, n: nat)
    requires Encodable(utf8, p) && n < |Encode(p)|
    ensures Decode(utf8, Encode(p)[..n]) == Err(CutError(p, n))
    ensures CutError(p, n).Truncated? || CutError(p, n).LengthOverflow?
  {
    var m, rest := Prefixed(p.message), Optional(p.traceback) + Tail(p);
    EncodeInParts(p);
    CutInParts(m, rest, n);
    if n < |m| {
      CutInMessage(utf8, p.message, n);
    } else {
      CutInRest(utf8, p, n - |m|);
      CutAfterMessage(utf8, p, rest[..n - |m|]);
    }
  }

  // ---------- The Python worker ----------

  /** The worker joins a list of parts; it always writes a traceback and the code 0. */
  method BuildErrorPayload(message: seq<byte>, traceback: seq<byte>, pickled: Option<seq<byte>>)
      returns (out: seq<byte>)
    requires Fits(message) && Fits(traceback) && (pickled.Some? ==> Fits(pickled.value))
    ensures out == Encode(Payload(message, Some(traceback), 0, pickled))
    ensures forall utf8: Utf8 :: utf8(message) && utf8(traceback) ==>
              Decode(utf8, out) == Ok(Payload(message, Some(traceback), 0, pickled))
  {
    var parts := [ToLe(|message|, 4), message];
    parts := parts + [[1], ToLe(|traceback|, 4), traceback];
    parts := parts + [ToLe(0, 2)];
    parts := parts + if pickled.None? then [[0]] else [[1], ToLe(|pickled.value|, 4), pickled.value];
    out := Join(parts);
    ghost var p := Payload(message, Some(traceback), 0, pickled);
    JoinedParts(p);
    forall utf8: Utf8 | utf8(message) && utf8(traceback) ensures Decode(utf8, out) == Ok(p) {
      DecodeInvertsEncode(utf8, p, []);
      assert Encode(p) + [] == Encode(p);
    }
  }

  function Joined(parts: seq<seq<byte>>): seq<byte> {
    if parts == [] then [] else parts[0] + Joined(parts[1..])
  }

  method Join(parts: seq<seq<byte>>) returns (out: seq<byte>)
    ensures out == Joined(parts)
  {
    out := [];
    for i := 0 to |parts|
      invariant out + Joined(parts[i..]) == Joined(parts)
    {
      assert parts[i..][1..] == parts[i + 1..];
      out := out + parts[i];
    }
  }

  lemma {:induction false} JoinConcat(a: seq<seq<byte>>, b: seq<seq<byte>>)
    ensures Joined(a + b) == Joined(a) + Joined(b)
  {
    if a == [] {
      assert a + b == b;
    } else {
      assert (a + b)[1..] == a[1..] + b;
      JoinConcat(a[1..], b);
    }
  }

  lemma JoinFew(x: seq<byte>, y: seq<byte>, z: seq<byte>)
    ensures Joined([x]) == x && Joined([x, y]) == x + y && Joined([x, y, z]) == x + (y + z)
  {
    JoinConcat([x], [y]);
    JoinConcat([x], [y, z]);
    JoinConcat([y], [z]);
    assert [x] + [y] == [x, y] && [x] + [y, z] == [x, y, z] && [y] + [z] == [y, z];
  }

  function OptionalParts(bytes: Option<seq<byte>>): seq<seq<byte>> {
    if bytes.None? then [[0]] else [[1], ToLe(|bytes.value|, 4), bytes.value]
  }

  lemma JoinOptional(bytes: Option<seq<byte>>)
    ensures Joined(OptionalParts(bytes)) == Optional(bytes)
  {
    if bytes.None? { JoinFew([0], [], []); } else { JoinFew([1], ToLe(|bytes.value|, 4), bytes.value); }
  }

  lemma JoinedParts(p: Payload)
    ensures Joined([ToLe(|p.message|, 4), p.message] + OptionalParts(p.traceback)
                   + [ToLe(p.rawCode, 2)] + OptionalParts(p.pickled)) == Encode(p)
  {
    var a, b, c := [ToLe(|p.message|, 4), p.message], OptionalParts(p.traceback), [ToLe(p.rawCode, 2)];
    JoinConcat(a + b + c, OptionalParts(p.pickled));
    JoinConcat(a + b, c);
    JoinConcat(a, b);
    JoinFew(ToLe(|p.message|, 4), p.message, []);
    JoinFew(ToLe(p.rawCode, 2), [], []);
    JoinOptional(p.traceback);
    JoinOptional(p.pickled);
  }
}
