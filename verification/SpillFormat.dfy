/** Spill files: their names and their layout. */
module SpillFormat {
  import opened Bytes

  /** Object ids are 28 bytes long. */
  type Id = id: seq<byte> | |id| == 28 witness seq(28, i => 0)

  datatype Restored = Restored(metadata: seq<byte>, data: seq<byte>)

  datatype RestoreResult = Ok(obj: Restored) | Corrupt

  // ---------- Names ----------

  const DIGITS := "0123456789abcdef"

  function HexByte(b: byte): (r: string)
    ensures |r| == 2
  {
    [DIGITS[b / 16], DIGITS[b % 16]]
  }

  function Hex(bytes: seq<byte>): (r: string)
    ensures |r| == 2 * |bytes|
  {
    if bytes == [] then "" else HexByte(bytes[0]) + Hex(bytes[1..])
  }

  function Decimal(n: nat): (r: string)
    ensures |r| > 0
  {
    if n < 10 then [DIGITS[n]] else Decimal(n / 10) + [DIGITS[n % 10]]
  }

  function FinalName(id: Id): string { Hex(id) + ".spill" }

  function TempName(id: Id, seqNo: nat): string { Hex(id) + ".spill.tmp." + Decimal(seqNo) }

  lemma DigitsDistinct(a: nat, b: nat)
    requires a < 16 && b < 16 && DIGITS[a] == DIGITS[b]
    ensures a == b
  {
  }

  lemma {:induction false} HexInjective(a: seq<byte>, b: seq<byte>)
    requires |a| == |b| && Hex(a) == Hex(b)
    ensures a == b
  {
    if a == [] {
    } else {
      assert Hex(a)[0] == DIGITS[a[0] / 16] && Hex(a)[1] == DIGITS[a[0] % 16];
      assert Hex(b)[0] == DIGITS[b[0] / 16] && Hex(b)[1] == DIGITS[b[0] % 16];
      DigitsDistinct(a[0] / 16, b[0] / 16);
      DigitsDistinct(a[0] % 16, b[0] % 16);
      assert Hex(a)[2..] == Hex(a[1..]) && Hex(b)[2..] == Hex(b[1..]);
      HexInjective(a[1..], b[1..]);
      assert a == [a[0]] + a[1..] && b == [b[0]] + b[1..];
    }
  }

  lemma OneDigit(n: nat)
    ensures |Decimal(n)| == 1 <==> n < 10
  {
  }

  lemma {:induction false} DecimalInjective(m: nat, n: nat)
    requires Decimal(m) == Decimal(n)
    ensures m == n
    decreases m + n
  {
    var s, t := Decimal(m), Decimal(n);
    assert s[|s| - 1] == DIGITS[m % 10] && t[|t| - 1] == DIGITS[n % 10];
    DigitsDistinct(m % 10, n % 10);
    OneDigit(m);
    OneDigit(n);
    if m >= 10 {
      assert s[..|s| - 1] == Decimal(m / 10) && t[..|t| - 1] == Decimal(n / 10);
      DecimalInjective(m / 10, n / 10);
    }
  }

  lemma {:induction false} HexAt(bytes: seq<byte>, i: nat)
    requires i < |bytes|
    ensures Hex(bytes)[2 * i] == DIGITS[bytes[i] / 16] && Hex(bytes)[2 * i + 1] == DIGITS[bytes[i] % 16]
  {
    if i > 0 {
      HexAt(bytes[1..], i - 1);
      assert Hex(bytes)[2..] == Hex(bytes[1..]);
    }
  }

  /** A final name is two hexadecimal digits per byte, high digit first, and a suffix; a temporary one adds
      the call's number in decimal. */
  lemma NameLayout(id: Id, seqNo: nat, i: nat)
    requires i < 28
    ensures |FinalName(id)| == 62 && FinalName(id)[56..] == ".spill"
    ensures FinalName(id)[2 * i] == DIGITS[id[i] / 16] && FinalName(id)[2 * i + 1] == DIGITS[id[i] % 16]
    ensures TempName(id, seqNo) == FinalName(id) + ".tmp." + Decimal(seqNo)
  {
    HexAt(id, i);
    assert FinalName(id)[..56] == Hex(id);
  }

  /** Different objects have different files, every temporary file is its own, and none is a final one. */
  lemma NamesDistinct(a: Id, m: nat, b: Id, n: nat)
    ensures FinalName(a) == FinalName(b) <==> a == b
    ensures TempName(a, m) == TempName(b, n) <==> a == b && m == n
    ensures TempName(a, m) != FinalName(b)
  {
    assert FinalName(a)[..56] == Hex(a) && FinalName(b)[..56] == Hex(b);
    assert TempName(a, m)[..56] == Hex(a) && TempName(b, n)[..56] == Hex(b);
    assert TempName(a, m)[67..] == Decimal(m) && TempName(b, n)[67..] == Decimal(n);
    if Hex(a) == Hex(b) { HexInjective(a, b); }
    if Decimal(m) == Decimal(n) { DecimalInjective(m, n); }
    assert |TempName(a, m)| > |FinalName(b)|;
  }

  /** The name is built one byte at a time. */
  method PathFor(id: Id) returns (name: string)
    ensures name == FinalName(id)
  {
    name := "";
    for i := 0 to |id|
      invariant name + Hex(id[i..]) == Hex(id)
    {
      name := name + HexByte(id[i]);
      assert id[i..][1..] == id[i + 1..];
    }
    name := name + ".spill";
  }

  // ---------- Layout ----------

  const METADATA_LIMIT: nat := 0x1_0000_0000
  const DATA_LIMIT: nat := 0x1_0000_0000_0000_0000

  function Encode(obj: Restored): seq<byte> {
    ToLe(|obj.metadata|, 4) + obj.metadata + ToLe(|obj.data|, 8) + obj.data
  }

  /** What a reader makes of a file's bytes; anything after the data is ignored. */
  function Decode(file: seq<byte>): RestoreResult {
    if |file| < 4 then Corrupt
    else
      var metadataLen := FromLe(file[..4]);
      if |file| < 4 + metadataLen + 8 then Corrupt
      else
        var dataLen := FromLe(file[4 + metadataLen..4 + metadataLen + 8]);
        if |file| < 12 + metadataLen + dataLen then Corrupt
        else Ok(Restored(file[4..4 + metadataLen], file[12 + metadataLen..12 + metadataLen + dataLen]))
  }

  predicate Encodable(obj: Restored) { |obj.metadata| < METADATA_LIMIT && |obj.data| < DATA_LIMIT }

  /** Where the parts of a file that starts with an encoding are. */
  lemma EncodeParts(obj: Restored, file: seq<byte>)
    requires Encodable(obj) && Encode(obj) <= file
    ensures var m, d := |obj.metadata|, |obj.data|;
            && |file| >= 12 + m + d
            && file[..4] == ToLe(m, 4) && file[4..4 + m] == obj.metadata
            && file[4 + m..12 + m] == ToLe(d, 8) && file[12 + m..12 + m + d] == obj.data
  {
  }

  lemma LengthsReadBack(obj: Restored)
    requires Encodable(obj)
    ensures FromLe(ToLe(|obj.metadata|, 4)) == |obj.metadata| && FromLe(ToLe(|obj.data|, 8)) == |obj.data|
  {
    Widths();
    LeRoundTrip(|obj.metadata|, 4);
    LeRoundTrip(|obj.data|, 8);
  }

  /** Decoding inverts encoding, whatever follows in the file. */
  lemma {:induction false} DecodeInvertsEncode(obj: Restored, tail: seq<byte>)
    requires Encodable(obj)
    ensures Decode(Encode(obj) + tail) == Ok(obj)
  {
    EncodeParts(obj, Encode(obj) + tail);
    LengthsReadBack(obj);
  }

  /** A file restores to an object exactly when it starts with that object's encoding. */
  lemma {:induction false} DecodesIff(file: seq<byte>, obj: Restored)
    ensures Decode(file) == Ok(obj) <==> Encodable(obj) && Encode(obj) <= file
  {
    if Decode(file) == Ok(obj) { DecodedIsEncoding(file, obj); }
    if Encodable(obj) && Encode(obj) <= file {
      assert Encode(obj) + file[|Encode(obj)|..] == file;
      DecodeInvertsEncode(obj, file[|Encode(obj)|..]);
    }
  }

  lemma DecodedIsEncoding(file: seq<byte>, obj: Restored)
    requires Decode(file) == Ok(obj)
    ensures Encodable(obj) && Encode(obj) <= file
  {
    var m, d := |obj.metadata|, |obj.data|;
    Widths();
    LeBack(file[..4]);
    LeBack(file[4 + m..12 + m]);
    assert file[..12 + m + d] == file[..4] + file[4..4 + m] + file[4 + m..12 + m] + file[12 + m..12 + m + d];
    assert Encode(obj) == file[..12 + m + d];
  }

  /** A file cut short anywhere is reported, never misread. */
  lemma {:induction false} CutShortIsCorrupt(obj: Restored, n: nat)
    requires Encodable(obj) && n < |Encode(obj)|
    ensures Decode(Encode(obj)[..n]) == Corrupt
  {
    var m, e := |obj.metadata|, Encode(obj);
    var cut := e[..n];
    EncodeParts(obj, e);
    LengthsReadBack(obj);
    if n >= 4 {
      assert cut[..4] == e[..4];
      if n >= 12 + m { assert cut[4 + m..12 + m] == e[4 + m..12 + m]; }
    }
  }

  /** The reads of `restore`, in order, each failing when the file ends first. */
  method Restore(file: seq<byte>) returns (r: RestoreResult)
    ensures r == Decode(file)
  {
    var rest := file;
    if |rest| < 4 { return Corrupt; }
    var metadataLen := FromLe(rest[..4]);
    rest := rest[4..];
    if |rest| < metadataLen { return Corrupt; }
    var metadata := rest[..metadataLen];
    rest := rest[metadataLen..];
    if |rest| < 8 { return Corrupt; }
    var dataLen := FromLe(rest[..8]);
    assert rest == file[4 + metadataLen..] && rest[..8] == file[4 + metadataLen..4 + metadataLen + 8];
    rest := rest[8..];
    if |rest| < dataLen { return Corrupt; }
    assert rest == file[12 + metadataLen..];
    return Ok(Restored(metadata, rest[..dataLen]));
  }
}
