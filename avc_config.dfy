/**
  The AVC decoder configuration serialiser (`avcCBoxToDescription`).

  It rebuilds the AVCDecoderConfigurationRecord of ISO/IEC 14496-15, section 5.2.4.1,
  from the fields of a parsed `avcC` box, into a freshly allocated buffer whose length it
  computes first. The record handed to the video decoder as its `description` is:

    configurationVersion, AVCProfileIndication, profile_compatibility, AVCLevelIndication,
    0b111111 ++ lengthSizeMinusOne (2 bits), 0b111 ++ numOfSequenceParameterSets (5 bits),
    per SPS: a 16-bit big-endian length and the NAL unit bytes,
    numOfPictureParameterSets (8 bits),
    per PPS: a 16-bit big-endian length and the NAL unit bytes.

  The high-profile extension fields of the record are not written by the serialiser, and
  so are not part of this model.
*/
module AvcConfig {
  import opened Wrappers

  /** One byte of the output buffer. */
  type Byte = x: int | 0 <= x < 256

  /** A parameter set (SPS or PPS) entry of the box: its NAL unit bytes. The box's own
      `length` field for the entry is the number of those bytes. */
  type ParameterSet = seq<Byte>

  /** The fields of the parsed `avcC` box that the serialiser reads. The numeric fields are
      whatever the box parser produced; `DataView.setUint8` reduces them modulo 256. */
  datatype AvcCBox = AvcCBox(
    configurationVersion: int,
    profileIndication: int,
    profileCompatibility: int,
    levelIndication: int,
    lengthSizeMinusOne: int,
    nbSps: int,
    sps: seq<ParameterSet>,
    nbPps: int,
    pps: seq<ParameterSet>)

  /** The boxes whose record can be read back: every numeric field fits the bits the record
      gives it, the counts agree with the lists, and every entry's length fits 16 bits. */
  predicate WellFormed(box: AvcCBox) {
    && 0 <= box.configurationVersion < 256
    && 0 <= box.profileIndication < 256
    && 0 <= box.profileCompatibility < 256
    && 0 <= box.levelIndication < 256
    && 0 <= box.lengthSizeMinusOne < 4
    && box.nbSps == |box.sps| < 32
    && box.nbPps == |box.pps| < 256
    && EntriesFit(box.sps)
    && EntriesFit(box.pps)
  }

  predicate EntriesFit(entries: seq<ParameterSet>) {
    forall i :: 0 <= i < |entries| ==> |entries[i]| < 65536
  }

  // ---------------------------------------------------------------------------------------
  // What the serialiser stores

  /** `DataView.setUint8` stores its argument modulo 2^8. */
  function ToUint8(x: int): (b: Byte)
    ensures 0 <= x < 256 ==> b == x
    ensures (b - x) % 256 == 0
  {
    x % 256
  }

  /** `DataView.setUint16` stores its argument modulo 2^16, big-endian (the default). */
  function Uint16BE(x: int): (bs: seq<Byte>)
    ensures |bs| == 2
    ensures 0 <= x < 65536 ==> (bs[0] as int) * 256 + bs[1] as int == x
  {
    var v := x % 65536;
    [v / 256, v % 256]
  }

  /** The six header bytes, reserved bits folded in as `+ 252` and `+ 224`. */
  function Header(box: AvcCBox): (h: seq<Byte>)
    ensures |h| == 6
    ensures 0 <= box.lengthSizeMinusOne < 4 ==> h[4] / 4 == 0x3F && h[4] % 4 == box.lengthSizeMinusOne
    ensures 0 <= box.nbSps < 32 ==> h[5] / 32 == 0x7 && h[5] % 32 == box.nbSps
  {
    [ ToUint8(box.configurationVersion),
      ToUint8(box.profileIndication),
      ToUint8(box.profileCompatibility),
      ToUint8(box.levelIndication),
      ToUint8(box.lengthSizeMinusOne + 252),
      ToUint8(box.nbSps + 224) ]
  }

  /** One entry: its 16-bit length, then its NAL unit bytes. */
  function Entry(nalu: ParameterSet): (e: seq<Byte>)
    ensures |e| == 2 + |nalu| && e[2..] == nalu
    ensures |nalu| < 65536 ==> (e[0] as int) * 256 + e[1] as int == |nalu|
  {
    Uint16BE(|nalu|) + nalu
  }

  /** The entries of a list, in order (stated from the last one, the order they are
      written in). They take exactly `Σ(2 + length)` bytes. */
  function Entries(entries: seq<ParameterSet>): (bytes: seq<Byte>)
    ensures |bytes| == EntriesLength(entries)
  {
    if entries == [] then []
    else Entries(entries[..|entries| - 1]) + Entry(entries[|entries| - 1])
  }

  /** The whole record, as the serialiser lays it out: the six header bytes at offset 0,
      the SPS entries at 6, the PPS count after them, the PPS entries up to the end. Its
      length is the length the serialiser allocates, so nothing is left unwritten and
      nothing is written past the end. */
  function Description(box: AvcCBox): (d: seq<Byte>)
    ensures |d| == DescriptionLength(box)
    ensures d[..6] == Header(box)
    ensures d[6..6 + EntriesLength(box.sps)] == Entries(box.sps)
    ensures d[6 + EntriesLength(box.sps)] == ToUint8(box.nbPps)
    ensures d[7 + EntriesLength(box.sps)..] == Entries(box.pps)
  {
    Header(box) + Entries(box.sps) + [ToUint8(box.nbPps)] + Entries(box.pps)
  }

  /** The space the entries of a list take: `2 + length` each. */
  function EntriesLength(entries: seq<ParameterSet>): nat {
    if entries == [] then 0
    else EntriesLength(entries[..|entries| - 1]) + 2 + |entries[|entries| - 1]|
  }

  /** The buffer length the serialiser allocates: `7 + Σ(2 + |SPS[i]|) + Σ(2 + |PPS[i]|)`. */
  function DescriptionLength(box: AvcCBox): nat {
    7 + EntriesLength(box.sps) + EntriesLength(box.pps)
  }

  lemma {:induction false} EntriesLengthPrefix(entries: seq<ParameterSet>, i: nat)
    requires i <= |entries|
    ensures EntriesLength(entries[..i]) <= EntriesLength(entries)
  {
    if i < |entries| {
      var init := entries[..|entries| - 1];
      assert init[..i] == entries[..i];
      EntriesLengthPrefix(init, i);
    } else {
      assert entries[..i] == entries;
    }
  }

  // ---------------------------------------------------------------------------------------
  // The serialiser

  /** `avcCBoxToDescription`: computes the length, allocates the buffer and fills it with a
      moving offset. Every byte is written exactly once: the offset ends at the length. */
  method AvcCBoxToDescription(box: AvcCBox) returns (buffer: array<Byte>)
    ensures buffer.Length == DescriptionLength(box)
    ensures buffer[..] == Description(box)
  {
    var spsLength := EntriesSpace(box.sps);
    var ppsLength := EntriesSpace(box.pps);
    var length := 7 + spsLength + ppsLength;

    buffer := new Byte[length];
    var offset := 0;
    buffer[offset] := ToUint8(box.configurationVersion);
    offset := offset + 1;
    buffer[offset] := ToUint8(box.profileIndication);
    offset := offset + 1;
    buffer[offset] := ToUint8(box.profileCompatibility);
    offset := offset + 1;
    buffer[offset] := ToUint8(box.levelIndication);
    offset := offset + 1;
    buffer[offset] := ToUint8(box.lengthSizeMinusOne + 252);
    offset := offset + 1;
    buffer[offset] := ToUint8(box.nbSps + 224);
    offset := offset + 1;
    assert buffer[..offset] == Header(box);

    offset := PutEntries(buffer, offset, box.sps);
    buffer[offset] := ToUint8(box.nbPps);
    offset := offset + 1;
    assert buffer[..offset] == Header(box) + Entries(box.sps) + [ToUint8(box.nbPps)] by {
      assert buffer[..offset] == buffer[..offset - 1] + [buffer[offset - 1]];
    }
    offset := PutEntries(buffer, offset, box.pps);
    assert offset == buffer.Length;
    assert buffer[..] == buffer[..offset];
  }

  /** One length-summing loop: `length += 2 + entries[i].length` for each entry. */
  method EntriesSpace(entries: seq<ParameterSet>) returns (total: nat)
    ensures total == EntriesLength(entries)
  {
    total := 0;
    var i := 0;
    while i < |entries|
      invariant 0 <= i <= |entries|
      invariant total == EntriesLength(entries[..i])
    {
      assert entries[..i + 1][..i] == entries[..i];
      total := total + 2 + |entries[i]|;
      i := i + 1;
    }
    assert entries[..i] == entries;
  }

  /** One entry-writing loop: each entry in order, written at the moving offset. */
  method PutEntries(buffer: array<Byte>, offset: nat, entries: seq<ParameterSet>) returns (next: nat)
    requires offset + EntriesLength(entries) <= buffer.Length
    modifies buffer
    ensures next == offset + EntriesLength(entries)
    ensures buffer[..next] == old(buffer[..offset]) + Entries(entries)
  {
    next := offset;
    var i := 0;
    while i < |entries|
      invariant 0 <= i <= |entries|
      invariant next == offset + EntriesLength(entries[..i]) <= offset + EntriesLength(entries)
      invariant buffer[..next] == old(buffer[..offset]) + Entries(entries[..i])
    {
      assert entries[..i + 1][..i] == entries[..i];
      EntriesLengthPrefix(entries, i + 1);
      next := PutEntry(buffer, next, entries[i]);
      i := i + 1;
    }
    assert entries[..i] == entries;
  }

  /** One entry written at `offset`: `setUint16` of the length, then the NAL unit bytes
      copied in after it. Returns the offset past the entry. */
  method PutEntry(buffer: array<Byte>, offset: nat, nalu: ParameterSet) returns (next: nat)
    requires offset + 2 + |nalu| <= buffer.Length
    modifies buffer
    ensures next == offset + 2 + |nalu|
    ensures buffer[..next] == old(buffer[..offset]) + Entry(nalu)
  {
    var length := Uint16BE(|nalu|);
    buffer[offset] := length[0];
    buffer[offset + 1] := length[1];
    next := offset + 2;
    var j := 0;
    while j < |nalu|
      invariant 0 <= j <= |nalu|
      invariant buffer[..next + j] == old(buffer[..offset]) + length + nalu[..j]
    {
      buffer[next + j] := nalu[j];
      assert nalu[..j + 1] == nalu[..j] + [nalu[j]];
      j := j + 1;
    }
    assert nalu[..j] == nalu;
    next := next + |nalu|;
  }

  // ---------------------------------------------------------------------------------------
  // Reading the record back

  datatype ParseError = Truncated | ReservedBitsClear | TrailingBytes

  /** Reads `count` entries (16-bit big-endian length, then that many bytes) from the front
      of `bytes`; returns them and what follows. */
  function ParseEntries(bytes: seq<Byte>, count: nat): Result<(seq<ParameterSet>, seq<Byte>), ParseError>
    decreases count
  {
    if count == 0 then Ok(([], bytes))
    else if |bytes| < 2 then Err(Truncated)
    else
      var length := (bytes[0] as int) * 256 + bytes[1] as int;
      if |bytes| < 2 + length then Err(Truncated)
      else match ParseEntries(bytes[2 + length..], count - 1)
        case Err(e) => Err(e)
        case Ok((more, rest)) => Ok(([bytes[2..2 + length]] + more, rest))
  }

  /** Reads a whole record; every byte must belong to it, and the reserved bits must be set. */
  function ParseDescription(bytes: seq<Byte>): Result<AvcCBox, ParseError> {
    if |bytes| < 6 then Err(Truncated)
    else if bytes[4] < 252 || bytes[5] < 224 then Err(ReservedBitsClear)
    else
      var nbSps := bytes[5] - 224;
      match ParseEntries(bytes[6..], nbSps)
      case Err(e) => Err(e)
      case Ok((sps, rest)) =>
        if |rest| < 1 then Err(Truncated)
        else
          var nbPps := rest[0];
          match ParseEntries(rest[1..], nbPps)
          case Err(e) => Err(e)
          case Ok((pps, tail)) =>
            if tail != [] then Err(TrailingBytes)
            else Ok(AvcCBox(bytes[0], bytes[1], bytes[2], bytes[3], bytes[4] - 252, nbSps, sps, nbPps, pps))
  }

  lemma Associative(a: seq<Byte>, b: seq<Byte>, c: seq<Byte>)
    ensures a + b + c == a + (b + c)
  {
  }

  lemma SplitThree(s: seq<Byte>, i: nat, j: nat)
    requires i <= j <= |s|
    ensures s == s[..i] + s[i..j] + s[j..]
  {
  }

  /** The entries of a non-empty list, stated from the front. */
  lemma {:induction false} EntriesFront(entries: seq<ParameterSet>)
    requires entries != []
    ensures Entries(entries) == Entry(entries[0]) + Entries(entries[1..])
  {
    var n := |entries|;
    if n == 1 {
      assert entries[..0] == [] && entries[1..] == [];
    } else {
      var init, tail := entries[..n - 1], entries[1..];
      EntriesFront(init);
      assert init[0] == entries[0];
      assert tail[..n - 2] == init[1..];
      assert tail[n - 2] == entries[n - 1];
      calc {
        Entries(entries);
        Entries(init) + Entry(entries[n - 1]);
        Entry(entries[0]) + Entries(init[1..]) + Entry(entries[n - 1]);
        Entry(entries[0]) + (Entries(tail[..n - 2]) + Entry(tail[n - 2]));
        Entry(entries[0]) + Entries(tail);
      }
    }
  }

  /** Reading an entry in front of bytes from which `n - 1` entries can be read. */
  lemma ParseOneEntry(nalu: ParameterSet, after: seq<Byte>, n: nat)
    requires 0 < n && |nalu| < 65536 && ParseEntries(after, n - 1).Ok?
    ensures var r := ParseEntries(after, n - 1).value;
      ParseEntries(Uint16BE(|nalu|) + nalu + after, n) == Ok(([nalu] + r.0, r.1))
  {
    var bytes := Uint16BE(|nalu|) + nalu + after;
    assert (bytes[0] as int) * 256 + bytes[1] as int == |nalu|;
    assert bytes[2..2 + |nalu|] == nalu;
    assert bytes[2 + |nalu|..] == after;
  }

  lemma EntriesFitTail(entries: seq<ParameterSet>)
    requires entries != [] && EntriesFit(entries)
    ensures |entries[0]| < 65536 && EntriesFit(entries[1..])
  {
    forall i | 0 <= i < |entries| - 1 ensures |entries[1..][i]| < 65536 {
      assert entries[1..][i] == entries[i + 1];
    }
  }

  lemma {:induction false} ParseEntriesRoundTrip(entries: seq<ParameterSet>, rest: seq<Byte>)
    requires EntriesFit(entries)
    ensures ParseEntries(Entries(entries) + rest, |entries|) == Ok((entries, rest))
  {
    if entries != [] {
      var nalu, more := entries[0], entries[1..];
      var after := Entries(more) + rest;
      assert Entries(entries) + rest == Uint16BE(|nalu|) + nalu + after by {
        EntriesFront(entries);
      }
      EntriesFitTail(entries);
      ParseEntriesRoundTrip(more, rest);
      ParseOneEntry(nalu, after, |entries|);
      assert [nalu] + more == entries;
    } else {
      assert Entries(entries) + rest == rest;
    }
  }

  /** Round trip: reading the serialised record of a well-formed box gives the box back. */
  lemma DescriptionRoundTrip(box: AvcCBox)
    requires WellFormed(box)
    ensures ParseDescription(Description(box)) == Ok(box)
  {
    var bytes := Description(box);
    var ppsPart := [ToUint8(box.nbPps)] + Entries(box.pps);
    assert bytes[..6] == Header(box) && bytes[6..] == Entries(box.sps) + ppsPart by {
      Associative(Header(box), Entries(box.sps), ppsPart);
    }
    ParseEntriesRoundTrip(box.sps, ppsPart);
    assert ppsPart[1..] == Entries(box.pps) + [];
    ParseEntriesRoundTrip(box.pps, []);
    ParseFromParts(bytes, box.sps, ppsPart, box.pps);
  }

  /** The two length bytes an entry starts with are the 16-bit encoding of the length
      they spell. */
  lemma LengthBytes(bytes: seq<Byte>)
    requires 2 <= |bytes|
    ensures var length := (bytes[0] as int) * 256 + bytes[1] as int;
      length < 65536 && Uint16BE(length) == bytes[..2]
  {
  }

  lemma EntriesFitCons(nalu: ParameterSet, more: seq<ParameterSet>)
    requires |nalu| < 65536 && EntriesFit(more)
    ensures EntriesFit([nalu] + more)
  {
    var entries := [nalu] + more;
    forall i | 0 <= i < |entries| ensures |entries[i]| < 65536 {
      if i > 0 {
        assert entries[i] == more[i - 1];
      }
    }
  }

  /** One successful step of `ParseEntries`: a length, that many bytes, and the remaining
      entries read from what follows. */
  lemma ParseEntriesCons(bytes: seq<Byte>, count: nat)
    requires 0 < count && ParseEntries(bytes, count).Ok?
    ensures 2 <= |bytes|
    ensures var length := (bytes[0] as int) * 256 + bytes[1] as int;
      && 2 + length <= |bytes|
      && ParseEntries(bytes[2 + length..], count - 1).Ok?
      && var r := ParseEntries(bytes[2 + length..], count - 1).value;
         ParseEntries(bytes, count).value == ([bytes[2..2 + length]] + r.0, r.1)
  {
  }

  /** Whatever `ParseEntries` accepts is exactly the serialised form of the entries it
      returns, followed by the rest: it reads `count` entries, each short enough for its
      16-bit length. */
  lemma {:induction false} ParseEntriesExact(bytes: seq<Byte>, count: nat)
    requires ParseEntries(bytes, count).Ok?
    ensures var r := ParseEntries(bytes, count).value;
      |r.0| == count && EntriesFit(r.0) && bytes == Entries(r.0) + r.1
    decreases count
  {
    if count > 0 {
      ParseEntriesCons(bytes, count);
      var length := (bytes[0] as int) * 256 + bytes[1] as int;
      var nalu, after := bytes[2..2 + length], bytes[2 + length..];
      var r := ParseEntries(after, count - 1).value;
      ParseEntriesExact(after, count - 1);
      EntryThenRest(bytes, r.0, r.1);
      EntriesFitCons(nalu, r.0);
    }
  }

  /** Gluing one entry read from the front of `bytes` to the serialised entries after it. */
  lemma EntryThenRest(bytes: seq<Byte>, more: seq<ParameterSet>, rest: seq<Byte>)
    requires 2 <= |bytes|
    requires var length := (bytes[0] as int) * 256 + bytes[1] as int;
      2 + length <= |bytes| && bytes[2 + length..] == Entries(more) + rest
    ensures var length := (bytes[0] as int) * 256 + bytes[1] as int;
      bytes == Entries([bytes[2..2 + length]] + more) + rest
  {
    var length := (bytes[0] as int) * 256 + bytes[1] as int;
    var nalu := bytes[2..2 + length];
    var entries := [nalu] + more;
    LengthBytes(bytes);
    assert entries[0] == nalu && entries[1..] == more;
    EntriesFront(entries);
    assert Entry(nalu) == bytes[..2] + nalu;
    Associative(Entry(nalu), Entries(more), rest);
    SplitThree(bytes, 2, 2 + length);
  }

  /** The box `ParseDescription` builds from a header, two successfully read entry lists
      and nothing left over. */
  function ParsedBox(bytes: seq<Byte>, sps: seq<ParameterSet>, nbPps: Byte, pps: seq<ParameterSet>): AvcCBox
    requires 6 <= |bytes|
  {
    AvcCBox(bytes[0], bytes[1], bytes[2], bytes[3], bytes[4] as int - 252, bytes[5] as int - 224, sps, nbPps, pps)
  }

  lemma HeaderOfParsed(bytes: seq<Byte>, sps: seq<ParameterSet>, nbPps: Byte, pps: seq<ParameterSet>)
    requires 6 <= |bytes| && 252 <= bytes[4] && 224 <= bytes[5]
    ensures Header(ParsedBox(bytes, sps, nbPps, pps)) == bytes[..6]
  {
  }

  /** A header with its reserved bits set, followed by `nbSps` entries, the PPS count and
      that many entries with nothing after them, reads as the box of those parts. */
  lemma ParseFromParts(bytes: seq<Byte>, sps: seq<ParameterSet>, rest: seq<Byte>, pps: seq<ParameterSet>)
    requires 6 <= |bytes| && 252 <= bytes[4] && 224 <= bytes[5]
    requires ParseEntries(bytes[6..], bytes[5] - 224) == Ok((sps, rest))
    requires 1 <= |rest| && ParseEntries(rest[1..], rest[0]) == Ok((pps, []))
    ensures ParseDescription(bytes) == Ok(ParsedBox(bytes, sps, rest[0], pps))
  {
  }

  /** A header with its reserved bits set, followed by the serialised SPS entries, the PPS
      count and the serialised PPS entries, is the record of the box read from it. */
  lemma AssembledExactly(bytes: seq<Byte>, sps: seq<ParameterSet>, rest: seq<Byte>, pps: seq<ParameterSet>)
    requires 6 <= |bytes| && 252 <= bytes[4] && 224 <= bytes[5]
    requires |sps| == bytes[5] - 224 && EntriesFit(sps) && bytes[6..] == Entries(sps) + rest
    requires 1 <= |rest| && |pps| == rest[0] && EntriesFit(pps) && rest[1..] == Entries(pps)
    ensures var box := ParsedBox(bytes, sps, rest[0], pps);
      WellFormed(box) && Description(box) == bytes
  {
    var box := ParsedBox(bytes, sps, rest[0], pps);
    HeaderOfParsed(bytes, sps, rest[0], pps);
    var countAndPps := [ToUint8(rest[0])] + Entries(pps);
    assert countAndPps == rest by {
      assert rest == [rest[0]] + rest[1..];
    }
    assert Description(box) == bytes[..6] + Entries(sps) + countAndPps by {
      Associative(bytes[..6] + Entries(sps), [ToUint8(rest[0])], Entries(pps));
    }
    Associative(bytes[..6], Entries(sps), rest);
    assert bytes == bytes[..6] + bytes[6..];
  }

  /** The converse of the round trip: a record the parser accepts comes from a well-formed
      box, and serialising that box gives back exactly the bytes read. */
  lemma DescriptionParsedExactly(bytes: seq<Byte>)
    requires ParseDescription(bytes).Ok?
    ensures var box := ParseDescription(bytes).value;
      WellFormed(box) && Description(box) == bytes
  {
    var front := ParseEntries(bytes[6..], bytes[5] - 224).value;
    var back := ParseEntries(front.1[1..], front.1[0]).value;
    assert ParseDescription(bytes).value == ParsedBox(bytes, front.0, front.1[0], back.0);
    ParseEntriesExact(bytes[6..], bytes[5] - 224);
    ParseEntriesExact(front.1[1..], front.1[0]);
    AssembledExactly(bytes, front.0, front.1, back.0);
  }
}
