/** src/Rtp/RtpPacket.cpp: finding the payload of an RTP packet (sections 5.1 and 5.3.1 of
    RFC 3550). */
module RtpPackets {
  import opened Collections

  /** Where the header claims more than the packet holds, the payload span of the original is
      outside the packet: its size test compares an unsigned difference with zero. */
  datatype Payload = Inside(bytes: Bytes) | OutOfBounds

  /** A number and one more byte of it, in network order. */
  function Follow(high: nat, low: nat): nat {
    256 * high + low
  }

  function PayloadIndex(p: Bytes): nat
    requires |p| >= 12
  {
    var i := 12 + p[0] % 16 * 4;
    if p[0] / 16 % 2 == 1 && |p| >= i + 4 then i + 4 + Follow(p[i + 2], p[i + 3]) * 4 else i
  }

  function GetPayload(p: Bytes): Payload {
    if |p| < 12 || p[0] / 64 != 2 then Inside([])
    else if PayloadIndex(p) <= |p| then Inside(p[PayloadIndex(p)..])
    else OutOfBounds
  }

  predicate HasMarker(p: Bytes)
    requires |p| >= 12
  {
    p[1] / 128 == 1
  }

  function Timestamp(p: Bytes): nat
    requires |p| >= 12
  {
    Follow(Follow(Follow(p[4], p[5]), p[6]), p[7])
  }

  function SequenceOf(p: Bytes): (n: nat)
    requires |p| >= 12
    ensures n < 65536
  {
    Follow(p[2], p[3])
  }

  function SourceOf(p: Bytes): nat
    requires |p| >= 12
  {
    Follow(Follow(Follow(p[8], p[9]), p[10]), p[11])
  }

  // ---------------------------------------------------------------------------
  // Packets as they are sent

  /** A header extension: two profile bytes and a number of 32-bit words. */
  datatype Extension = Extension(profile: Bytes, words: Bytes)

  datatype Rtp = Rtp(
    marker: bool,
    payloadType: nat,
    sequence: Bytes,
    timestamp: Bytes,
    ssrc: Bytes,
    csrcs: Bytes,
    extension: Option<Extension>,
    payload: Bytes,
    padding: Bytes)

  ghost predicate WellFormed(r: Rtp) {
    && r.payloadType < 128
    && |r.sequence| == 2 && |r.timestamp| == 4 && |r.ssrc| == 4
    && |r.csrcs| % 4 == 0 && |r.csrcs| / 4 < 16
    && (r.extension.Some? ==>
          && |r.extension.value.profile| == 2
          && |r.extension.value.words| % 4 == 0 && |r.extension.value.words| / 4 < 65536)
  }

  function EncodeExtension(e: Option<Extension>): Bytes
    requires e.Some? ==> |e.value.words| / 4 < 65536
  {
    match e
    case None => []
    case Some(Extension(profile, words)) => profile + [|words| / 4 / 256, |words| / 4 % 256] + words
  }

  function FirstByte(r: Rtp): Byte
    requires WellFormed(r)
  {
    128 + (if r.padding != [] then 32 else 0) + (if r.extension.Some? then 16 else 0) + |r.csrcs| / 4
  }

  function FixedHeader(r: Rtp): Bytes
    requires WellFormed(r)
  {
    [FirstByte(r), (if r.marker then 128 else 0) + r.payloadType] + r.sequence + r.timestamp + r.ssrc
  }

  function Encode(r: Rtp): Bytes
    requires WellFormed(r)
  {
    FixedHeader(r) + r.csrcs + EncodeExtension(r.extension) + r.payload + r.padding
  }

  /** A field of the header as a number, most significant byte first. */
  function Network(field: Bytes): nat {
    if field == [] then 0 else Follow(Network(field[..|field| - 1]), field[|field| - 1])
  }

  lemma NetworkTwo(field: Bytes)
    requires |field| == 2
    ensures Network(field) == Follow(field[0], field[1])
  {
    var one := field[..1];
    assert one[..0] == [] && one[0] == field[0];
    assert Network(one) == Follow(0, field[0]);
  }

  lemma NetworkFour(field: Bytes)
    requires |field| == 4
    ensures Network(field) == Follow(Follow(Follow(field[0], field[1]), field[2]), field[3])
  {
    assert field[..3][..2] == field[..2];
    NetworkTwo(field[..2]);
  }

  /** Marker, sequence number, timestamp and SSRC are read as they were laid out. */
  lemma HeaderReadsBack(r: Rtp)
    requires WellFormed(r)
    ensures
      var p := Encode(r);
      && |p| >= 12 && HasMarker(p) == r.marker
      && SequenceOf(p) == Network(r.sequence) && Timestamp(p) == Network(r.timestamp) && SourceOf(p) == Network(r.ssrc)
  {
    var p := Encode(r);
    var f := FixedHeader(r);
    assert |f| == 12;
    assert forall i :: 0 <= i < 12 ==> p[i] == f[i];
    assert f[2..4] == r.sequence && f[4..8] == r.timestamp && f[8..12] == r.ssrc;
    NetworkTwo(f[2..4]);
    NetworkFour(f[4..8]);
    NetworkFour(f[8..12]);
  }

  lemma FirstByteReadsBack(r: Rtp)
    requires WellFormed(r)
    ensures
      var b := FirstByte(r);
      b / 64 == 2 && b % 16 == |r.csrcs| / 4 && (b / 16 % 2 == 1 <==> r.extension.Some?)
  {
  }

  lemma IndexReadsBack(r: Rtp)
    requires WellFormed(r)
    ensures |Encode(r)| >= 12
    ensures PayloadIndex(Encode(r)) == 12 + |r.csrcs| + |EncodeExtension(r.extension)|
  {
    var p := Encode(r);
    var f := FixedHeader(r);
    var rest := r.payload + r.padding;
    var x := EncodeExtension(r.extension);
    assert |f| == 12 && p[0] == FirstByte(r);
    FirstByteReadsBack(r);
    var i := 12 + |r.csrcs|;
    if r.extension.Some? {
      assert p[i + 2] == x[2] && p[i + 3] == x[3];
      var n := |r.extension.value.words| / 4;
      assert 256 * (n / 256) + n % 256 == n;
    }
  }

  /** The payload read is the payload sent, followed by the padding, which is not removed. */
  lemma PayloadReadsBack(r: Rtp)
    requires WellFormed(r)
    ensures GetPayload(Encode(r)) == Inside(r.payload + r.padding)
    ensures GetPayload(Encode(r)) == Inside(r.payload) <==> r.padding == []
  {
    var p := Encode(r);
    IndexReadsBack(r);
    FirstByteReadsBack(r);
    var i := PayloadIndex(p);
    assert p[0] == FirstByte(r);
    assert p[i..] == r.payload + r.padding;
    if r.padding == [] { assert r.payload + r.padding == r.payload; }
  }
}
