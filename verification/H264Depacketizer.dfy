/** src/VideoDecoders/H264VideoDecoder.cpp: the byte stream handed to the decoder, built from
    the RTP packets of a keyframe; and the packetization it undoes (section 5.8 of RFC 3984). */
module H264Depacketizer {
  import opened Collections
  import opened RtpPackets

  const START_CODE: Bytes := [0, 0, 1]
  const FU_A: nat := 28

  /** The header byte of a fragmented unit, put together from indicator and fragment header. */
  function RebuiltHeader(payload: Bytes): Byte
    requires |payload| >= 2
  {
    payload[0] / 32 * 32 + payload[1] % 32
  }

  /** What one payload adds to the buffer. */
  function Contribution(payload: Bytes): Bytes {
    if |payload| < 2 then []
    else if payload[0] % 32 != FU_A then START_CODE + payload
    else if payload[1] / 128 % 2 == 1 then START_CODE + [RebuiltHeader(payload)] + payload[2..]
    else payload[2..]
  }

  function Contributions(payloads: seq<Bytes>): Bytes {
    if payloads == [] then [] else Contributions(payloads[..|payloads| - 1]) + Contribution(payloads[|payloads| - 1])
  }

  ghost predicate AllInside(packets: seq<Bytes>) {
    forall i :: 0 <= i < |packets| ==> GetPayload(packets[i]).Inside?
  }

  ghost function Payloads(packets: seq<Bytes>): seq<Bytes>
    requires AllInside(packets)
  {
    seq(|packets|, i requires 0 <= i < |packets| => GetPayload(packets[i]).bytes)
  }

  /** The loop of readFramePtr. */
  method BuildBuffer(packets: seq<Bytes>) returns (buffer: Bytes)
    requires AllInside(packets)
    ensures buffer == Contributions(Payloads(packets))
  {
    buffer := [];
    ghost var payloads := Payloads(packets);
    assert payloads[..0] == [];
    for n := 0 to |packets|
      invariant buffer == Contributions(payloads[..n])
    {
      var payload := GetPayload(packets[n]).bytes;
      assert payloads[..n + 1][..n] == payloads[..n] && payloads[n] == payload;
      var added := AppendPayload(buffer, payload);
      buffer := added;
    }
    assert payloads[..|packets|] == payloads;
  }

  /** One turn of the loop. */
  method AppendPayload(buffer: Bytes, payload: Bytes) returns (r: Bytes)
    ensures r == buffer + Contribution(payload)
  {
    r := buffer;
    if |payload| < 2 {
      return;
    }
    if payload[0] % 32 == FU_A {
      if payload[1] / 128 % 2 == 1 {
        r := r + START_CODE;
        r := r + [RebuiltHeader(payload)];
        ConcatAssociates(buffer, START_CODE, [RebuiltHeader(payload)]);
        ConcatAssociates(buffer, START_CODE + [RebuiltHeader(payload)], payload[2..]);
      }
      r := PushRest(r, payload, 2);
    } else {
      r := r + START_CODE;
      ConcatAssociates(buffer, START_CODE, payload);
      r := PushRest(r, payload, 0);
      assert payload[0..] == payload;
    }
  }

  /** Pushing the bytes of the payload one by one. */
  method PushRest(buffer: Bytes, payload: Bytes, start: nat) returns (r: Bytes)
    requires start <= |payload|
    ensures r == buffer + payload[start..]
  {
    r := buffer;
    for i := start to |payload|
      invariant r == buffer + payload[start..i]
    {
      r := r + [payload[i]];
    }
    assert payload[start..|payload|] == payload[start..];
  }

  // ---------------------------------------------------------------------------
  // Packetization

  /** A NAL unit sent whole, or by its header byte and the parts of its body in FU-A packets. */
  datatype Unit = Whole(nal: Bytes) | Fragmented(header: Byte, parts: seq<Bytes>)

  predicate Sendable(u: Unit) {
    match u
    case Whole(nal) => |nal| >= 2 && nal[0] % 32 != FU_A
    case Fragmented(header, parts) => |parts| >= 2
  }

  function Join(parts: seq<Bytes>): Bytes {
    if parts == [] then [] else Join(parts[..|parts| - 1]) + parts[|parts| - 1]
  }

  function NalUnit(u: Unit): Bytes {
    match u
    case Whole(nal) => nal
    case Fragmented(header, parts) => [header] + Join(parts)
  }

  /** The i-th fragment: indicator, header with start and end bit, and the part. */
  function Fragment(header: Byte, parts: seq<Bytes>, i: nat): Bytes
    requires i < |parts|
  {
    [header / 32 * 32 + FU_A,
     (if i == 0 then 128 else 0) + (if i == |parts| - 1 then 64 else 0) + header % 32] + parts[i]
  }

  function Packetize(u: Unit): seq<Bytes> {
    match u
    case Whole(nal) => [nal]
    case Fragmented(header, parts) =>
      seq(|parts|, i requires 0 <= i < |parts| => Fragment(header, parts, i))
  }

  function PacketizeAll(us: seq<Unit>): seq<Bytes> {
    if us == [] then [] else PacketizeAll(us[..|us| - 1]) + Packetize(us[|us| - 1])
  }

  /** Every NAL unit after a start code: the byte stream format the decoder expects. */
  function ByteStream(us: seq<Unit>): Bytes {
    if us == [] then [] else ByteStream(us[..|us| - 1]) + START_CODE + NalUnit(us[|us| - 1])
  }

  lemma FragmentContributes(header: Byte, parts: seq<Bytes>, i: nat)
    requires i < |parts|
    ensures Contribution(Fragment(header, parts, i)) ==
            (if i == 0 then START_CODE + [header] else []) + parts[i]
  {
    var f := Fragment(header, parts, i);
    assert f[0] % 32 == FU_A && f[0] / 32 * 32 == header / 32 * 32;
    assert f[1] % 32 == header % 32;
    assert f[1] / 128 % 2 == (if i == 0 then 1 else 0);
    assert f[2..] == parts[i];
  }

  lemma {:induction false} FragmentsContribute(header: Byte, parts: seq<Bytes>, n: nat)
    requires 1 <= n <= |parts|
    ensures Contributions(Packetize(Fragmented(header, parts))[..n]) == START_CODE + [header] + Join(parts[..n])
  {
    hide Contribution, Fragment;
    var ps := Packetize(Fragmented(header, parts));
    FragmentContributes(header, parts, n - 1);
    assert ps[..n][..n - 1] == ps[..n - 1] && parts[..n][..n - 1] == parts[..n - 1];
    var before := Contributions(ps[..n - 1]);
    assert Contributions(ps[..n]) == before + Contribution(ps[n - 1]);
    assert Join(parts[..n]) == Join(parts[..n - 1]) + parts[n - 1];
    if n == 1 {
      assert ps[..0] == [] && parts[..0] == [];
      assert [] + (START_CODE + [header] + parts[0]) == START_CODE + [header] + ([] + parts[0]);
    } else {
      FragmentsContribute(header, parts, n - 1);
      assert before + ([] + parts[n - 1]) == START_CODE + [header] + (Join(parts[..n - 1]) + parts[n - 1]);
    }
  }

  lemma {:induction false} ContributionsAppend(a: seq<Bytes>, b: seq<Bytes>)
    ensures Contributions(a + b) == Contributions(a) + Contributions(b)
    decreases |b|
  {
    hide Contribution;
    if b == [] {
      assert a + b == a;
    } else {
      var (front, last) := (b[..|b| - 1], b[|b| - 1]);
      assert (a + b)[..|a + b| - 1] == a + front;
      ContributionsAppend(a, front);
      ConcatAssociates(Contributions(a), Contributions(front), Contribution(last));
    }
  }

  lemma UnitContributes(u: Unit)
    requires Sendable(u)
    ensures Contributions(Packetize(u)) == START_CODE + NalUnit(u)
  {
    match u
    case Whole(nal) =>
      assert [nal][..0] == [];
      assert Contributions([nal]) == [] + Contribution(nal);
    case Fragmented(header, parts) =>
      hide Contributions, Contribution, Join;
      FragmentsContribute(header, parts, |parts|);
      var ps := Packetize(u);
      assert ps[..|parts|] == ps && parts[..|parts|] == parts;
      ConcatAssociates(START_CODE, [header], Join(parts));
  }

  /** Depacketizing undoes packetizing, for every list of NAL units. */
  lemma {:induction false} ContributionsInvertPacketize(us: seq<Unit>)
    requires forall u :: u in us ==> Sendable(u)
    ensures Contributions(PacketizeAll(us)) == ByteStream(us)
    decreases |us|
  {
    if us != [] {
      var (rest, u) := (us[..|us| - 1], us[|us| - 1]);
      ContributionsInvertPacketize(rest);
      UnitContributes(u);
      ContributionsAppend(PacketizeAll(rest), Packetize(u));
      ConcatAssociates(ByteStream(rest), START_CODE, NalUnit(u));
    }
  }

  /** Packets that carry these payloads, well formed and without padding. */
  ghost predicate Carries(rs: seq<Rtp>, payloads: seq<Bytes>) {
    && |rs| == |payloads|
    && forall i :: 0 <= i < |rs| ==> WellFormed(rs[i]) && rs[i].padding == [] && rs[i].payload == payloads[i]
  }

  ghost function EncodeAll(rs: seq<Rtp>): seq<Bytes>
    requires forall i :: 0 <= i < |rs| ==> WellFormed(rs[i])
  {
    seq(|rs|, i requires 0 <= i < |rs| => Encode(rs[i]))
  }

  lemma PayloadsReadBack(rs: seq<Rtp>, payloads: seq<Bytes>)
    requires Carries(rs, payloads)
    ensures AllInside(EncodeAll(rs)) && Payloads(EncodeAll(rs)) == payloads
  {
    hide Encode, GetPayload, WellFormed;
    forall i | 0 <= i < |rs| ensures GetPayload(EncodeAll(rs)[i]) == Inside(payloads[i]) {
      PayloadReadsBack(rs[i]);
    }
  }

  /** Sent over RTP with any contributing sources and header extensions, the NAL units come
      out of the packets as the decoder's byte stream. */
  lemma DepacketizeInvertsPacketize(us: seq<Unit>, rs: seq<Rtp>)
    requires (forall u :: u in us ==> Sendable(u)) && Carries(rs, PacketizeAll(us))
    ensures AllInside(EncodeAll(rs)) && Contributions(Payloads(EncodeAll(rs))) == ByteStream(us)
  {
    PayloadsReadBack(rs, PacketizeAll(us));
    ContributionsInvertPacketize(us);
  }
}
