/** src/FtlMediaConnection.cpp: what becomes of an audio or video packet, through the sequence
    tracker and the keyframe store to the viewers. */
module MediaConnection {
  import opened Collections
  import opened RtpPackets
  import Counter = SequenceCounter
  import Tracking = SequenceTracking
  import History = SequenceHistory
  import H264 = H264Depacketizer
  import Keyframes

  type Ssrc = nat

  /** A packet as it comes in: its bytes, and the setting and the clock at the time. */
  datatype Incoming = Incoming(bytes: Bytes, nackLostPackets: bool, now: nat)

  /** Anything shorter than a header is discarded before. */
  type Datagram = d: Incoming | |d.bytes| >= 12
    witness Incoming(seq(12, _ => 0), false, 0)

  /** What is kept for each SSRC. */
  datatype Source = Source(packetsReceived: nat, tracker: Tracking.Tracker, capture: Keyframes.Capture)

  datatype Media = Media(
    audioSsrc: Ssrc,
    videoSsrc: Ssrc,
    h264: bool,
    sources: map<Ssrc, Source>,
    forwarded: seq<Keyframes.Received>)

  const SILENCE: Source := Source(0, Tracking.EMPTY, Keyframes.NOTHING)

  function Initial(audioSsrc: Ssrc, videoSsrc: Ssrc, h264: bool): Media {
    Media(audioSsrc, videoSsrc, h264, map[audioSsrc := SILENCE, videoSsrc := SILENCE], [])
  }

  function SequenceNumber(d: Datagram): Counter.Seq16 {
    SequenceOf(d.bytes)
  }

  function SsrcOf(d: Datagram): Ssrc {
    SourceOf(d.bytes)
  }

  /** The payload is read of H264 video only; there the header must not claim more than the
      packet holds. */
  predicate Readable(d: Datagram, videoSsrc: Ssrc, h264: bool) {
    SsrcOf(d) == videoSsrc && h264 ==> GetPayload(d.bytes).Inside?
  }

  predicate AllReadable(ds: seq<Datagram>, videoSsrc: Ssrc, h264: bool) {
    forall d :: d in ds ==> Readable(d, videoSsrc, h264)
  }

  /** The packet under its extended number, and what is then kept for its SSRC. */
  function Accept(s: Source, d: Datagram, capturing: bool): (Source, Keyframes.Received)
    requires capturing ==> GetPayload(d.bytes).Inside?
  {
    var (t, e) := Tracking.HandlePacket(s.tracker, SequenceNumber(d), d.nackLostPackets, d.now);
    var p := Keyframes.Received(d.bytes, e);
    (Source((s.packetsReceived + 1) % Counter.U32_MOD, t,
            if capturing then Keyframes.Take(s.capture, p) else s.capture), p)
  }

  /** Audio is ignored until there is video: it may be a test of the sender's bandwidth. */
  predicate Ignores(m: Media, d: Datagram) {
    || SsrcOf(d) !in m.sources
    || (SsrcOf(d) == m.audioSsrc && m.videoSsrc in m.sources && m.sources[m.videoSsrc].packetsReceived == 0)
  }

  function Enter(m: Media, d: Datagram): Media
    requires SsrcOf(d) in m.sources && Readable(d, m.videoSsrc, m.h264)
  {
    var ssrc := SsrcOf(d);
    var (s, p) := Accept(m.sources[ssrc], d, ssrc == m.videoSsrc && m.h264);
    m.(sources := m.sources[ssrc := s], forwarded := m.forwarded + [p])
  }

  function Handle(m: Media, d: Datagram): Media
    requires Readable(d, m.videoSsrc, m.h264)
  {
    if Ignores(m, d) then m else Enter(m, d)
  }

  function HandleAll(m: Media, ds: seq<Datagram>): (u: Media)
    requires AllReadable(ds, m.videoSsrc, m.h264)
    ensures u.audioSsrc == m.audioSsrc && u.videoSsrc == m.videoSsrc && u.h264 == m.h264
  {
    if ds == [] then m else Handle(HandleAll(m, ds[..|ds| - 1]), ds[|ds| - 1])
  }

  // ---------------------------------------------------------------------------
  // As programmed

  class SsrcData {
    var packetsReceived: nat
    const tracker: Tracking.SequenceTracker
    const keyframes: Keyframes.KeyframeStore

    ghost const Repr: set<object>

    ghost predicate Valid()
      reads this, tracker, tracker.counter
    {
      Repr == {this, tracker, tracker.counter, keyframes} && tracker.Valid()
    }

    function View(): Source
      reads this, tracker, tracker.counter, keyframes
    {
      Source(packetsReceived, tracker.View(), keyframes.View())
    }

    constructor ()
      ensures Valid() && View() == SILENCE && fresh(Repr)
    {
      var t := new Tracking.SequenceTracker();
      var k := new Keyframes.KeyframeStore();
      packetsReceived, tracker, keyframes := 0, t, k;
      Repr := {this, t, t.counter, k};
    }

    /** The packet under the number the tracker gives it. */
    method NumberPacket(d: Datagram) returns (p: Keyframes.Received)
      requires Valid()
      modifies tracker, tracker.counter
      ensures Valid() && p.bytes == d.bytes
      ensures (tracker.View(), p.ext) ==
              Tracking.HandlePacket(old(tracker.View()), SequenceNumber(d), d.nackLostPackets, d.now)
    {
      hide Tracking.HandlePacket, Tracking.Invariant;
      var e := tracker.HandleMediaPacket(SequenceNumber(d), d.nackLostPackets, d.now);
      p := Keyframes.Received(d.bytes, e);
    }

    method AcceptPacket(d: Datagram, capturing: bool) returns (p: Keyframes.Received)
      requires Valid() && (capturing ==> GetPayload(d.bytes).Inside?)
      modifies Repr
      ensures Valid() && (View(), p) == Accept(old(View()), d, capturing)
    {
      hide Tracking.HandlePacket, Keyframes.Take, Tracking.Invariant, GetPayload;
      ghost var (captured, count) := (keyframes.View(), packetsReceived);
      p := NumberPacket(d);
      assert keyframes.View() == captured && packetsReceived == count;
      packetsReceived := (packetsReceived + 1) % Counter.U32_MOD;
      ghost var tracked := tracker.View();
      if capturing {
        keyframes.CaptureH264VideoKeyframe(p);
      }
      assert tracker.View() == tracked;
    }
  }

  class FtlMediaConnection {
    const audioSsrc: Ssrc
    const videoSsrc: Ssrc
    const h264: bool
    const audio: SsrcData
    const video: SsrcData
    var forwarded: seq<Keyframes.Received>

    /** One store for each SSRC, and only one if the two are the same. */
    ghost predicate Valid()
      reads this, audio, audio.tracker, audio.tracker.counter, video, video.tracker, video.tracker.counter
    {
      && audio.Valid() && video.Valid() && this !in audio.Repr + video.Repr
      && if audioSsrc == videoSsrc then audio == video else audio.Repr !! video.Repr
    }

    function View(): Media
      reads this, audio, audio.tracker, audio.tracker.counter, audio.keyframes
      reads video, video.tracker, video.tracker.counter, video.keyframes
    {
      Media(audioSsrc, videoSsrc, h264, map[audioSsrc := audio.View(), videoSsrc := video.View()], forwarded)
    }

    constructor (audioSsrc: Ssrc, videoSsrc: Ssrc, h264: bool)
      ensures Valid() && View() == Initial(audioSsrc, videoSsrc, h264)
    {
      this.audioSsrc, this.videoSsrc, this.h264, forwarded := audioSsrc, videoSsrc, h264, [];
      var a := new SsrcData();
      audio := a;
      if audioSsrc == videoSsrc {
        video := a;
      } else {
        video := new SsrcData();
      }
    }

    method HandleVideo(d: Datagram)
      requires Valid() && SsrcOf(d) == videoSsrc && Readable(d, videoSsrc, h264)
      modifies this, video.Repr
      ensures Valid() && View() == Enter(old(View()), d)
    {
      hide Accept, Tracking.Invariant;
      ghost var (before, others) := (video.View(), audio.View());
      var p := video.AcceptPacket(d, h264);
      assert audioSsrc != videoSsrc ==> audio.View() == others;
      forwarded := forwarded + [p];
      assert (video.View(), p) == Accept(before, d, h264);
    }

    method HandleAudio(d: Datagram)
      requires Valid() && SsrcOf(d) == audioSsrc != videoSsrc
      modifies this, audio.Repr
      ensures Valid() && View() == Enter(old(View()), d)
    {
      hide Accept, Tracking.Invariant;
      ghost var (before, others) := (audio.View(), video.View());
      var p := audio.AcceptPacket(d, false);
      assert video.View() == others;
      forwarded := forwarded + [p];
      assert (audio.View(), p) == Accept(before, d, false);
    }

    method HandleMediaPacket(d: Datagram)
      requires Valid() && Readable(d, videoSsrc, h264)
      modifies this, audio.Repr, video.Repr
      ensures Valid() && View() == Handle(old(View()), d)
    {
      hide Enter;
      var ssrc := SsrcOf(d);
      if ssrc != audioSsrc && ssrc != videoSsrc {
        return;
      }
      if ssrc == audioSsrc && video.packetsReceived == 0 {
        return;
      }
      if ssrc == videoSsrc {
        HandleVideo(d);
      } else {
        HandleAudio(d);
      }
    }
  }

  // ---------------------------------------------------------------------------
  // Audio and video together

  /** The packets of one SSRC. */
  function Of(ds: seq<Datagram>, ssrc: Ssrc): (r: seq<Datagram>)
    ensures forall d :: d in r <==> d in ds && SsrcOf(d) == ssrc
  {
    if ds == [] then []
    else Of(ds[..|ds| - 1], ssrc) + if SsrcOf(ds[|ds| - 1]) == ssrc then [ds[|ds| - 1]] else []
  }

  /** What is kept for a source whose packets are all accepted. */
  function AcceptAll(ds: seq<Datagram>, capturing: bool): Source
    requires capturing ==> forall d :: d in ds ==> GetPayload(d.bytes).Inside?
  {
    if ds == [] then SILENCE else Accept(AcceptAll(ds[..|ds| - 1], capturing), ds[|ds| - 1], capturing).0
  }

  lemma {:induction false} CountAccepted(ds: seq<Datagram>, capturing: bool)
    requires capturing ==> forall d :: d in ds ==> GetPayload(d.bytes).Inside?
    ensures AcceptAll(ds, capturing).packetsReceived == |ds| % Counter.U32_MOD
  {
    hide Accept;
    if ds != [] {
      var front := ds[..|ds| - 1];
      CountAccepted(front, capturing);
      AcceptCounts(AcceptAll(front, capturing), ds[|ds| - 1], capturing);
      NextCount(|front|);
    }
  }

  lemma AcceptCounts(s: Source, d: Datagram, capturing: bool)
    requires capturing ==> GetPayload(d.bytes).Inside?
    ensures Accept(s, d, capturing).0.packetsReceived == (s.packetsReceived + 1) % Counter.U32_MOD
  {
    hide Tracking.HandlePacket, Keyframes.Take;
  }

  lemma NextCount(n: nat)
    ensures (n % Counter.U32_MOD + 1) % Counter.U32_MOD == (n + 1) % Counter.U32_MOD
  {
  }

  lemma HandleKeepsSsrcs(m: Media, d: Datagram)
    requires Readable(d, m.videoSsrc, m.h264)
    ensures
      var u := Handle(m, d);
      u.sources.Keys == m.sources.Keys && u.audioSsrc == m.audioSsrc && u.videoSsrc == m.videoSsrc && u.h264 == m.h264
  {
    hide Accept;
  }

  ghost predicate Configured(m: Media, audioSsrc: Ssrc, videoSsrc: Ssrc, h264: bool) {
    && m.audioSsrc == audioSsrc && m.videoSsrc == videoSsrc && m.h264 == h264
    && m.sources.Keys == {audioSsrc, videoSsrc}
  }

  lemma {:induction false} StaysConfigured(audioSsrc: Ssrc, videoSsrc: Ssrc, h264: bool, ds: seq<Datagram>)
    requires AllReadable(ds, videoSsrc, h264)
    ensures Configured(HandleAll(Initial(audioSsrc, videoSsrc, h264), ds), audioSsrc, videoSsrc, h264)
  {
    hide Handle;
    if ds != [] {
      var front := ds[..|ds| - 1];
      StaysConfigured(audioSsrc, videoSsrc, h264, front);
      HandleKeepsSsrcs(HandleAll(Initial(audioSsrc, videoSsrc, h264), front), ds[|ds| - 1]);
    }
  }

  /** Whatever audio and other packets come between, the video data is that of the video
      packets alone. */
  lemma {:induction false} VideoIsUndisturbed(audioSsrc: Ssrc, videoSsrc: Ssrc, h264: bool, ds: seq<Datagram>)
    requires audioSsrc != videoSsrc && AllReadable(ds, videoSsrc, h264)
    ensures
      var m := HandleAll(Initial(audioSsrc, videoSsrc, h264), ds);
      videoSsrc in m.sources && m.sources[videoSsrc] == AcceptAll(Of(ds, videoSsrc), h264)
  {
    hide Accept;
    if ds != [] {
      var (front, d) := (ds[..|ds| - 1], ds[|ds| - 1]);
      VideoIsUndisturbed(audioSsrc, videoSsrc, h264, front);
      StaysConfigured(audioSsrc, videoSsrc, h264, front);
      var video := Of(front, videoSsrc);
      assert (video + [d])[..|video|] == video;
      assert SsrcOf(d) != videoSsrc ==> Of(ds, videoSsrc) == video + [] == video;
    }
  }

  /** A packet is passed on if and only if it is video, or audio and the number of video
      packets so far is not a multiple of 2^32. */
  ghost predicate Passes(audioSsrc: Ssrc, videoSsrc: Ssrc, before: seq<Datagram>, d: Datagram) {
    || SsrcOf(d) == videoSsrc
    || (SsrcOf(d) == audioSsrc && |Of(before, videoSsrc)| % Counter.U32_MOD != 0)
  }

  lemma PassesIff(audioSsrc: Ssrc, videoSsrc: Ssrc, h264: bool, before: seq<Datagram>, d: Datagram)
    requires audioSsrc != videoSsrc && AllReadable(before, videoSsrc, h264)
    ensures !Ignores(HandleAll(Initial(audioSsrc, videoSsrc, h264), before), d) <==>
            Passes(audioSsrc, videoSsrc, before, d)
  {
    hide HandleAll, AcceptAll, Of;
    StaysConfigured(audioSsrc, videoSsrc, h264, before);
    VideoIsUndisturbed(audioSsrc, videoSsrc, h264, before);
    CountAccepted(Of(before, videoSsrc), h264);
  }

  ghost function Relayed(audioSsrc: Ssrc, videoSsrc: Ssrc, ds: seq<Datagram>): seq<Bytes> {
    if ds == [] then []
    else
      var (front, d) := (ds[..|ds| - 1], ds[|ds| - 1]);
      Relayed(audioSsrc, videoSsrc, front) + if Passes(audioSsrc, videoSsrc, front, d) then [d.bytes] else []
  }

  /** The viewers get exactly the packets that pass, unchanged and in order. */
  lemma {:induction false} ForwardedAreRelayed(audioSsrc: Ssrc, videoSsrc: Ssrc, h264: bool, ds: seq<Datagram>)
    requires audioSsrc != videoSsrc && AllReadable(ds, videoSsrc, h264)
    ensures Keyframes.BytesOf(HandleAll(Initial(audioSsrc, videoSsrc, h264), ds).forwarded) ==
            Relayed(audioSsrc, videoSsrc, ds)
  {
    hide Ignores, Passes, Tracking.HandlePacket;
    if ds != [] {
      var (front, d) := (ds[..|ds| - 1], ds[|ds| - 1]);
      var m := HandleAll(Initial(audioSsrc, videoSsrc, h264), front);
      ForwardedAreRelayed(audioSsrc, videoSsrc, h264, front);
      PassesIff(audioSsrc, videoSsrc, h264, front, d);
      if Ignores(m, d) {
        assert Relayed(audioSsrc, videoSsrc, ds) == Relayed(audioSsrc, videoSsrc, front) + [];
      } else {
        ForwardsOne(m, d);
      }
    }
  }

  lemma ForwardsOne(m: Media, d: Datagram)
    requires Readable(d, m.videoSsrc, m.h264) && !Ignores(m, d)
    ensures Keyframes.BytesOf(Handle(m, d).forwarded) == Keyframes.BytesOf(m.forwarded) + [d.bytes]
  {
    hide Tracking.HandlePacket;
    var p := Accept(m.sources[SsrcOf(d)], d, SsrcOf(d) == m.videoSsrc && m.h264).1;
    assert p.bytes == d.bytes;
  }

  /** With one SSRC for both, as with no video packets at all, nothing is ever passed on. */
  lemma {:induction false} NothingForwardedIff(audioSsrc: Ssrc, videoSsrc: Ssrc, h264: bool, ds: seq<Datagram>)
    requires AllReadable(ds, videoSsrc, h264)
    ensures HandleAll(Initial(audioSsrc, videoSsrc, h264), ds).forwarded == [] <==>
            audioSsrc == videoSsrc || Of(ds, videoSsrc) == []
  {
    if audioSsrc == videoSsrc {
      SameSsrcIsSilent(audioSsrc, h264, ds);
    } else {
      hide HandleAll;
      ForwardedAreRelayed(audioSsrc, videoSsrc, h264, ds);
      RelayedIff(audioSsrc, videoSsrc, ds);
      var sent := HandleAll(Initial(audioSsrc, videoSsrc, h264), ds).forwarded;
      assert |Keyframes.BytesOf(sent)| == |sent|;
    }
  }

  lemma {:induction false} SameSsrcIsSilent(ssrc: Ssrc, h264: bool, ds: seq<Datagram>)
    requires AllReadable(ds, ssrc, h264)
    ensures HandleAll(Initial(ssrc, ssrc, h264), ds) == Initial(ssrc, ssrc, h264)
  {
    if ds != [] { SameSsrcIsSilent(ssrc, h264, ds[..|ds| - 1]); }
  }

  lemma {:induction false} RelayedIff(audioSsrc: Ssrc, videoSsrc: Ssrc, ds: seq<Datagram>)
    requires audioSsrc != videoSsrc
    ensures Relayed(audioSsrc, videoSsrc, ds) == [] <==> Of(ds, videoSsrc) == []
  {
    if ds != [] {
      RelayedIff(audioSsrc, videoSsrc, ds[..|ds| - 1]);
    }
  }

  // ---------------------------------------------------------------------------
  // A well-behaved source

  type VideoPacket = d: Datagram | GetPayload(d.bytes).Inside?
    witness Incoming(seq(12, _ => 0), false, 0)

  /** A packet and the number its sender gave it, of which it carries the low 16 bits. */
  datatype Sending = Sending(number: nat, datagram: VideoPacket)

  ghost function Deliveries(xs: seq<Sending>): seq<History.Delivery> {
    seq(|xs|, i requires 0 <= i < |xs| =>
      History.Delivery(xs[i].number, xs[i].datagram.nackLostPackets, xs[i].datagram.now))
  }

  ghost function Arrivals(xs: seq<Sending>): seq<VideoPacket> {
    seq(|xs|, i requires 0 <= i < |xs| => xs[i].datagram)
  }

  /** The packets under their sender's numbers. */
  ghost function Labelled(xs: seq<Sending>): seq<Keyframes.Packet> {
    seq(|xs|, i requires 0 <= i < |xs| => Keyframes.Received(xs[i].datagram.bytes, xs[i].number))
  }

  ghost predicate CarryNumbers(xs: seq<Sending>) {
    forall i :: 0 <= i < |xs| ==> SequenceNumber(xs[i].datagram) == Tracking.Key(xs[i].number)
  }

  /** Tracker and keyframe store have seen the packets under their sender's numbers. */
  ghost predicate TrueTo(xs: seq<Sending>, s: Source) {
    && s.tracker == History.Run(History.WireAll(Deliveries(xs))).0
    && s.capture == Keyframes.TakeAll(Keyframes.NOTHING, Labelled(xs))
  }

  lemma NumberReturned(t: Tracking.Tracker, n: Counter.Seq16, nackLostPackets: bool, now: nat)
    ensures Tracking.HandlePacket(t, n, nackLostPackets, now).1 == Tracking.Track(t, n).1
  {
    hide Tracking.Track, Tracking.MarkAll, Tracking.GetNackList;
  }

  lemma CaptureStep(xs: seq<Sending>, x: Sending)
    ensures
      Keyframes.TakeAll(Keyframes.NOTHING, Labelled(xs + [x])) ==
      Keyframes.Take(Keyframes.TakeAll(Keyframes.NOTHING, Labelled(xs)),
                     Keyframes.Received(x.datagram.bytes, x.number))
  {
    hide Keyframes.Take;
    var p := Keyframes.Received(x.datagram.bytes, x.number);
    assert Labelled(xs + [x]) == Labelled(xs) + [p];
    assert (Labelled(xs) + [p])[..|xs|] == Labelled(xs);
  }

  lemma TrackerStep(xs: seq<Sending>, x: Sending)
    ensures
      History.Run(History.WireAll(Deliveries(xs + [x]))).0 ==
      Tracking.HandlePacket(History.Run(History.WireAll(Deliveries(xs))).0, Tracking.Key(x.number),
                            x.datagram.nackLostPackets, x.datagram.now).0
  {
    hide Tracking.HandlePacket, History.Run, History.WireAll, History.HistoryStep, History.Agrees;
    var d := History.Delivery(x.number, x.datagram.nackLostPackets, x.datagram.now);
    assert Deliveries(xs + [x]) == Deliveries(xs) + [d];
    History.DeliverSnoc(Deliveries(xs), d);
    History.RunSnoc(History.WireAll(Deliveries(xs)), History.Wire(d));
  }

  lemma TrueStep(xs: seq<Sending>, x: Sending, s: Source)
    requires TrueTo(xs, s) && SequenceNumber(x.datagram) == Tracking.Key(x.number)
    requires Tracking.Track(s.tracker, Tracking.Key(x.number)).1 == x.number
    ensures TrueTo(xs + [x], Accept(s, x.datagram, true).0)
  {
    hide Tracking.HandlePacket, Tracking.Track, Keyframes.Take, Keyframes.TakeAll, History.Run, History.WireAll,
      SequenceNumber, Tracking.Key, Deliveries, Labelled;
    NumberReturned(s.tracker, Tracking.Key(x.number), x.datagram.nackLostPackets, x.datagram.now);
    CaptureStep(xs, x);
    TrackerStep(xs, x);
  }

  /** Every packet so far was given its sender's number. */
  ghost predicate AllReturned(xs: seq<Sending>) {
    forall i :: 0 <= i < |xs| ==>
      Tracking.Track(History.Run(History.WireAll(Deliveries(xs)[..i])).0, Tracking.Key(xs[i].number)).1 == xs[i].number
  }

  lemma {:induction false} ReturnedIsTrue(xs: seq<Sending>)
    requires CarryNumbers(xs) && AllReturned(xs)
    ensures TrueTo(xs, AcceptAll(Arrivals(xs), true))
  {
    hide Tracking.Track, Accept, History.Run, History.WireAll, TrueTo, SequenceNumber, Tracking.Key, Deliveries,
      AllReturned;
    if xs == [] {
      Begin();
    } else {
      var (front, x) := (xs[..|xs| - 1], xs[|xs| - 1]);
      assert xs == front + [x];
      ReturnedBefore(front, x);
      ReturnedIsTrue(front);
      assert Arrivals(xs)[..|front|] == Arrivals(front);
      ReturnedNow(front, x);
      TrueTracker(front, AcceptAll(Arrivals(front), true));
      TrueStep(front, x, AcceptAll(Arrivals(front), true));
    }
  }

  lemma Begin()
    ensures TrueTo([], SILENCE)
  {
    hide Tracking.Track, Keyframes.Take, History.Run, History.WireAll;
    History.NothingYet(Deliveries([]));
    assert Labelled([]) == [];
  }

  lemma TrueTracker(xs: seq<Sending>, s: Source)
    requires TrueTo(xs, s)
    ensures s.tracker == History.Run(History.WireAll(Deliveries(xs))).0
  {
    hide History.Run, Keyframes.TakeAll;
  }

  lemma ReturnedBefore(front: seq<Sending>, x: Sending)
    requires AllReturned(front + [x])
    ensures AllReturned(front)
  {
    hide Tracking.Track, History.Run, History.WireAll;
    var xs := front + [x];
    assert forall i :: 0 <= i < |front| ==> Deliveries(front)[..i] == Deliveries(xs)[..i] && xs[i] == front[i];
  }

  lemma ReturnedNow(front: seq<Sending>, x: Sending)
    requires AllReturned(front + [x])
    ensures
      Tracking.Track(History.Run(History.WireAll(Deliveries(front))).0, Tracking.Key(x.number)).1 == x.number
  {
    hide Tracking.Track, History.Run, History.WireAll;
    var xs := front + [x];
    assert xs[|front|] == x;
    assert Deliveries(xs)[..|front|] == Deliveries(front);
  }

  /** Every packet of a well-behaved source is numbered as its sender did. */
  lemma SourceIsTrue(xs: seq<Sending>)
    requires CarryNumbers(xs) && History.WellBehavedSource(Deliveries(xs))
    ensures TrueTo(xs, AcceptAll(Arrivals(xs), true))
  {
    hide Tracking.Track, History.Run, History.WireAll, History.WellBehavedSource, TrueTo;
    var ds := Deliveries(xs);
    forall i | 0 <= i < |xs|
      ensures Tracking.Track(History.Run(History.WireAll(ds[..i])).0, Tracking.Key(xs[i].number)).1 == xs[i].number
    {
      assert ds[i].t == xs[i].number;
      History.ReturnsTrueNumber(ds, i);
    }
    ReturnedIsTrue(xs);
  }

  /** The sender lays out every packet with the low 16 bits of its number in the sequence field. */
  ghost predicate LaidOut(xs: seq<Sending>, laid: seq<Rtp>, videoSsrc: Ssrc) {
    |laid| == |xs| &&
    forall i :: 0 <= i < |xs| ==>
      && WellFormed(laid[i]) && xs[i].datagram.bytes == Encode(laid[i])
      && Network(laid[i].sequence) == Tracking.Key(xs[i].number) && Network(laid[i].ssrc) == videoSsrc
  }

  /** Then the receiver finds these numbers in the packets, and takes them for that source's. */
  lemma LaidOutIsRead(xs: seq<Sending>, laid: seq<Rtp>, videoSsrc: Ssrc)
    requires LaidOut(xs, laid, videoSsrc)
    ensures CarryNumbers(xs) && Of(Arrivals(xs), videoSsrc) == Arrivals(xs)
  {
    hide Encode;
    forall i | 0 <= i < |xs|
      ensures SequenceNumber(xs[i].datagram) == Tracking.Key(xs[i].number) && SsrcOf(xs[i].datagram) == videoSsrc
    {
      HeaderReadsBack(laid[i]);
    }
    hide WellFormed, Network, SsrcOf;
    AllOfOne(Arrivals(xs), videoSsrc);
  }

  lemma {:induction false} AllOfOne(ds: seq<Datagram>, ssrc: Ssrc)
    requires forall i :: 0 <= i < |ds| ==> SsrcOf(ds[i]) == ssrc
    ensures Of(ds, ssrc) == ds
  {
    hide SsrcOf, Of;
    if ds == [] {
      OfNone(ssrc);
    } else {
      var (front, d) := (ds[..|ds| - 1], ds[|ds| - 1]);
      AllOfOne(front, ssrc);
      assert ds == front + [d];
      OfSnoc(front, d, ssrc);
    }
  }

  lemma OfNone(ssrc: Ssrc)
    ensures Of([], ssrc) == []
  {
  }

  lemma OfSnoc(ds: seq<Datagram>, d: Datagram, ssrc: Ssrc)
    requires SsrcOf(d) == ssrc
    ensures Of(ds + [d], ssrc) == Of(ds, ssrc) + [d]
  {
    hide SsrcOf;
    assert (ds + [d])[..|ds|] == ds && (ds + [d])[|ds|] == d;
  }

  /** What a sender does with a keyframe: NAL units in packets of consecutive numbers. */
  ghost predicate SentAs(us: seq<H264.Unit>, rs: seq<Rtp>, sent: seq<Keyframes.Packet>, base: nat) {
    && (forall u :: u in us ==> H264.Sendable(u))
    && H264.Carries(rs, H264.PacketizeAll(us))
    && Keyframes.IsSent(sent, rs, base)
  }

  /** A frame alone between parts of other frames. */
  ghost predicate Isolated(before: seq<Sending>, arrivals: seq<Sending>, next: Sending, sent: seq<Keyframes.Packet>)
    requires sent != []
  {
    var parts := Keyframes.Parts(Labelled(before));
    var p := Labelled([next])[0];
    && multiset(Keyframes.Parts(Labelled(arrivals))) == multiset(sent)
    && (parts == [] || Keyframes.When(parts[|parts| - 1]) != Keyframes.When(sent[0]))
    && Keyframes.IsKeyframePart(Keyframes.Carried(p)) && Keyframes.When(p) != Keyframes.When(sent[0])
  }

  /** From a well-behaved source to the decoder, through any traffic: a keyframe sent in
      consecutive packets and delivered in any order the counter can follow, possibly after
      NACKs, among other video packets and any audio, is the decoder's byte stream once a
      part of another frame arrives. */
  lemma VideoReachesDecoder(
      us: seq<H264.Unit>, rs: seq<Rtp>, sent: seq<Keyframes.Packet>, base: nat,
      before: seq<Sending>, arrivals: seq<Sending>, next: Sending,
      audioSsrc: Ssrc, videoSsrc: Ssrc, traffic: seq<Datagram>)
    requires var xs := before + arrivals + [next]; CarryNumbers(xs) && History.WellBehavedSource(Deliveries(xs))
    requires SentAs(us, rs, sent, base) && sent != [] && Isolated(before, arrivals, next, sent)
    requires audioSsrc != videoSsrc && Of(traffic, videoSsrc) == Arrivals(before + arrivals + [next])
    requires AllReadable(traffic, videoSsrc, true)
    ensures
      var m := HandleAll(Initial(audioSsrc, videoSsrc, true), traffic);
      && videoSsrc in m.sources
      && var keyframe := m.sources[videoSsrc].capture.current.packets;
      && keyframe == sent
      && H264.AllInside(Keyframes.BytesOf(keyframe))
      && H264.Contributions(H264.Payloads(Keyframes.BytesOf(keyframe))) == H264.ByteStream(us)
  {
    hide History.WellBehavedSource, HandleAll, AcceptAll, Of, CarryNumbers, History.Run, History.WireAll,
      Keyframes.TakeAll, Keyframes.Parts, Keyframes.When, Keyframes.Carried, Keyframes.IsKeyframePart,
      Keyframes.IsSent, H264.AllInside, H264.Sendable, H264.Carries, H264.Contributions, H264.Payloads,
      H264.ByteStream, H264.PacketizeAll;
    var (xs, p) := (before + arrivals + [next], Labelled([next])[0]);
    SourceIsTrue(xs);
    VideoIsUndisturbed(audioSsrc, videoSsrc, true, traffic);
    Keyframes.KeyframeReachesDecoder(us, rs, sent, base, Labelled(before), Labelled(arrivals), p);
    assert Labelled(xs) == Labelled(before) + Labelled(arrivals) + [p];
  }

  /** The same for a sender that lays out its packets with its numbers and its SSRC, and whose
      packets come alone. */
  lemma SentVideoReachesDecoder(
      us: seq<H264.Unit>, rs: seq<Rtp>, sent: seq<Keyframes.Packet>, base: nat,
      before: seq<Sending>, arrivals: seq<Sending>, next: Sending, laid: seq<Rtp>,
      audioSsrc: Ssrc, videoSsrc: Ssrc)
    requires
      var xs := before + arrivals + [next];
      LaidOut(xs, laid, videoSsrc) && History.WellBehavedSource(Deliveries(xs)) && audioSsrc != videoSsrc
    requires SentAs(us, rs, sent, base) && sent != [] && Isolated(before, arrivals, next, sent)
    ensures
      var traffic := Arrivals(before + arrivals + [next]);
      && AllReadable(traffic, videoSsrc, true)
      && var m := HandleAll(Initial(audioSsrc, videoSsrc, true), traffic);
      && videoSsrc in m.sources
      && var keyframe := m.sources[videoSsrc].capture.current.packets;
      && H264.AllInside(Keyframes.BytesOf(keyframe))
      && H264.Contributions(H264.Payloads(Keyframes.BytesOf(keyframe))) == H264.ByteStream(us)
  {
    hide History.WellBehavedSource, HandleAll, Of, CarryNumbers, SentAs, Isolated, LaidOut, H264.AllInside,
      H264.Contributions, H264.Payloads, H264.ByteStream;
    var xs := before + arrivals + [next];
    LaidOutIsRead(xs, laid, videoSsrc);
    assert AllReadable(Arrivals(xs), videoSsrc, true);
    VideoReachesDecoder(us, rs, sent, base, before, arrivals, next, audioSsrc, videoSsrc, Arrivals(xs));
  }
}
