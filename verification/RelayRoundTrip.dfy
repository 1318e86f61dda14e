/** A relay from node to node: src/FtlClient.cpp prints the metadata of a stream as control
    commands, the other node's control connection reads them back. */
module RelayRoundTrip {
  import opened Collections
  import opened ControlFraming
  import opened ControlText
  import opened ControlConnection
  import opened FtlControlConnection

  datatype Key =
    | ProtocolVersion | VendorName | VendorVersion
    | Video | VideoCodecKey | VideoHeight | VideoWidth | VideoPayloadType | VideoIngestSSRC
    | Audio | AudioCodecKey | AudioPayloadType | AudioIngestSSRC

  function KeyText(k: Key): string {
    match k
    case ProtocolVersion => "ProtocolVersion"
    case VendorName => "VendorName"
    case VendorVersion => "VendorVersion"
    case Video => "Video"
    case VideoCodecKey => "VideoCodec"
    case VideoHeight => "VideoHeight"
    case VideoWidth => "VideoWidth"
    case VideoPayloadType => "VideoPayloadType"
    case VideoIngestSSRC => "VideoIngestSSRC"
    case Audio => "Audio"
    case AudioCodecKey => "AudioCodec"
    case AudioPayloadType => "AudioPayloadType"
    case AudioIngestSSRC => "AudioIngestSSRC"
  }

  datatype Attribute = Attribute(key: Key, value: string)

  function Command(a: Attribute): string {
    KeyText(a.key) + ": " + a.value
  }

  function Flag(b: bool): string {
    if b then "true" else "false"
  }

  /** The attributes in the order sendControlStartStream prints them. */
  function PrintedAttributes(m: Metadata): seq<Attribute> {
    [Attribute(ProtocolVersion, "0.9"),
     Attribute(VendorName, m.vendorName),
     Attribute(VendorVersion, m.vendorVersion),
     Attribute(Video, Flag(m.hasVideo)),
     Attribute(VideoCodecKey, VideoCodecString(m.videoCodec)),
     Attribute(VideoHeight, Format(m.videoHeight)),
     Attribute(VideoWidth, Format(m.videoWidth)),
     Attribute(VideoPayloadType, Format(m.videoPayloadType)),
     Attribute(VideoIngestSSRC, Format(m.videoSsrc)),
     Attribute(Audio, Flag(m.hasAudio)),
     Attribute(AudioCodecKey, AudioCodecString(m.audioCodec)),
     Attribute(AudioPayloadType, Format(m.audioPayloadType)),
     Attribute(AudioIngestSSRC, Format(m.audioSsrc))]
  }

  function Commands(attributes: seq<Attribute>): seq<string> {
    seq(|attributes|, i requires 0 <= i < |attributes| => Command(attributes[i]))
  }

  function Printed(m: Metadata): seq<string> {
    Commands(PrintedAttributes(m)) + ["."]
  }

  /** The fields fit the integer types of the metadata. */
  predicate FitsTypes(m: Metadata) {
    && m.videoWidth < U16 && m.videoHeight < U16
    && m.videoSsrc < U32 && m.audioSsrc < U32
    && m.videoPayloadType < U8 && m.audioPayloadType < U8
  }

  // ---------------------------------------------------------------------------
  // One attribute

  /** What reading one printed attribute does; with an empty value it is no attribute at all. */
  function Read(m: Metadata, a: Attribute): Metadata {
    if a.value == "" then m
    else
      match a.key
      case ProtocolVersion => m
      case VendorName => m.(vendorName := a.value)
      case VendorVersion => m.(vendorVersion := a.value)
      case Video => m.(hasVideo := a.value == "true")
      case VideoCodecKey => m.(videoCodec := ParseVideoCodec(a.value))
      case VideoHeight => m.(videoHeight := Number(a.value, U16, m.videoHeight))
      case VideoWidth => m.(videoWidth := Number(a.value, U16, m.videoWidth))
      case VideoPayloadType => m.(videoPayloadType := Number(a.value, U8, m.videoPayloadType))
      case VideoIngestSSRC => m.(videoSsrc := Number(a.value, U32, m.videoSsrc))
      case Audio => m.(hasAudio := a.value == "true")
      case AudioCodecKey => m.(audioCodec := ParseAudioCodec(a.value))
      case AudioPayloadType => m.(audioPayloadType := Number(a.value, U8, m.audioPayloadType))
      case AudioIngestSSRC => m.(audioSsrc := Number(a.value, U32, m.audioSsrc))
  }

  lemma ReadIsSetAttribute(m: Metadata, a: Attribute)
    requires a.value != ""
    ensures SetAttribute(m, KeyText(a.key), a.value) == Read(m, a)
  {
    hide Number, ParseVideoCodec, ParseAudioCodec;
  }

  /** A key is not mistaken for another command. */
  lemma PlainKey(k: Key)
    ensures
      var s := KeyText(k);
      && |s| >= 2 && s[0] != 'C' && s[0] != 'H' && s[1] != 'I'
      && forall c :: c in s ==> !LineBreak(c) && c != ':'
  {
  }

  lemma AttributeIsRead(env: Env, c: Connection, a: Attribute)
    requires c.isAuthenticated && !c.isStreaming && OneValue(a.value)
    ensures Process(env, c, Command(a)) == c.(metadata := Read(c.metadata, a))
  {
    hide SetAttribute, OneValue, SplitAttribute, KeyText;
    var (key, value) := (KeyText(a.key), a.value);
    PlainKey(a.key);
    PrintedAttributeSplits(key, value);
    var s := Command(a);
    assert s[0] == key[0] && s[1] == key[1] && |s| >= 4;
    if value != "" { ReadIsSetAttribute(c.metadata, a); }
  }

  function ReadAll(m: Metadata, attributes: seq<Attribute>): Metadata
    decreases |attributes|
  {
    if attributes == [] then m else ReadAll(Read(m, attributes[0]), attributes[1..])
  }

  lemma {:induction false} AttributesAreRead(env: Env, c: Connection, attributes: seq<Attribute>)
    requires c.isAuthenticated && !c.isStreaming
    requires forall a :: a in attributes ==> OneValue(a.value)
    ensures ProcessAll(env, c, Commands(attributes)) == c.(metadata := ReadAll(c.metadata, attributes))
    decreases |attributes|
  {
    hide Process, OneValue, Read;
    if attributes != [] {
      var a := attributes[0];
      assert a in attributes;
      AttributeIsRead(env, c, a);
      AttributesAreRead(env, c.(metadata := Read(c.metadata, a)), attributes[1..]);
      assert Commands(attributes)[1..] == Commands(attributes[1..]);
    }
  }

  // ---------------------------------------------------------------------------
  // All attributes together

  lemma SmallMod(n: nat, modulus: nat)
    requires n < modulus
    ensures n % modulus == n
  {
  }

  lemma NumberReadsFormat(n: nat, modulus: nat, otherwise: nat)
    requires n < modulus <= U64
    ensures Format(n) != "" && Number(Format(n), modulus, otherwise) == n
  {
    hide Stoul, Format, Parse;
    FormatParses(n);
    StoulReadsFormat(n);
    SmallMod(n, modulus);
  }

  lemma ReadCons(m: Metadata, a: Attribute, rest: seq<Attribute>)
    ensures ReadAll(m, [a] + rest) == ReadAll(Read(m, a), rest)
  {
    assert ([a] + rest)[1..] == rest;
  }

  lemma {:induction false} ReadAppend(m: Metadata, a: seq<Attribute>, b: seq<Attribute>)
    ensures ReadAll(m, a + b) == ReadAll(ReadAll(m, a), b)
    decreases |a|
  {
    if a == [] {
      assert a + b == b;
    } else {
      assert (a + b)[1..] == a[1..] + b;
      ReadAppend(Read(m, a[0]), a[1..], b);
    }
  }

  lemma VendorRebuilds(m: Metadata)
    ensures ReadAll(NO_METADATA, PrintedAttributes(m)[..3]) ==
            NO_METADATA.(vendorName := m.vendorName, vendorVersion := m.vendorVersion)
  {
    var p := PrintedAttributes(m);
    ReadThree(NO_METADATA, p[0], p[1], p[2]);
    assert p[..3] == [p[0], p[1], p[2]];
  }

  lemma ReadThree(m: Metadata, a: Attribute, b: Attribute, c: Attribute)
    ensures ReadAll(m, [a, b, c]) == Read(Read(Read(m, a), b), c)
  {
    hide Read;
    assert [a, b, c] == [a] + ([b] + ([c] + []));
    ReadCons(m, a, [b] + ([c] + []));
    ReadCons(Read(m, a), b, [c] + []);
    ReadCons(Read(Read(m, a), b), c, []);
  }

  lemma VideoRebuilds(m: Metadata, start: Metadata)
    requires FitsTypes(m) && start.videoCodec == NoVideoCodec
    ensures ReadAll(start, PrintedAttributes(m)[3..9]) ==
            start.(hasVideo := m.hasVideo, videoCodec := m.videoCodec, videoHeight := m.videoHeight,
                   videoWidth := m.videoWidth, videoPayloadType := m.videoPayloadType, videoSsrc := m.videoSsrc)
  {
    hide Number, Format, ReadAll;
    var p := PrintedAttributes(m);
    CodecNamesParse();
    NumberReadsFormat(m.videoHeight, U16, start.videoHeight);
    NumberReadsFormat(m.videoWidth, U16, start.videoWidth);
    NumberReadsFormat(m.videoPayloadType, U8, start.videoPayloadType);
    NumberReadsFormat(m.videoSsrc, U32, start.videoSsrc);
    var middle := Read(Read(Read(start, p[3]), p[4]), p[5]);
    assert middle == start.(hasVideo := m.hasVideo, videoCodec := m.videoCodec, videoHeight := m.videoHeight);
    ReadThree(start, p[3], p[4], p[5]);
    ReadThree(middle, p[6], p[7], p[8]);
    ReadAppend(start, [p[3], p[4], p[5]], [p[6], p[7], p[8]]);
    assert p[3..9] == [p[3], p[4], p[5]] + [p[6], p[7], p[8]];
  }

  lemma AudioRebuilds(m: Metadata, start: Metadata)
    requires FitsTypes(m) && start.audioCodec == NoAudioCodec
    ensures ReadAll(start, PrintedAttributes(m)[9..]) ==
            start.(hasAudio := m.hasAudio, audioCodec := m.audioCodec,
                   audioPayloadType := m.audioPayloadType, audioSsrc := m.audioSsrc)
  {
    hide Number, Format, ReadAll;
    var p := PrintedAttributes(m);
    CodecNamesParse();
    NumberReadsFormat(m.audioPayloadType, U8, start.audioPayloadType);
    NumberReadsFormat(m.audioSsrc, U32, start.audioSsrc);
    ReadCons(start, p[9], [p[10], p[11], p[12]]);
    ReadThree(Read(start, p[9]), p[10], p[11], p[12]);
    assert p[9..] == [p[9]] + [p[10], p[11], p[12]];
  }

  /** Reading the printed attributes rebuilds the metadata field by field. */
  lemma PrintedRebuilds(m: Metadata)
    requires FitsTypes(m)
    ensures ReadAll(NO_METADATA, PrintedAttributes(m)) == m
  {
    hide ReadAll;
    var p := PrintedAttributes(m);
    assert |p| == 13;
    hide PrintedAttributes;
    VendorRebuilds(m);
    var m1 := ReadAll(NO_METADATA, p[..3]);
    VideoRebuilds(m, m1);
    var m2 := ReadAll(m1, p[3..9]);
    AudioRebuilds(m, m2);
    assert p == p[..3] + p[3..9] + p[9..];
    ReadAppend(NO_METADATA, p[..3], p[3..9]);
    ReadAppend(NO_METADATA, p[..3] + p[3..9], p[9..]);
  }

  lemma {:induction false} ProcessAppend(env: Env, c: Connection, a: seq<string>, b: seq<string>)
    ensures ProcessAll(env, c, a + b) == ProcessAll(env, ProcessAll(env, c, a), b)
    decreases |a|
  {
    hide Process;
    if a == [] {
      assert a + b == b;
    } else {
      assert (a + b)[1..] == a[1..] + b;
      ProcessAppend(env, Process(env, c, a[0]), a[1..], b);
    }
  }

  /** Receiving chunk by chunk is framing the chunks and then processing the commands. */
  lemma {:induction false} ReceiveIsFrameThenProcess(env: Env, c: Connection, chunks: seq<string>)
    ensures
      var (commands, rest) := FeedAll(c.commandBuffer, chunks);
      ReceiveAll(env, c, chunks) == ProcessAll(env, c, commands).(commandBuffer := rest)
    decreases |chunks|
  {
    hide Process, Feed, ProcessAll;
    if chunks == [] {
      ProcessNone(env, c);
    } else {
      var (first, left) := Feed(c.commandBuffer, chunks[0]);
      var d := ProcessAll(env, c, first);
      ReceiveIsFrameThenProcess(env, d.(commandBuffer := left), chunks[1..]);
      var (others, rest) := FeedAll(left, chunks[1..]);
      ProcessAllIgnoresBuffer(env, d, others, left);
      ProcessAppend(env, c, first, others);
    }
  }

  lemma ProcessNone(env: Env, c: Connection)
    ensures ProcessAll(env, c, []) == c
  {
  }

  lemma DotIsProcessed(env: Env, c: Connection)
    ensures ProcessAll(env, c, ["."]) == OnDot(c)
  {
    assert SplitAttribute(".") == None by { LastSeparatorIsLast(".", 1); }
    assert ["."][1..] == [];
  }

  lemma DigitsAreOneValue(n: nat)
    ensures OneValue(Format(n))
  {
    hide Format, Parse;
    FormatParses(n);
    assert forall i :: 0 <= i < |Format(n)| ==> Format(n)[i] in Format(n);
  }

  lemma WordsAreOneValue(b: bool, v: VideoCodec, a: AudioCodec)
    ensures OneValue("0.9") && OneValue("janus-ftl-plugin") && OneValue("0.0.0")
    ensures OneValue(Flag(b)) && OneValue(VideoCodecString(v)) && OneValue(AudioCodecString(a))
  {
  }

  lemma PrintedValues(m: Metadata)
    requires OneValue(m.vendorName) && OneValue(m.vendorVersion)
    ensures forall a :: a in PrintedAttributes(m) ==> OneValue(a.value)
  {
    hide Format, OneValue, Flag, VideoCodecString, AudioCodecString;
    WordsAreOneValue(m.hasVideo, m.videoCodec, m.audioCodec);
    WordsAreOneValue(m.hasAudio, m.videoCodec, m.audioCodec);
    DigitsAreOneValue(m.videoHeight);
    DigitsAreOneValue(m.videoWidth);
    DigitsAreOneValue(m.videoPayloadType);
    DigitsAreOneValue(m.videoSsrc);
    DigitsAreOneValue(m.audioPayloadType);
    DigitsAreOneValue(m.audioSsrc);
  }

  lemma PrintedFrames(m: Metadata)
    requires OneValue(m.vendorName) && OneValue(m.vendorVersion)
    ensures forall s :: s in Printed(m) ==> Framable(s)
  {
    hide PrintedAttributes, Framable;
    PrintedValues(m);
    forall s | s in Printed(m) ensures Framable(s) {
      if s == "." {
        PlainTextIsFramable(s);
      } else {
        var i :| 0 <= i < |Printed(m)| && Printed(m)[i] == s;
        CommandFrames(PrintedAttributes(m)[i]);
      }
    }
  }

  lemma CommandFrames(a: Attribute)
    requires OneValue(a.value)
    ensures Framable(Command(a))
  {
    hide KeyText;
    PlainKey(a.key);
    assert forall c :: c in Command(a) ==> c in KeyText(a.key) || c in ": " || c in a.value;
    PlainTextIsFramable(Command(a));
  }

  /** A connection that has authenticated and has not yet been told anything about the stream. */
  predicate Ready(c: Connection) {
    c.isAuthenticated && !c.isStreaming && c.metadata == NO_METADATA && c.commandBuffer == ""
  }

  lemma PrintedIsProcessed(env: Env, c: Connection, m: Metadata)
    requires Ready(c) && FitsTypes(m) && OneValue(m.vendorName) && OneValue(m.vendorVersion)
    ensures ProcessAll(env, c, Printed(m)) == OnDot(c.(metadata := m))
  {
    hide ProcessAll, PrintedAttributes, ReadAll, OneValue;
    PrintedValues(m);
    AttributesAreRead(env, c, PrintedAttributes(m));
    PrintedRebuilds(m);
    ProcessAppend(env, c, Commands(PrintedAttributes(m)), ["."]);
    DotIsProcessed(env, c.(metadata := m));
  }

  /** Relay round trip.  Let any metadata be printed by the relaying node, arrive in any chunks
      at a connection that has authenticated, after any history.  The metadata is rebuilt field
      for field if and only if each vendor string is free of line breaks and of an inner colon
      and space; and then the closing dot raises a media port request with that metadata, if
      a stream can be started with it. */
  lemma RelayRoundTripIff(env: Env, inputs: seq<Input>, m: Metadata, chunks: seq<string>)
    requires Ready(TakeAll(env, FRESH, inputs)) && FitsTypes(m)
    requires Concat(chunks) == Stream(Printed(m), "")
    ensures
      var c := TakeAll(env, FRESH, inputs);
      var d := ReceiveAll(env, c, chunks);
      && (d.metadata == m <==> OneValue(m.vendorName) && OneValue(m.vendorVersion))
      && (OneValue(m.vendorName) && OneValue(m.vendorVersion) ==>
            d == Note(c.(metadata := m), if Startable(m) then PortRequested(c.channelId, m) else StopRequested))
  {
    hide TakeAll, Printed, ProcessAll, OneValue, SafeLog, Vouched, FeedAll, ReceiveAll;
    var c := TakeAll(env, FRESH, inputs);
    ReceiveIsFrameThenProcess(env, c, chunks);
    var (commands, rest) := FeedAll("", chunks);
    FreshIsHonest(env);
    HonestTakeAll(env, FRESH, inputs);
    HonestProcessAll(env, c, commands);
    if OneValue(m.vendorName) && OneValue(m.vendorVersion) {
      PrintedFrames(m);
      FramingIgnoresChunking(Printed(m), "", chunks);
      PrintedIsProcessed(env, c, m);
    }
  }

  /** The metadata a relay sends on: the stream's, under the plugin's own vendor name. */
  function Relayed(m: Metadata): Metadata {
    m.(vendorName := "janus-ftl-plugin", vendorVersion := "0.0.0")
  }

  /** Every stream that an ingest node could start is started by the node it is relayed to. */
  lemma RelayedStreamStarts(env: Env, inputs: seq<Input>, m: Metadata, chunks: seq<string>)
    requires Ready(TakeAll(env, FRESH, inputs)) && FitsTypes(m) && Startable(m)
    requires Concat(chunks) == Stream(Printed(Relayed(m)), "")
    ensures
      var c := TakeAll(env, FRESH, inputs);
      ReceiveAll(env, c, chunks) == Note(c.(metadata := Relayed(m)), PortRequested(c.channelId, Relayed(m)))
  {
    hide TakeAll, ReceiveAll, Printed, OneValue;
    WordsAreOneValue(true, H264, Opus);
    RelayRoundTripIff(env, inputs, Relayed(m), chunks);
  }
}
