/** src/FtlControlConnection.cpp: the handshake and the attributes of a control connection. */
module ControlConnection {
  import opened Collections
  import opened ControlFraming
  import opened ControlText

  datatype Metadata = Metadata(
    vendorName: string,
    vendorVersion: string,
    hasVideo: bool,
    hasAudio: bool,
    videoCodec: VideoCodec,
    audioCodec: AudioCodec,
    videoWidth: nat,
    videoHeight: nat,
    videoSsrc: nat,
    audioSsrc: nat,
    videoPayloadType: nat,
    audioPayloadType: nat)

  const NO_METADATA := Metadata("", "", false, false, NoVideoCodec, NoAudioCodec, 0, 0, 0, 0, 0, 0)

  const U8: nat := 0x100
  const U16: nat := 0x1_0000
  const U32: nat := 0x1_0000_0000

  /** What a connection did, in order: replies to the client, requests to its manager, and
      the moments it accepted a key or asked its thread to stop. */
  datatype Entry =
    | SentPayload(payload: Bytes)
    | SentOk
    | SentPort(port: nat)
    | SentPong
    | KeyRequested(channel: nat, hash: Bytes)
    | KeyMatched(key: Bytes, payload: Bytes, hash: Bytes)
    | PortRequested(channel: nat, metadata: Metadata)
    | StopRequested

  datatype Connection = Connection(
    hmacRequested: bool,
    isAuthenticated: bool,
    isStreaming: bool,
    channelId: nat,
    hmacPayload: Bytes,
    clientHmacHash: Bytes,
    metadata: Metadata,
    commandBuffer: string,
    draws: nat,
    log: seq<Entry>)

  const FRESH := Connection(false, false, false, 0, [], [], NO_METADATA, "", 0, [])

  /** The keyed hash, and the source of random payloads. */
  datatype Env = Env(hmac: (Bytes, Bytes) -> Bytes, random: nat -> Bytes)

  function Note(c: Connection, e: Entry): Connection {
    c.(log := c.log + [e])
  }

  // ---------------------------------------------------------------------------
  // Commands

  function OnHmac(env: Env, c: Connection): Connection {
    var payload := env.random(c.draws);
    Note(c.(hmacPayload := payload, draws := c.draws + 1), SentPayload(payload))
  }

  function OnConnect(c: Connection, command: string): Connection {
    match FindConnect(command, 0)
    case None => Note(c, StopRequested)
    case Some((digits, hash)) =>
      if Parse(digits) >= U64 || c.hmacRequested then Note(c, StopRequested)
      else
        var channel := Parse(digits) % U32;
        Note(c.(channelId := channel, clientHmacHash := HexBytes(hash), hmacRequested := true),
             KeyRequested(channel, HexBytes(hash)))
  }

  function Number(value: string, modulus: nat, otherwise: nat): nat
    requires modulus > 0
  {
    match Stoul(value)
    case Some(n) => n % modulus
    case None => otherwise
  }

  function SetAttribute(m: Metadata, key: string, value: string): Metadata {
    if key == "VendorName" then m.(vendorName := value)
    else if key == "VendorVersion" then m.(vendorVersion := value)
    else if key == "Video" then m.(hasVideo := value == "true")
    else if key == "Audio" then m.(hasAudio := value == "true")
    else if key == "VideoCodec" then m.(videoCodec := ParseVideoCodec(value))
    else if key == "AudioCodec" then m.(audioCodec := ParseAudioCodec(value))
    else if key == "VideoWidth" then m.(videoWidth := Number(value, U16, m.videoWidth))
    else if key == "VideoHeight" then m.(videoHeight := Number(value, U16, m.videoHeight))
    else if key == "VideoIngestSSRC" then m.(videoSsrc := Number(value, U32, m.videoSsrc))
    else if key == "AudioIngestSSRC" then m.(audioSsrc := Number(value, U32, m.audioSsrc))
    else if key == "VideoPayloadType" then m.(videoPayloadType := Number(value, U8, m.videoPayloadType))
    else if key == "AudioPayloadType" then m.(audioPayloadType := Number(value, U8, m.audioPayloadType))
    else m
  }

  function OnAttribute(c: Connection, key: string, value: string): Connection {
    if !c.isAuthenticated || c.isStreaming then Note(c, StopRequested)
    else c.(metadata := SetAttribute(c.metadata, key, value))
  }

  /** Metadata a stream can be started with. */
  predicate Startable(m: Metadata) {
    && (m.hasAudio || m.hasVideo)
    && (m.hasAudio ==> m.audioPayloadType != 0 && m.audioSsrc != 0 && m.audioCodec != NoAudioCodec)
    && (m.hasVideo ==> m.videoPayloadType != 0 && m.videoSsrc != 0 && m.videoCodec != NoVideoCodec)
  }

  function OnDot(c: Connection): Connection {
    if c.isAuthenticated && Startable(c.metadata) then Note(c, PortRequested(c.channelId, c.metadata))
    else Note(c, StopRequested)
  }

  function Process(env: Env, c: Connection, command: string): Connection {
    if command == "HMAC" then OnHmac(env, c)
    else if StartsWith(command, 0, "CONNECT") then OnConnect(c, command)
    else if SplitAttribute(command).Some? then
      var (key, value) := SplitAttribute(command).value;
      OnAttribute(c, key, value)
    else if command == "." then OnDot(c)
    else if StartsWith(command, 0, "PING") then Note(c, SentPong)
    else c
  }

  function ProcessAll(env: Env, c: Connection, commands: seq<string>): Connection
    decreases |commands|
  {
    if commands == [] then c else ProcessAll(env, Process(env, c, commands[0]), commands[1..])
  }

  function ReceiveBytes(env: Env, c: Connection, bytes: string): Connection {
    var (commands, rest) := Feed(c.commandBuffer, bytes);
    ProcessAll(env, c, commands).(commandBuffer := rest)
  }

  function ReceiveAll(env: Env, c: Connection, chunks: seq<string>): Connection
    decreases |chunks|
  {
    if chunks == [] then c else ReceiveAll(env, ReceiveBytes(env, c, chunks[0]), chunks[1..])
  }

  function ProvideKey(env: Env, c: Connection, key: Bytes): Connection {
    if c.isAuthenticated || !c.hmacRequested then c
    else if env.hmac(key, c.hmacPayload) == c.clientHmacHash then
      Note(Note(c.(isAuthenticated := true), KeyMatched(key, c.hmacPayload, c.clientHmacHash)), SentOk)
    else Note(c, StopRequested)
  }

  function StartMediaPort(c: Connection, port: nat): Connection {
    Note(c.(isStreaming := true), SentPort(port))
  }

  // ---------------------------------------------------------------------------
  // Handshake safety

  /** The payload sent last; nothing if none was sent. */
  function LastPayload(log: seq<Entry>): Bytes {
    if log == [] then []
    else if log[|log| - 1].SentPayload? then log[|log| - 1].payload
    else LastPayload(log[..|log| - 1])
  }

  ghost predicate LastSentAt(log: seq<Entry>, j: int) {
    0 <= j < |log| && log[j].SentPayload? && forall k :: j < k < |log| ==> !log[k].SentPayload?
  }

  lemma {:induction false} LastPayloadIsLast(log: seq<Entry>)
    ensures
      || (LastPayload(log) == [] && forall j :: 0 <= j < |log| ==> !log[j].SentPayload?)
      || (exists j :: LastSentAt(log, j) && log[j].payload == LastPayload(log))
  {
    if log != [] {
      var (n, front) := (|log| - 1, log[..|log| - 1]);
      assert forall i :: 0 <= i < n ==> front[i] == log[i];
      if log[n].SentPayload? {
        assert LastSentAt(log, n);
      } else {
        LastPayloadIsLast(front);
        if j :| LastSentAt(front, j) && front[j].payload == LastPayload(front) {
          assert LastSentAt(log, j);
        }
      }
    }
  }

  lemma LastPayloadSnoc(log: seq<Entry>, e: Entry)
    requires !e.SentPayload?
    ensures LastPayload(log + [e]) == LastPayload(log)
  {
    assert (log + [e])[..|log|] == log;
  }

  /** Entry `k` says that a key turned the payload last sent into the hash the client gave
      when the key for the channel was asked for, at entry `i`. */
  ghost predicate MatchedAt(env: Env, log: seq<Entry>, channel: nat, i: int, k: int) {
    && 0 <= i < k < |log| && log[k].KeyMatched?
    && log[i] == KeyRequested(channel, log[k].hash)
    && log[k].payload == LastPayload(log[..k])
    && env.hmac(log[k].key, log[k].payload) == log[k].hash
  }

  /** In this log the channel's key was asked for, and then one matched. */
  ghost predicate Vouched(env: Env, log: seq<Entry>, channel: nat) {
    exists i, k :: MatchedAt(env, log, channel, i, k)
  }

  /** The key is requested at most once; every media port is requested for that channel, after
      a key matched, with metadata a stream can be started with. */
  ghost predicate SafeLog(env: Env, log: seq<Entry>) {
    && (forall i, j :: 0 <= i < j < |log| ==> !(log[i].KeyRequested? && log[j].KeyRequested?))
    && (forall j :: 0 <= j < |log| && log[j].PortRequested? ==>
          Vouched(env, log[..j], log[j].channel) && Startable(log[j].metadata))
  }

  ghost predicate Honest(env: Env, c: Connection) {
    && SafeLog(env, c.log)
    && (c.hmacRequested <==> exists i :: 0 <= i < |c.log| && c.log[i].KeyRequested?)
    && (c.hmacRequested ==> KeyRequested(c.channelId, c.clientHmacHash) in c.log)
    && c.hmacPayload == LastPayload(c.log)
    && (c.isAuthenticated ==> Vouched(env, c.log, c.channelId))
    && OneValue(c.metadata.vendorName) && OneValue(c.metadata.vendorVersion)
  }

  lemma VouchedExtends(env: Env, log: seq<Entry>, more: seq<Entry>, channel: nat)
    requires Vouched(env, log, channel)
    ensures Vouched(env, log + more, channel)
  {
    var i, k :| MatchedAt(env, log, channel, i, k);
    var all := log + more;
    assert all[i] == log[i] && all[k] == log[k] && all[..k] == log[..k];
    assert MatchedAt(env, all, channel, i, k);
  }

  lemma SafeNote(env: Env, log: seq<Entry>, e: Entry)
    requires SafeLog(env, log)
    requires e.KeyRequested? ==> forall i :: 0 <= i < |log| ==> !log[i].KeyRequested?
    requires e.PortRequested? ==> Vouched(env, log, e.channel) && Startable(e.metadata)
    ensures SafeLog(env, log + [e])
  {
    var all := log + [e];
    forall j | 0 <= j < |all| && all[j].PortRequested?
      ensures Vouched(env, all[..j], all[j].channel) && Startable(all[j].metadata)
    {
      if j < |log| { assert all[..j] == log[..j]; } else { assert all[..j] == log; }
    }
  }

  /** Noting anything but a new key request or an unvouched port request is harmless. */
  lemma HonestNote(env: Env, c: Connection, e: Entry)
    requires Honest(env, c) && !e.KeyRequested? && !e.SentPayload?
    requires e.PortRequested? ==> c.isAuthenticated && e.channel == c.channelId && Startable(e.metadata)
    ensures Honest(env, Note(c, e))
  {
    hide Startable, SafeLog, OneValue, LastPayload, Vouched;
    SafeNote(env, c.log, e);
    if c.isAuthenticated { VouchedExtends(env, c.log, [e], c.channelId); }
    var d := Note(c, e);
    LastPayloadSnoc(c.log, e);
    if c.hmacRequested {
      var i :| 0 <= i < |c.log| && c.log[i] == KeyRequested(c.channelId, c.clientHmacHash);
      assert d.log[i] == c.log[i];
    }
  }

  /** A new payload, sent to the client. */
  lemma HonestPayload(env: Env, c: Connection, payload: Bytes)
    requires Honest(env, c)
    ensures Honest(env, Note(c.(hmacPayload := payload, draws := c.draws + 1), SentPayload(payload)))
  {
    hide SafeLog, OneValue;
    var e := SentPayload(payload);
    SafeNote(env, c.log, e);
    if c.isAuthenticated { VouchedExtends(env, c.log, [e], c.channelId); }
    var d := Note(c, e);
    if c.hmacRequested {
      var i :| 0 <= i < |c.log| && c.log[i] == KeyRequested(c.channelId, c.clientHmacHash);
      assert d.log[i] == c.log[i];
    }
  }

  lemma HonestConnect(env: Env, c: Connection, command: string)
    requires Honest(env, c)
    ensures Honest(env, OnConnect(c, command))
  {
    hide OneValue, Parse, HexBytes;
    var d := OnConnect(c, command);
    if FindConnect(command, 0).Some? && Parse(FindConnect(command, 0).value.0) < U64 && !c.hmacRequested {
      var e := KeyRequested(d.channelId, d.clientHmacHash);
      SafeNote(env, c.log, e);
      assert d.log[|c.log|] == e && d.log[..|c.log|] == c.log;
      assert !c.isAuthenticated;
    } else {
      HonestNote(env, c, StopRequested);
    }
  }

  lemma HonestAttribute(env: Env, c: Connection, key: string, value: string)
    requires Honest(env, c) && OneValue(value)
    ensures Honest(env, OnAttribute(c, key, value))
  {
    hide SafeLog, Vouched, OneValue, Number, ParseVideoCodec, ParseAudioCodec;
    if !c.isAuthenticated || c.isStreaming {
      HonestNote(env, c, StopRequested);
    }
  }

  lemma HonestProcess(env: Env, c: Connection, command: string)
    requires Honest(env, c)
    ensures Honest(env, Process(env, c, command))
  {
    hide SafeLog, Vouched, OnConnect, OnAttribute, Startable, SplitAttribute, OneValue;
    if command == "HMAC" {
      HonestPayload(env, c, env.random(c.draws));
    } else if StartsWith(command, 0, "CONNECT") {
      HonestConnect(env, c, command);
    } else if SplitAttribute(command).Some? {
      SplitGivesOneValue(command);
      HonestAttribute(env, c, SplitAttribute(command).value.0, SplitAttribute(command).value.1);
    } else if command == "." {
      if c.isAuthenticated && Startable(c.metadata) {
        HonestNote(env, c, PortRequested(c.channelId, c.metadata));
      } else {
        HonestNote(env, c, StopRequested);
      }
    } else if StartsWith(command, 0, "PING") {
      HonestNote(env, c, SentPong);
    }
  }

  lemma {:induction false} HonestProcessAll(env: Env, c: Connection, commands: seq<string>)
    requires Honest(env, c)
    ensures Honest(env, ProcessAll(env, c, commands))
    decreases |commands|
  {
    hide Honest, Process;
    if commands != [] {
      HonestProcess(env, c, commands[0]);
      HonestProcessAll(env, Process(env, c, commands[0]), commands[1..]);
    }
  }

  lemma HonestReceive(env: Env, c: Connection, bytes: string)
    requires Honest(env, c)
    ensures Honest(env, ReceiveBytes(env, c, bytes))
  {
    hide SafeLog, Vouched, OneValue, Feed, ProcessAll;
    HonestProcessAll(env, c, Feed(c.commandBuffer, bytes).0);
  }

  lemma HonestKey(env: Env, c: Connection, key: Bytes)
    requires Honest(env, c)
    ensures Honest(env, ProvideKey(env, c, key))
  {
    hide OneValue, Startable;
    if !c.isAuthenticated && c.hmacRequested {
      if env.hmac(key, c.hmacPayload) == c.clientHmacHash {
        var e := KeyMatched(key, c.hmacPayload, c.clientHmacHash);
        HonestNote(env, c, e);
        var d := Note(c, e);
        var i :| 0 <= i < |c.log| && c.log[i] == KeyRequested(c.channelId, c.clientHmacHash);
        assert d.log[i] == c.log[i] && d.log[|c.log|] == e && d.log[..|c.log|] == c.log;
        assert MatchedAt(env, d.log, d.channelId, i, |c.log|);
        HonestNote(env, d.(isAuthenticated := true), SentOk);
      } else {
        HonestNote(env, c, StopRequested);
      }
    }
  }

  /** What can happen to a connection, in any order. */
  datatype Input = Received(bytes: string) | KeyProvided(key: Bytes) | PortStarted(port: nat)

  function Take(env: Env, c: Connection, input: Input): Connection {
    match input
    case Received(bytes) => ReceiveBytes(env, c, bytes)
    case KeyProvided(key) => ProvideKey(env, c, key)
    case PortStarted(port) => StartMediaPort(c, port)
  }

  function TakeAll(env: Env, c: Connection, inputs: seq<Input>): Connection
    decreases |inputs|
  {
    if inputs == [] then c else TakeAll(env, Take(env, c, inputs[0]), inputs[1..])
  }

  lemma {:induction false} HonestTakeAll(env: Env, c: Connection, inputs: seq<Input>)
    requires Honest(env, c)
    ensures Honest(env, TakeAll(env, c, inputs))
    decreases |inputs|
  {
    hide SafeLog, Vouched, OneValue, ReceiveBytes, ProvideKey;
    if inputs != [] {
      match inputs[0] {
        case Received(bytes) => HonestReceive(env, c, bytes);
        case KeyProvided(key) => HonestKey(env, c, key);
        case PortStarted(port) => HonestNote(env, c.(isStreaming := true), SentPort(port));
      }
      HonestTakeAll(env, Take(env, c, inputs[0]), inputs[1..]);
    }
  }

  lemma FreshIsHonest(env: Env)
    ensures Honest(env, FRESH)
  {
  }

  /** Handshake safety: in every interleaving of received bytes, keys provided and ports
      started, whatever the hash function and the random payloads. */
  lemma HandshakeSafety(env: Env, inputs: seq<Input>)
    ensures SafeLog(env, TakeAll(env, FRESH, inputs).log)
  {
    hide TakeAll;
    FreshIsHonest(env);
    HonestTakeAll(env, FRESH, inputs);
  }
}
