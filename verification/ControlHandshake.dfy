/** The handshake carried through: src/FtlClient.cpp asks for a payload, answers it with a keyed
    hash, and the control connection that is then given the key accepts it, or stops. */
module ControlHandshake {
  import opened Collections
  import opened ControlFraming
  import opened ControlText
  import opened ControlConnection
  import opened RelayRoundTrip

  // ---------------------------------------------------------------------------
  // Bytes as text

  function HexDigit(v: nat): char
    requires v < 16
  {
    if v < 10 then ('0' as int + v) as char else ('a' as int + v - 10) as char
  }

  /** Two lower-case hex digits for every byte. */
  function HexText(bytes: Bytes): (s: string)
    ensures forall c :: c in s ==> IsHex(c)
  {
    if bytes == [] then "" else [HexDigit(bytes[0] / 16), HexDigit(bytes[0] % 16)] + HexText(bytes[1..])
  }

  /** Bytes printed as hex digits are read back. */
  lemma {:induction false} HexReadsBack(bytes: Bytes)
    ensures HexBytes(HexText(bytes)) == bytes && |HexText(bytes)| == 2 * |bytes|
  {
    if bytes != [] {
      HexReadsBack(bytes[1..]);
      var s := HexText(bytes);
      assert s[2..] == HexText(bytes[1..]);
      assert HexValue(s[0]) == bytes[0] / 16 && HexValue(s[1]) == bytes[0] % 16;
    }
  }

  /** An odd last digit stands for itself. */
  lemma {:induction false} OddDigitReads(bytes: Bytes, v: nat)
    requires v < 16
    ensures (forall c :: c in HexText(bytes) + [HexDigit(v)] ==> IsHex(c))
    ensures HexBytes(HexText(bytes) + [HexDigit(v)]) == bytes + [v]
  {
    var s := HexText(bytes) + [HexDigit(v)];
    if bytes != [] {
      OddDigitReads(bytes[1..], v);
      assert s[2..] == HexText(bytes[1..]) + [HexDigit(v)];
      assert HexValue(s[0]) == bytes[0] / 16 && HexValue(s[1]) == bytes[0] % 16;
    }
  }

  method ByteArrayToHexString(bytes: Bytes) returns (s: string)
    ensures s == HexText(bytes)
  {
    s := "";
    for i := 0 to |bytes|
      invariant s + HexText(bytes[i..]) == HexText(bytes)
    {
      s := s + [HexDigit(bytes[i] / 16), HexDigit(bytes[i] % 16)];
      assert bytes[i..][1..] == bytes[i + 1..];
    }
  }

  method HexStringToByteArray(text: string) returns (bytes: Bytes)
    requires forall c :: c in text ==> IsHex(c)
    ensures bytes == HexBytes(text)
  {
    bytes := [];
    var offset := 0;
    while offset < |text|
      invariant offset <= |text| + 1
      invariant bytes + HexBytes(text[Min(offset, |text|)..]) == HexBytes(text)
    {
      var rest := text[offset..];
      var high: nat := HexValue(rest[0]);
      if |rest| == 1 {
        bytes := bytes + [high];
      } else {
        bytes := bytes + [16 * high + HexValue(rest[1])];
        assert rest[2..] == text[offset + 2..];
      }
      offset := offset + 2;
    }
  }

  function Min(a: nat, b: nat): nat {
    if a < b then a else b
  }

  // ---------------------------------------------------------------------------
  // The CONNECT request

  const HMAC: string := "HMAC"

  function ConnectCommand(channel: nat, hash: Bytes): string {
    "CONNECT " + Format(channel) + " $" + HexText(hash)
  }

  lemma {:induction false} DigitsEndAt(s: string, i: nat, e: nat)
    requires i <= e <= |s| && (forall j :: i <= j < e ==> IsDigit(s[j])) && (e < |s| ==> !IsDigit(s[e]))
    ensures DigitsEnd(s, i) == e
    decreases |s| - i
  {
    if i < e { DigitsEndAt(s, i + 1, e); }
  }

  lemma {:induction false} HexEndAt(s: string, i: nat, e: nat)
    requires i <= e <= |s| && (forall j :: i <= j < e ==> IsHex(s[j])) && (e < |s| ==> !IsHex(s[e]))
    ensures HexEnd(s, i) == e
    decreases |s| - i
  {
    if i < e { HexEndAt(s, i + 1, e); }
  }

  lemma JoinedParts(a: string, b: string, c: string, d: string)
    ensures
      var (s, e) := (a + b + c + d, |a| + |b|);
      && |s| == e + |c| + |d| && s[..|a|] == a && s[|a|..e] == b && s[e..e + |c|] == c && s[e + |c|..] == d
  {
  }

  /** The parts of a printed request. */
  lemma ConnectParts(channel: nat, hash: Bytes)
    ensures
      var (s, e) := (ConnectCommand(channel, hash), 8 + |Format(channel)|);
      && |s| == e + 2 + |HexText(hash)| && s[..8] == "CONNECT " && s[8..e] == Format(channel)
      && s[e..e + 2] == " $" && s[e + 2..] == HexText(hash) && |Format(channel)| > 0
  {
    hide Format, HexText, Parse;
    FormatParses(channel);
    JoinedParts("CONNECT ", Format(channel), " $", HexText(hash));
  }

  lemma ConnectChars(channel: nat, hash: Bytes)
    ensures
      var (s, e) := (ConnectCommand(channel, hash), 8 + |Format(channel)|);
      && |s| >= e + 2 && s[e] == ' ' && s[e + 1] == '$'
      && (forall j :: 8 <= j < e ==> IsDigit(s[j])) && (forall j :: e + 2 <= j < |s| ==> IsHex(s[j]))
  {
    hide Format, HexText, Parse, ConnectCommand;
    ConnectParts(channel, hash);
    FormatParses(channel);
    var (s, e) := (ConnectCommand(channel, hash), 8 + |Format(channel)|);
    assert s[e] == s[e..e + 2][0] && s[e + 1] == s[e..e + 2][1];
    forall j | 8 <= j < e ensures IsDigit(s[j]) { assert s[j] == s[8..e][j - 8]; }
    forall j | e + 2 <= j < |s| ensures IsHex(s[j]) { assert s[j] == s[e + 2..][j - e - 2]; }
  }

  lemma ConnectAtStart(channel: nat, hash: Bytes)
    ensures ConnectAt(ConnectCommand(channel, hash), 0) ==
            if hash == [] then None else Some((Format(channel), HexText(hash)))
  {
    hide Format, HexText, ConnectCommand;
    ConnectParts(channel, hash);
    ConnectChars(channel, hash);
    var (s, e) := (ConnectCommand(channel, hash), 8 + |Format(channel)|);
    DigitsEndAt(s, 8, e);
    HexEndAt(s, e + 2, |s|);
    HexReadsBack(hash);
    assert StartsWith(s, 0, "CONNECT ");
    assert s[e + 2..|s|] == s[e + 2..];
  }

  /** The request is found as it was printed; with an empty hash there is none to find. */
  lemma ConnectIsFound(channel: nat, hash: Bytes)
    ensures FindConnect(ConnectCommand(channel, hash), 0) ==
            if hash == [] then None else Some((Format(channel), HexText(hash)))
  {
    hide Format, HexText, ConnectCommand, ConnectAt;
    ConnectAtStart(channel, hash);
    var s := ConnectCommand(channel, hash);
    if hash == [] {
      ConnectParts(channel, hash);
      ConnectChars(channel, hash);
      assert forall j :: 0 <= j < 8 ==> s[j] == s[..8][j];
      OnlyAtStart(s, 1);
    }
  }

  lemma StartMeans(s: string, p: nat)
    ensures StartsWith(s, p, "CONNECT ") ==> p + 1 < |s| && s[p] == 'C' && s[p + 1] == 'O'
  {
    if StartsWith(s, p, "CONNECT ") {
      assert s[p] == s[p..p + 8][0] && s[p + 1] == s[p..p + 8][1];
    }
  }

  lemma {:induction false} OnlyAtStart(s: string, p: nat)
    requires p <= |s| && forall j :: p <= j < |s| - 1 ==> s[j] != 'C' || s[j + 1] != 'O'
    ensures FindConnect(s, p) == None
    decreases |s| - p
  {
    StartMeans(s, p);
    hide StartsWith;
    if p < |s| { OnlyAtStart(s, p + 1); }
  }

  // ---------------------------------------------------------------------------
  // The handshake

  /** What the client answers to a payload it got as text. */
  function Answer(env: Env, key: Bytes, channel: nat, text: string): string
    requires forall c :: c in text ==> IsHex(c)
  {
    ConnectCommand(channel, env.hmac(key, HexBytes(text)))
  }

  /** The two commands of a client that holds `key`, at a connection that will draw `payload`. */
  function ClientCommands(env: Env, key: Bytes, channel: nat, payload: Bytes): seq<string> {
    [HMAC, Answer(env, key, channel, HexText(payload))]
  }

  lemma AnswerIsOfPayload(env: Env, key: Bytes, channel: nat, payload: Bytes)
    ensures Answer(env, key, channel, HexText(payload)) == ConnectCommand(channel, env.hmac(key, payload))
  {
    HexReadsBack(payload);
  }

  lemma CommandsFrame(env: Env, key: Bytes, channel: nat, payload: Bytes)
    ensures forall s :: s in ClientCommands(env, key, channel, payload) ==> Framable(s)
  {
    hide Framable, Format, HexText;
    AnswerIsOfPayload(env, key, channel, payload);
    var (hash, s) := (env.hmac(key, payload), Answer(env, key, channel, HexText(payload)));
    PlainTextIsFramable(HMAC);
    assert forall c :: c in s ==> !LineBreak(c) by { ConnectIsPlain(channel, hash); }
    PlainTextIsFramable(s);
  }

  lemma ConnectIsPlain(channel: nat, hash: Bytes)
    ensures forall c :: c in ConnectCommand(channel, hash) ==> !LineBreak(c)
  {
    hide Format, HexText, Parse;
    FormatParses(channel);
  }

  /** A request for a key that has not been made before. */
  lemma ConnectIsTaken(env: Env, c: Connection, channel: nat, hash: Bytes)
    requires !c.hmacRequested
    ensures Process(env, c, ConnectCommand(channel, hash)) == Requested(c, channel, hash)
  {
    var s := ConnectCommand(channel, hash);
    assert s[..7] == "CONNECT" && s[0] == 'C';
    assert StartsWith(s, 0, "CONNECT");
    hide Format, Parse, HexText, HexBytes, ConnectCommand, FindConnect, SplitAttribute;
    ConnectIsFound(channel, hash);
    FormatParses(channel);
    HexReadsBack(hash);
  }

  /** The key is asked for the low 32 bits of the channel; a channel that does not fit into 64
      bits, or an empty hash, is an error. */
  function Requested(c: Connection, channel: nat, hash: Bytes): Connection {
    if hash == [] || channel >= U64 then Note(c, StopRequested)
    else Note(c.(channelId := channel % U32, clientHmacHash := hash, hmacRequested := true),
              KeyRequested(channel % U32, hash))
  }

  /** A connection on which no key has been asked for yet. */
  predicate Unasked(c: Connection) {
    !c.hmacRequested && !c.isAuthenticated && c.commandBuffer == ""
  }

  /** The connection after a client's two commands. */
  function Greeted(env: Env, c: Connection, key: Bytes, channel: nat): Connection {
    Requested(OnHmac(env, c), channel, env.hmac(key, env.random(c.draws)))
  }

  lemma CommandsGreet(env: Env, c: Connection, key: Bytes, channel: nat)
    requires Unasked(c)
    ensures ProcessAll(env, c, ClientCommands(env, key, channel, env.random(c.draws))) == Greeted(env, c, key, channel)
  {
    var payload := env.random(c.draws);
    var (first, second) := (HMAC, Answer(env, key, channel, HexText(payload)));
    AnswerIsOfPayload(env, key, channel, payload);
    var d := OnHmac(env, c);
    assert Process(env, c, first) == d;
    ConnectIsTaken(env, d, channel, env.hmac(key, payload));
    hide Process, Answer, HexText, OnHmac;
    assert [first, second][1..] == [second] && [second][1..] == [];
    assert ProcessAll(env, d, [second]) == Process(env, d, second);
  }

  lemma ClientIsGreeted(env: Env, c: Connection, key: Bytes, channel: nat, chunks: seq<string>)
    requires Unasked(c)
    requires Concat(chunks) == Stream(ClientCommands(env, key, channel, env.random(c.draws)), "")
    ensures ReceiveAll(env, c, chunks) == Greeted(env, c, key, channel)
  {
    hide ClientCommands, ProcessAll, ReceiveAll, FeedAll, Greeted;
    CommandsFrame(env, key, channel, env.random(c.draws));
    ReceiveIsFrameThenProcess(env, c, chunks);
    FramingIgnoresChunking(ClientCommands(env, key, channel, env.random(c.draws)), "", chunks);
    CommandsGreet(env, c, key, channel);
    GreetedBuffer(env, c, key, channel);
  }

  lemma GreetedBuffer(env: Env, c: Connection, key: Bytes, channel: nat)
    ensures Greeted(env, c, key, channel).commandBuffer == c.commandBuffer
  {
  }

  /** The handshake, whatever the keyed hash, the payloads, the chunks the commands arrive in
      and what came before: the connection asks for the key of the channel the client named,
      as far as 32 bits hold it.  Given a key, it is authenticated, for that channel, if the
      key turns the payload sent into the client's hash, and otherwise stops. */
  lemma HandshakeIff(env: Env, c: Connection, key: Bytes, channel: nat, chunks: seq<string>, given: Bytes)
    requires Unasked(c) && channel < U64 && env.hmac(key, env.random(c.draws)) != []
    requires Concat(chunks) == Stream(ClientCommands(env, key, channel, env.random(c.draws)), "")
    ensures
      var (payload, hash) := (env.random(c.draws), env.hmac(key, env.random(c.draws)));
      var d := ReceiveAll(env, c, chunks);
      var e := ProvideKey(env, d, given);
      && d.log == c.log + [SentPayload(payload), KeyRequested(channel % U32, hash)] && !d.isAuthenticated
      && e.channelId == channel % U32
      && e.metadata == c.metadata && e.isStreaming == c.isStreaming && e.commandBuffer == ""
      && (if env.hmac(given, payload) == hash
          then e.isAuthenticated && e.log == d.log + [KeyMatched(given, payload, hash), SentOk]
          else !e.isAuthenticated && e.log == d.log + [StopRequested])
  {
    hide ClientCommands, ReceiveAll;
    ClientIsGreeted(env, c, key, channel, chunks);
    var (payload, hash) := (env.random(c.draws), env.hmac(key, env.random(c.draws)));
    assert c.log + [SentPayload(payload)] + [KeyRequested(channel % U32, hash)] ==
           c.log + [SentPayload(payload), KeyRequested(channel % U32, hash)];
    var d := ReceiveAll(env, c, chunks);
    assert d.log + [KeyMatched(given, payload, hash)] + [SentOk] ==
           d.log + [KeyMatched(given, payload, hash), SentOk];
  }

  /** A request that is no request at all: it stops the connection, and no key will do. */
  lemma HandshakeFails(env: Env, c: Connection, key: Bytes, channel: nat, chunks: seq<string>, given: Bytes)
    requires Unasked(c) && (channel >= U64 || env.hmac(key, env.random(c.draws)) == [])
    requires Concat(chunks) == Stream(ClientCommands(env, key, channel, env.random(c.draws)), "")
    ensures
      var d := ReceiveAll(env, c, chunks);
      && d.log == c.log + [SentPayload(env.random(c.draws)), StopRequested]
      && !d.isAuthenticated && ProvideKey(env, d, given) == d
  {
    hide ClientCommands, ReceiveAll;
    ClientIsGreeted(env, c, key, channel, chunks);
    var payload := env.random(c.draws);
    assert c.log + [SentPayload(payload)] + [StopRequested] == c.log + [SentPayload(payload), StopRequested];
  }

  // ---------------------------------------------------------------------------
  // From the first byte to the media port

  function Received(chunks: seq<string>): seq<Input> {
    seq(|chunks|, i requires 0 <= i < |chunks| => Input.Received(chunks[i]))
  }

  lemma {:induction false} TakeReceived(env: Env, c: Connection, chunks: seq<string>)
    ensures TakeAll(env, c, Received(chunks)) == ReceiveAll(env, c, chunks)
    decreases |chunks|
  {
    hide ReceiveBytes;
    if chunks != [] {
      assert Received(chunks)[1..] == Received(chunks[1..]);
      TakeReceived(env, ReceiveBytes(env, c, chunks[0]), chunks[1..]);
    }
  }

  lemma {:induction false} TakeSnoc(env: Env, c: Connection, inputs: seq<Input>, last: Input)
    ensures TakeAll(env, c, inputs + [last]) == Take(env, TakeAll(env, c, inputs), last)
    decreases |inputs|
  {
    hide Take;
    if inputs == [] {
      assert inputs + [last] == [last] && [last][1..] == [];
    } else {
      assert (inputs + [last])[1..] == inputs[1..] + [last];
      TakeSnoc(env, Take(env, c, inputs[0]), inputs[1..], last);
    }
  }

  /** The whole of a relay's connection: a client that holds the channel's key connects to a
      fresh connection and sends the metadata of a stream that can be started, in any chunks;
      the connection then has asked once for that channel's key, accepted it, and asked for
      a media port for that channel with that metadata, under the plugin's own name. */
  lemma RelayConnects(env: Env, key: Bytes, channel: nat, hello: seq<string>, m: Metadata, chunks: seq<string>)
    requires channel < U32 && env.hmac(key, env.random(0)) != [] && FitsTypes(m) && Startable(m)
    requires Concat(hello) == Stream(ClientCommands(env, key, channel, env.random(0)), "")
    requires Concat(chunks) == Stream(Printed(Relayed(m)), "")
    ensures
      var (payload, hash) := (env.random(0), env.hmac(key, env.random(0)));
      ReceiveAll(env, ProvideKey(env, ReceiveAll(env, FRESH, hello), key), chunks).log ==
      [SentPayload(payload), KeyRequested(channel, hash), KeyMatched(key, payload, hash), SentOk,
       PortRequested(channel, m.(vendorName := "janus-ftl-plugin", vendorVersion := "0.0.0"))]
  {
    hide ClientCommands, ReceiveAll, Printed, TakeAll, ProvideKey;
    HandshakeIff(env, FRESH, key, channel, hello, key);
    SmallMod(channel, U32);
    var inputs := Received(hello) + [KeyProvided(key)];
    TakeReceived(env, FRESH, hello);
    TakeSnoc(env, FRESH, Received(hello), KeyProvided(key));
    RelayedStreamStarts(env, inputs, m, chunks);
  }
}
