/** What a control connection does with each command, what it keeps over every run, and how
    the text of its commands is read. */
module ControlRuns {
  import opened Collections
  import opened ControlFraming
  import opened ControlText
  import opened ControlConnection
  import opened RelayRoundTrip
  import opened ControlHandshake

  // ---------------------------------------------------------------------------
  // Replies

  /** A medium that is announced comes with payload type, SSRC and a codec the server knows. */
  predicate Described(announced: bool, payloadType: nat, ssrc: nat, known: bool) {
    announced ==> payloadType > 0 && ssrc > 0 && known
  }

  predicate AllDescribed(m: Metadata) {
    && (m.hasVideo || m.hasAudio)
    && Described(m.hasVideo, m.videoPayloadType, m.videoSsrc, m.videoCodec == H264)
    && Described(m.hasAudio, m.audioPayloadType, m.audioSsrc, m.audioCodec == Opus)
  }

  predicate IsConnect(command: string) {
    StartsWith(command, 0, "CONNECT")
  }

  predicate IsAttribute(command: string) {
    command != "HMAC" && !IsConnect(command) && SplitAttribute(command).Some?
  }

  /** A CONNECT request the connection can take. */
  predicate Acceptable(c: Connection, command: string) {
    var found := FindConnect(command, 0);
    !c.hmacRequested && found.Some? && Parse(found.value.0) < U64
  }

  /** The one entry a command adds to the log, by what the command is and what the connection
      has been told; other commands add none. */
  function Reply(env: Env, c: Connection, command: string): seq<Entry> {
    if command == "HMAC" then [SentPayload(env.random(c.draws))]
    else if IsConnect(command) && Acceptable(c, command) then
      var (digits, hash) := FindConnect(command, 0).value;
      [KeyRequested(Parse(digits) % U32, HexBytes(hash))]
    else if command == "." && c.isAuthenticated && AllDescribed(c.metadata) then
      [PortRequested(c.channelId, c.metadata)]
    else if IsConnect(command) || command == "." || (IsAttribute(command) && (!c.isAuthenticated || c.isStreaming)) then
      [StopRequested]
    else if |command| >= 4 && command[..4] == "PING" && !IsAttribute(command) then [SentPong]
    else []
  }

  /** The log tells exactly what was asked of the connection. */
  lemma CommandIsAnswered(env: Env, c: Connection, command: string)
    ensures Process(env, c, command).log == c.log + Reply(env, c, command)
  {
    DotIsPlain();
    hide SplitAttribute, FindConnect, Parse, HexBytes, SetAttribute;
  }

  lemma DotIsPlain()
    ensures SplitAttribute(".").None?
  {
    LastSeparatorIsLast(".", 1);
  }

  // ---------------------------------------------------------------------------
  // What every run keeps

  /** Nothing is known of the stream before the client has authenticated, and what is known
      fits the types of the fields. */
  ghost predicate Guarded(c: Connection) {
    (!c.isAuthenticated ==> c.metadata == NO_METADATA) && FitsTypes(c.metadata)
  }

  /** From `c` on: the channel asked for, the hash to match, and that it did, do not change;
      nor, once media flow, does the metadata. */
  ghost predicate Settles(c: Connection, d: Connection) {
    && (c.hmacRequested ==> d.hmacRequested && d.channelId == c.channelId && d.clientHmacHash == c.clientHmacHash)
    && (c.isAuthenticated ==> d.isAuthenticated)
    && (c.isStreaming ==> d.isStreaming && d.metadata == c.metadata)
    && c.draws <= d.draws
  }

  lemma NumberFits(value: string, modulus: nat, otherwise: nat)
    requires modulus > 0 && otherwise < modulus
    ensures Number(value, modulus, otherwise) < modulus
  {
    hide Stoul;
  }

  lemma SizeFits(m: Metadata, key: string, value: string)
    ensures
      var u := SetAttribute(m, key, value);
      && u.videoWidth in {m.videoWidth, Number(value, U16, m.videoWidth)}
      && u.videoHeight in {m.videoHeight, Number(value, U16, m.videoHeight)}
  {
    hide Number, ParseVideoCodec, ParseAudioCodec;
  }

  lemma SsrcFits(m: Metadata, key: string, value: string)
    ensures
      var u := SetAttribute(m, key, value);
      && u.videoSsrc in {m.videoSsrc, Number(value, U32, m.videoSsrc)}
      && u.audioSsrc in {m.audioSsrc, Number(value, U32, m.audioSsrc)}
  {
    hide Number, ParseVideoCodec, ParseAudioCodec;
  }

  lemma PayloadTypeFits(m: Metadata, key: string, value: string)
    ensures
      var u := SetAttribute(m, key, value);
      && u.videoPayloadType in {m.videoPayloadType, Number(value, U8, m.videoPayloadType)}
      && u.audioPayloadType in {m.audioPayloadType, Number(value, U8, m.audioPayloadType)}
  {
    hide Number, ParseVideoCodec, ParseAudioCodec;
  }

  lemma AttributeFits(m: Metadata, key: string, value: string)
    requires FitsTypes(m)
    ensures FitsTypes(SetAttribute(m, key, value))
  {
    hide SetAttribute, Number;
    SizeFits(m, key, value);
    SsrcFits(m, key, value);
    PayloadTypeFits(m, key, value);
    NumberFits(value, U16, m.videoWidth);
    NumberFits(value, U16, m.videoHeight);
    NumberFits(value, U32, m.videoSsrc);
    NumberFits(value, U32, m.audioSsrc);
    NumberFits(value, U8, m.videoPayloadType);
    NumberFits(value, U8, m.audioPayloadType);
  }

  lemma ProcessSettles(env: Env, c: Connection, command: string)
    requires Guarded(c)
    ensures Guarded(Process(env, c, command)) && Settles(c, Process(env, c, command))
  {
    if SplitAttribute(command).Some? {
      var (key, value) := SplitAttribute(command).value;
      AttributeFits(c.metadata, key, value);
    }
    hide SplitAttribute, FindConnect, Parse, HexBytes, SetAttribute, Startable, FitsTypes;
  }

  lemma {:induction false} ProcessAllSettles(env: Env, c: Connection, commands: seq<string>)
    requires Guarded(c)
    ensures Guarded(ProcessAll(env, c, commands)) && Settles(c, ProcessAll(env, c, commands))
    decreases |commands|
  {
    hide Process, FitsTypes;
    if commands != [] {
      ProcessSettles(env, c, commands[0]);
      ProcessAllSettles(env, Process(env, c, commands[0]), commands[1..]);
    }
  }

  lemma TakeSettles(env: Env, c: Connection, input: Input)
    requires Guarded(c)
    ensures Guarded(Take(env, c, input)) && Settles(c, Take(env, c, input))
  {
    hide Feed, ProcessAll, FitsTypes;
    if input.Received? { ProcessAllSettles(env, c, Feed(c.commandBuffer, input.bytes).0); }
  }

  /** Over every run. */
  lemma {:induction false} RunSettles(env: Env, c: Connection, inputs: seq<Input>)
    requires Guarded(c)
    ensures Guarded(TakeAll(env, c, inputs)) && Settles(c, TakeAll(env, c, inputs))
    decreases |inputs|
  {
    hide Take, FitsTypes;
    if inputs != [] {
      TakeSettles(env, c, inputs[0]);
      RunSettles(env, Take(env, c, inputs[0]), inputs[1..]);
    }
  }

  lemma {:induction false} TakeAppend(env: Env, c: Connection, a: seq<Input>, b: seq<Input>)
    ensures TakeAll(env, c, a + b) == TakeAll(env, TakeAll(env, c, a), b)
    decreases |a|
  {
    hide Take;
    if a == [] {
      assert a + b == b;
    } else {
      assert (a + b)[1..] == a[1..] + b;
      TakeAppend(env, Take(env, c, a[0]), a[1..], b);
    }
  }

  /** In every run, at every moment: no metadata without authentication, and all of it within
      the types of the fields; and from that moment on the connection stays with its channel
      and stays authenticated. */
  lemma ConnectionSettles(env: Env, before: seq<Input>, after: seq<Input>)
    ensures Guarded(TakeAll(env, FRESH, before))
    ensures Settles(TakeAll(env, FRESH, before), TakeAll(env, FRESH, before + after))
  {
    hide TakeAll;
    RunSettles(env, FRESH, before);
    TakeAppend(env, FRESH, before, after);
    RunSettles(env, TakeAll(env, FRESH, before), after);
  }

  /** Once its media port is open, a connection's metadata is final. */
  lemma MetadataIsFinal(env: Env, before: seq<Input>, port: nat, after: seq<Input>)
    ensures
      var (c, d) := (TakeAll(env, FRESH, before), TakeAll(env, FRESH, before + [PortStarted(port)] + after));
      d.isStreaming && d.metadata == c.metadata
  {
    hide TakeAll;
    RunSettles(env, FRESH, before);
    TakeSnoc(env, FRESH, before, PortStarted(port));
    var c := TakeAll(env, FRESH, before);
    TakeSettles(env, c, PortStarted(port));
    TakeAppend(env, FRESH, before + [PortStarted(port)], after);
    RunSettles(env, Take(env, c, PortStarted(port)), after);
  }

  // ---------------------------------------------------------------------------
  // Payloads

  /** The payloads sent, in order. */
  function Payloads(log: seq<Entry>): seq<Bytes> {
    if log == [] then []
    else Payloads(log[..|log| - 1]) + if log[|log| - 1].SentPayload? then [log[|log| - 1].payload] else []
  }

  /** The first so many payloads of the source. */
  function Drawn(env: Env, n: nat): seq<Bytes> {
    seq(n, i requires 0 <= i < n => env.random(i))
  }

  lemma PayloadsSnoc(log: seq<Entry>, e: Entry)
    ensures Payloads(log + [e]) == Payloads(log) + if e.SentPayload? then [e.payload] else []
  {
    assert (log + [e])[..|log|] == log;
  }

  lemma ProcessDraws(env: Env, c: Connection, command: string)
    requires Payloads(c.log) == Drawn(env, c.draws)
    ensures var d := Process(env, c, command); Payloads(d.log) == Drawn(env, d.draws)
  {
    hide Payloads, SplitAttribute, FindConnect, Parse, HexBytes, SetAttribute, AllDescribed, IsConnect, IsAttribute,
      Acceptable;
    var (d, reply) := (Process(env, c, command), Reply(env, c, command));
    CommandIsAnswered(env, c, command);
    DrawsCount(env, c, command);
    assert Drawn(env, c.draws + 1) == Drawn(env, c.draws) + [env.random(c.draws)];
    hide Process, Drawn;
    if reply == [] { assert d.log == c.log; } else { PayloadsSnoc(c.log, reply[0]); assert [reply[0]] == reply; }
  }

  lemma DrawsCount(env: Env, c: Connection, command: string)
    ensures Process(env, c, command).draws == if command == "HMAC" then c.draws + 1 else c.draws
    ensures var reply := Reply(env, c, command);
            |reply| <= 1 && (command == "HMAC" <==> |reply| == 1 && reply[0].SentPayload?)
    ensures command == "HMAC" ==> Reply(env, c, command) == [SentPayload(env.random(c.draws))]
  {
    hide SplitAttribute, FindConnect, Parse, HexBytes, SetAttribute, AllDescribed, Startable;
  }

  lemma {:induction false} ProcessAllDraws(env: Env, c: Connection, commands: seq<string>)
    requires Payloads(c.log) == Drawn(env, c.draws)
    ensures var d := ProcessAll(env, c, commands); Payloads(d.log) == Drawn(env, d.draws)
    decreases |commands|
  {
    hide Process, Payloads, Drawn;
    if commands != [] {
      ProcessDraws(env, c, commands[0]);
      ProcessAllDraws(env, Process(env, c, commands[0]), commands[1..]);
    }
  }

  lemma TakeDraws(env: Env, c: Connection, input: Input)
    requires Payloads(c.log) == Drawn(env, c.draws)
    ensures var d := Take(env, c, input); Payloads(d.log) == Drawn(env, d.draws)
  {
    hide Feed, ProcessAll, Payloads, Drawn;
    match input
    case Received(bytes) => ProcessAllDraws(env, c, Feed(c.commandBuffer, bytes).0);
    case KeyProvided(key) =>
      PayloadsSnoc(c.log, StopRequested);
      var e := KeyMatched(key, c.hmacPayload, c.clientHmacHash);
      PayloadsSnoc(c.log, e);
      PayloadsSnoc(c.log + [e], SentOk);
    case PortStarted(port) => PayloadsSnoc(c.log, SentPort(port));
  }

  lemma {:induction false} RunDraws(env: Env, c: Connection, inputs: seq<Input>)
    requires Payloads(c.log) == Drawn(env, c.draws)
    ensures var d := TakeAll(env, c, inputs); Payloads(d.log) == Drawn(env, d.draws)
    decreases |inputs|
  {
    hide Take, Payloads, Drawn;
    if inputs != [] {
      TakeDraws(env, c, inputs[0]);
      RunDraws(env, Take(env, c, inputs[0]), inputs[1..]);
    }
  }

  /** In every run the payloads sent are those drawn, each drawn anew and sent once. */
  lemma PayloadsAreDrawn(env: Env, inputs: seq<Input>)
    ensures var c := TakeAll(env, FRESH, inputs); Payloads(c.log) == Drawn(env, c.draws)
  {
    hide TakeAll;
    RunDraws(env, FRESH, inputs);
  }

  lemma DescribedIff(m: Metadata)
    ensures Startable(m) <==> AllDescribed(m)
  {
  }

  /** In every run, every media port is asked for after the key matched and for a stream all of
      whose media are described. */
  lemma PortsAreForDescribedStreams(env: Env, inputs: seq<Input>, j: nat)
    requires j < |TakeAll(env, FRESH, inputs).log| && TakeAll(env, FRESH, inputs).log[j].PortRequested?
    ensures
      var log := TakeAll(env, FRESH, inputs).log;
      AllDescribed(log[j].metadata) && Vouched(env, log[..j], log[j].channel)
  {
    hide TakeAll, Vouched, AllDescribed, Startable;
    HandshakeSafety(env, inputs);
    DescribedIff(TakeAll(env, FRESH, inputs).log[j].metadata);
  }

  // ---------------------------------------------------------------------------
  // The request, wherever it is

  /** The pattern of a request at `p`: all digits of the channel, all of the hash. */
  ghost predicate IsRequest(s: string, p: nat, digits: string, hash: string) {
    var end := p + 10 + |digits| + |hash|;
    && end <= |s| && s[p..end] == "CONNECT " + digits + " $" + hash
    && digits != "" && hash != "" && (forall c :: c in digits ==> IsDigit(c)) && (forall c :: c in hash ==> IsHex(c))
    && (end < |s| ==> !IsHex(s[end]))
  }

  lemma RequestIsFound(s: string, p: nat, digits: string, hash: string)
    requires p <= |s| && IsRequest(s, p, digits, hash)
    ensures ConnectAt(s, p) == Some((digits, hash))
  {
    var (e, end) := (p + 8 + |digits|, p + 10 + |digits| + |hash|);
    RequestParts(s, p, digits, hash);
    forall j | p + 8 <= j < e ensures IsDigit(s[j]) { assert s[j] == s[p + 8..e][j - p - 8]; }
    forall j | e + 2 <= j < end ensures IsHex(s[j]) { assert s[j] == s[e + 2..end][j - e - 2]; }
    assert s[e] == s[e..e + 2][0];
    DigitsEndAt(s, p + 8, e);
    HexEndAt(s, e + 2, end);
  }

  lemma RequestParts(s: string, p: nat, digits: string, hash: string)
    requires IsRequest(s, p, digits, hash)
    ensures
      var (e, end) := (p + 8 + |digits|, p + 10 + |digits| + |hash|);
      && end <= |s| && s[p..p + 8] == "CONNECT " && s[p + 8..e] == digits
      && s[e..e + 2] == " $" && s[e + 2..end] == hash
  {
    var (e, end) := (p + 8 + |digits|, p + 10 + |digits| + |hash|);
    var w := s[p..end];
    JoinedParts("CONNECT ", digits, " $", hash);
    var n := 8 + |digits|;
    Slice(s, p, end, 0, 8);
    Slice(s, p, end, 8, n);
    Slice(s, p, end, n, n + 2);
    Slice(s, p, end, n + 2, |w|);
    assert w[0..8] == w[..8] && w[n + 2..|w|] == w[n + 2..];
  }

  lemma Slice(s: string, p: nat, end: nat, i: nat, j: nat)
    requires i <= j && p + j <= end <= |s|
    ensures s[p..end][i..j] == s[p + i..p + j]
  {
    var (x, y) := (s[p..end][i..j], s[p + i..p + j]);
    forall k | 0 <= k < |x| ensures x[k] == y[k] {
      assert x[k] == s[p..end][i + k];
      assert y[k] == s[p + i + k];
    }
  }

  lemma Pieces(s: string, a: nat, b: nat, c: nat, d: nat, e: nat)
    requires a <= b <= c <= d <= e <= |s|
    ensures s[a..e] == s[a..b] + s[b..c] + s[c..d] + s[d..e]
  {
    assert s[a..c] == s[a..b] + s[b..c];
    assert s[a..d] == s[a..c] + s[c..d];
    assert s[a..e] == s[a..d] + s[d..e];
  }

  lemma FoundIsRequest(s: string, p: nat)
    requires p <= |s| && ConnectAt(s, p).Some?
    ensures IsRequest(s, p, ConnectAt(s, p).value.0, ConnectAt(s, p).value.1)
  {
    var e := DigitsEnd(s, p + 8);
    var end := HexEnd(s, e + 2);
    var (digits, hash) := (s[p + 8..e], s[e + 2..end]);
    assert s[p..p + 8] == "CONNECT " && s[e..e + 2] == " $";
    Pieces(s, p, p + 8, e, e + 2, end);
  }

  /** Exactly the pattern is found: a word, all digits, a dollar sign, all hex digits, and at
      least one of each. */
  lemma RequestIff(s: string, p: nat, digits: string, hash: string)
    requires p <= |s|
    ensures ConnectAt(s, p) == Some((digits, hash)) <==> IsRequest(s, p, digits, hash)
  {
    if ConnectAt(s, p).Some? { FoundIsRequest(s, p); }
    if IsRequest(s, p, digits, hash) { RequestIsFound(s, p, digits, hash); }
  }

  /** The request at `q` is the first from `p` on. */
  ghost predicate FoundAt(s: string, p: nat, q: nat, r: (string, string)) {
    p <= q <= |s| && ConnectAt(s, q) == Some(r) && forall k :: p <= k < q ==> ConnectAt(s, k).None?
  }

  lemma {:induction false} FoundIsFirst(s: string, p: nat)
    requires p <= |s|
    ensures FindConnect(s, p).Some? ==> exists q: nat :: FoundAt(s, p, q, FindConnect(s, p).value)
    ensures FindConnect(s, p).None? ==> forall q :: p <= q <= |s| ==> ConnectAt(s, q).None?
    decreases |s| - p
  {
    hide ConnectAt;
    if ConnectAt(s, p).Some? {
      assert FindConnect(s, p) == ConnectAt(s, p);
      assert FoundAt(s, p, p, FindConnect(s, p).value);
    } else if p < |s| {
      FoundIsFirst(s, p + 1);
      if FindConnect(s, p + 1).Some? {
        var r := FindConnect(s, p + 1).value;
        var q: nat :| FoundAt(s, p + 1, q, r);
        assert FoundAt(s, p, q, r);
      }
    }
  }

  // ---------------------------------------------------------------------------
  // Numbers and names as values of attributes

  lemma {:induction false} SpacesEnd(s: string, i: nat, e: nat)
    requires i <= e <= |s| && (forall j :: i <= j < e ==> IsSpace(s[j])) && (e < |s| ==> !IsSpace(s[e]))
    ensures SpaceEnd(s, i) == e
    decreases |s| - i
  {
    if i < e { SpacesEnd(s, i + 1, e); }
  }

  /** Space, an optional sign, a number and anything after it that is not a digit. */
  function Spelled(space: string, sign: string, n: nat, rest: string): string {
    space + sign + Format(n) + rest
  }

  /** The number is read whatever surrounds it; a minus sign makes it wrap at 2^64, and a
      number that does not fit is refused. */
  lemma StoulReads(space: string, sign: string, n: nat, rest: string)
    requires (forall c :: c in space ==> IsSpace(c)) && sign in {"", "+", "-"} && (rest != "" ==> !IsDigit(rest[0]))
    ensures Stoul(Spelled(space, sign, n, rest)) ==
            if n >= U64 then None else Some(if sign == "-" then (U64 - n) % U64 else n)
  {
    hide Format, Parse, Spelled;
    FormatParses(n);
    var (s, d) := (Spelled(space, sign, n, rest), Format(n));
    var (i, j) := (|space|, |space| + |sign|);
    SpelledParts(space, sign, n, rest);
    SpelledChars(space, sign, n, rest);
    SpacesEnd(s, 0, i);
    DigitsEndAt(s, j, j + |d|);
  }

  lemma SpelledParts(space: string, sign: string, n: nat, rest: string)
    ensures
      var (s, d, j) := (Spelled(space, sign, n, rest), Format(n), |space| + |sign|);
      && |s| == j + |d| + |rest| && |d| > 0
      && s[..|space|] == space && s[|space|..j] == sign && s[j..j + |d|] == d && s[j + |d|..] == rest
  {
    hide Format, Parse;
    FormatParses(n);
    JoinedParts(space, sign, Format(n), rest);
  }

  lemma SpelledChars(space: string, sign: string, n: nat, rest: string)
    requires (forall c :: c in space ==> IsSpace(c)) && sign in {"", "+", "-"} && (rest != "" ==> !IsDigit(rest[0]))
    ensures
      var (s, d) := (Spelled(space, sign, n, rest), Format(n));
      var (i, j) := (|space|, |space| + |sign|);
      && |s| == j + |d| + |rest| && |d| > 0
      && (forall k :: 0 <= k < i ==> IsSpace(s[k])) && !IsSpace(s[i])
      && (s[i] == '-' <==> sign == "-") && (s[i] == '+' <==> sign == "+")
      && (forall k :: j <= k < j + |d| ==> IsDigit(s[k])) && (rest != "" ==> !IsDigit(s[j + |d|]))
  {
    hide Format, Parse, Spelled;
    FormatParses(n);
    SpelledParts(space, sign, n, rest);
    var (s, d) := (Spelled(space, sign, n, rest), Format(n));
    var (i, j) := (|space|, |space| + |sign|);
    forall k | 0 <= k < i ensures IsSpace(s[k]) { assert s[k] == s[..i][k]; }
    forall k | j <= k < j + |d| ensures IsDigit(s[k]) { assert s[k] == s[j..j + |d|][k - j]; }
    assert sign != "" ==> s[i] == s[i..j][0];
    assert sign == "" ==> s[i] == s[j];
    assert rest != "" ==> s[j + |d|] == s[j + |d|..][0];
  }

  /** Without a digit after the space and the sign there is no number. */
  lemma StoulRefuses(space: string, sign: string, rest: string)
    requires (forall c :: c in space ==> IsSpace(c)) && sign in {"", "+", "-"}
    requires rest != "" ==> !IsDigit(rest[0]) && !IsSpace(rest[0]) && (sign == "" ==> rest[0] !in {'+', '-'})
    ensures Stoul(space + sign + rest).None?
  {
    var s := space + sign + rest;
    var (i, j) := (|space|, |space| + |sign|);
    assert s[..i] == space && s[i..j] == sign && s[j..] == rest;
    assert forall k :: 0 <= k < i ==> s[k] == s[..i][k];
    assert sign != "" ==> s[i] == s[i..j][0];
    assert rest != "" ==> s[j] == s[j..][0];
    SpacesEnd(s, 0, i);
  }

  predicate IsNumeric(key: string) {
    key in {"VideoWidth", "VideoHeight", "VideoIngestSSRC", "AudioIngestSSRC", "VideoPayloadType", "AudioPayloadType"}
  }

  /** An attribute that should be a number and is none leaves everything as it was. */
  lemma BadNumberIsIgnored(c: Connection, key: string, value: string)
    requires c.isAuthenticated && !c.isStreaming && IsNumeric(key) && Stoul(value).None?
    ensures OnAttribute(c, key, value) == c
  {
    hide Stoul;
  }

  /** Two texts that differ only in the case of letters. */
  predicate SameLetters(a: string, b: string) {
    |a| == |b| && forall i :: 0 <= i < |a| ==> a[i] == b[i] || IsUpperOf(a[i], b[i]) || IsUpperOf(b[i], a[i])
  }

  predicate IsUpperOf(upper: char, lower: char) {
    IsUpper(upper) && lower as int == upper as int + 32
  }

  predicate IsUpper(c: char) {
    'A' <= c <= 'Z'
  }

  /** Codec names are recognised in any mixture of upper and lower case, and no others are. */
  lemma CodecsIgnoreCase(s: string)
    ensures ParseVideoCodec(s) == H264 <==> SameLetters(s, "h264")
    ensures ParseAudioCodec(s) == Opus <==> SameLetters(s, "opus")
  {
    LowerIff(s, "h264");
    LowerIff(s, "opus");
  }

  lemma LowerIff(s: string, name: string)
    requires forall i :: 0 <= i < |name| ==> !IsUpper(name[i])
    ensures Lower(s) == name <==> SameLetters(s, name)
  {
    assert Lower(s) == name ==> forall i :: 0 <= i < |s| ==> Lower(s)[i] == name[i];
    if SameLetters(s, name) {
      assert forall i :: 0 <= i < |s| ==> Lower(s)[i] == name[i];
    }
  }
}
