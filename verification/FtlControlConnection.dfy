/** src/FtlControlConnection.cpp: the connection object, updating its fields in place. */
module FtlControlConnection {
  import opened Collections
  import opened ControlFraming
  import opened ControlText
  import opened ControlConnection

  lemma ConnectIgnoresBuffer(c: Connection, command: string, buffer: string)
    ensures OnConnect(c.(commandBuffer := buffer), command) == OnConnect(c, command).(commandBuffer := buffer)
  {
    hide FindConnect, Parse, HexBytes;
  }

  lemma HmacIgnoresBuffer(env: Env, c: Connection, buffer: string)
    ensures OnHmac(env, c.(commandBuffer := buffer)) == OnHmac(env, c).(commandBuffer := buffer)
  {
  }

  lemma AttributeIgnoresBuffer(c: Connection, key: string, value: string, buffer: string)
    ensures OnAttribute(c.(commandBuffer := buffer), key, value) == OnAttribute(c, key, value).(commandBuffer := buffer)
  {
    hide SetAttribute;
  }

  lemma DotIgnoresBuffer(c: Connection, buffer: string)
    ensures OnDot(c.(commandBuffer := buffer)) == OnDot(c).(commandBuffer := buffer)
  {
    hide Startable;
  }

  /** The buffer plays no part in processing a command. */
  lemma ProcessIgnoresBuffer(env: Env, c: Connection, command: string, buffer: string)
    ensures Process(env, c.(commandBuffer := buffer), command) == Process(env, c, command).(commandBuffer := buffer)
  {
    hide SplitAttribute, OnHmac, OnConnect, OnAttribute, OnDot, StartsWith;
    if command == "HMAC" {
      HmacIgnoresBuffer(env, c, buffer);
    } else if StartsWith(command, 0, "CONNECT") {
      ConnectIgnoresBuffer(c, command, buffer);
    } else if SplitAttribute(command).Some? {
      AttributeIgnoresBuffer(c, SplitAttribute(command).value.0, SplitAttribute(command).value.1, buffer);
    } else if command == "." {
      DotIgnoresBuffer(c, buffer);
    }
  }

  lemma {:induction false} ProcessAllIgnoresBuffer(env: Env, c: Connection, commands: seq<string>, buffer: string)
    ensures ProcessAll(env, c.(commandBuffer := buffer), commands) ==
            ProcessAll(env, c, commands).(commandBuffer := buffer)
    decreases |commands|
  {
    hide Process;
    if commands != [] {
      ProcessIgnoresBuffer(env, c, commands[0], buffer);
      ProcessAllIgnoresBuffer(env, Process(env, c, commands[0]), commands[1..], buffer);
    }
  }

  /** What is left to do when the scan of the buffer stands at `i`, `k`. */
  ghost function Finish(env: Env, c: Connection, i: nat, k: nat): Connection
    requires Matched(c.commandBuffer, i, k)
  {
    var (commands, rest) := Scan(c.commandBuffer, i, k);
    ProcessAll(env, c, commands).(commandBuffer := rest)
  }

  /** Cutting off a complete command and processing it. */
  lemma FinishCommand(env: Env, c: Connection, i: nat)
    requires Matched(c.commandBuffer, i, 3) && i < |c.commandBuffer| && c.commandBuffer[i] == '\n'
    ensures
      var d := Process(env, c.(commandBuffer := c.commandBuffer[i + 1..]), c.commandBuffer[..i - 3]);
      d.commandBuffer == c.commandBuffer[i + 1..] && Finish(env, c, i, 3) == Finish(env, d, 0, 0)
  {
    hide Process;
    var (command, left) := (c.commandBuffer[..i - 3], c.commandBuffer[i + 1..]);
    ProcessIgnoresBuffer(env, c, command, left);
    var d := Process(env, c.(commandBuffer := left), command);
    var (commands, rest) := Scan(left, 0, 0);
    assert Scan(c.commandBuffer, i, 3) == ([command] + commands, rest);
    assert ([command] + commands)[1..] == commands;
    ProcessAllIgnoresBuffer(env, Process(env, c, command), commands, left);
  }

  class FtlControlConnection {
    const env: Env
    var hmacRequested: bool
    var isAuthenticated: bool
    var isStreaming: bool
    var channelId: nat
    var hmacPayload: Bytes
    var clientHmacHash: Bytes
    var mediaMetadata: Metadata
    var commandBuffer: string
    var draws: nat
    var log: seq<Entry>

    function View(): Connection
      reads this
    {
      Connection(hmacRequested, isAuthenticated, isStreaming, channelId, hmacPayload, clientHmacHash,
                 mediaMetadata, commandBuffer, draws, log)
    }

    constructor (env: Env)
      ensures View() == FRESH && this.env == env
    {
      this.env := env;
      hmacRequested, isAuthenticated, isStreaming, channelId := false, false, false, 0;
      hmacPayload, clientHmacHash, mediaMetadata := [], [], NO_METADATA;
      commandBuffer, draws, log := "", 0, [];
    }

    method OnTransportBytesReceived(bytes: string)
      modifies this
      ensures View() == ReceiveBytes(env, old(View()), bytes)
    {
      hide Process, ProcessAll, Scan;
      ghost var before := View();
      var i: nat := if |commandBuffer| < |DELIMITER| then 0 else |commandBuffer| - |DELIMITER|;
      commandBuffer := commandBuffer + bytes;
      var delimiterCharactersRead: nat := 0;
      ghost var target := Finish(env, View(), i, 0);
      assert target == ReceiveBytes(env, before, bytes) by {
        ProcessAllIgnoresBuffer(env, before, Scan(commandBuffer, i, 0).0, commandBuffer);
      }
      while i < |commandBuffer|
        invariant Matched(commandBuffer, i, delimiterCharactersRead)
        invariant Finish(env, View(), i, delimiterCharactersRead) == target
        decreases |commandBuffer|, |commandBuffer| - i
      {
        ScanStep(commandBuffer, i, delimiterCharactersRead);
        if commandBuffer[i] == DELIMITER[delimiterCharactersRead] {
          delimiterCharactersRead := delimiterCharactersRead + 1;
          if delimiterCharactersRead >= |DELIMITER| {
            FinishCommand(env, View(), i);
            var command := commandBuffer[..i + 1 - |DELIMITER|];
            commandBuffer := commandBuffer[i + 1..];
            i := 0;
            delimiterCharactersRead := 0;
            ProcessCommand(command);
          } else {
            i := i + 1;
          }
        } else {
          delimiterCharactersRead := 0;
          i := i + 1;
        }
      }
      ScanEnd(commandBuffer, delimiterCharactersRead);
    }

    method ProcessCommand(command: string)
      modifies this
      ensures View() == Process(env, old(View()), command)
    {
      if command == "HMAC" {
        ProcessHmacCommand();
      } else if StartsWith(command, 0, "CONNECT") {
        ProcessConnectCommand(command);
      } else if SplitAttribute(command).Some? {
        ProcessAttributeCommand(command);
      } else if command == "." {
        ProcessDotCommand();
      } else if StartsWith(command, 0, "PING") {
        log := log + [SentPong];
      }
    }

    method ProcessHmacCommand()
      modifies this
      ensures View() == OnHmac(env, old(View()))
    {
      hmacPayload := env.random(draws);
      draws := draws + 1;
      log := log + [SentPayload(hmacPayload)];
    }

    method RequestStop()
      modifies this`log
      ensures log == old(log) + [StopRequested]
    {
      log := log + [StopRequested];
    }

    method ProcessConnectCommand(command: string)
      modifies this
      ensures View() == OnConnect(old(View()), command)
    {
      var matches := FindConnect(command, 0);
      if matches.None? {
        RequestStop();
        return;
      }
      var (digits, hash) := matches.value;
      if Parse(digits) >= U64 {
        RequestStop();
        return;
      }
      if hmacRequested {
        RequestStop();
        return;
      }
      channelId := Parse(digits) % U32;
      clientHmacHash := HexBytes(hash);
      hmacRequested := true;
      log := log + [KeyRequested(channelId, clientHmacHash)];
    }

    method ProcessAttributeCommand(command: string)
      requires SplitAttribute(command).Some?
      modifies this
      ensures View() == OnAttribute(old(View()), SplitAttribute(command).value.0, SplitAttribute(command).value.1)
    {
      if !isAuthenticated {
        RequestStop();
        return;
      }
      if isStreaming {
        RequestStop();
        return;
      }
      var (key, value) := SplitAttribute(command).value;
      mediaMetadata := SetAttribute(mediaMetadata, key, value);
    }

    method ProcessDotCommand()
      modifies this`log
      ensures View() == OnDot(old(View()))
    {
      if !isAuthenticated {
        RequestStop();
      } else if !mediaMetadata.hasAudio && !mediaMetadata.hasVideo {
        RequestStop();
      } else if mediaMetadata.hasAudio &&
                (mediaMetadata.audioPayloadType == 0 || mediaMetadata.audioSsrc == 0 ||
                 mediaMetadata.audioCodec == NoAudioCodec) {
        RequestStop();
      } else if mediaMetadata.hasVideo &&
                (mediaMetadata.videoPayloadType == 0 || mediaMetadata.videoSsrc == 0 ||
                 mediaMetadata.videoCodec == NoVideoCodec) {
        RequestStop();
      } else {
        log := log + [PortRequested(channelId, mediaMetadata)];
      }
    }

    method StartPort(port: nat)
      modifies this`isStreaming, this`log
      ensures View() == StartMediaPort(old(View()), port)
    {
      isStreaming := true;
      log := log + [SentPort(port)];
    }

    method ProvideHmacKey(key: Bytes)
      modifies this
      ensures View() == ProvideKey(env, old(View()), key)
    {
      if isAuthenticated {
        return;
      } else if !hmacRequested {
        return;
      }
      if env.hmac(key, hmacPayload) == clientHmacHash {
        isAuthenticated := true;
        log := log + [KeyMatched(key, hmacPayload, clientHmacHash)] + [SentOk];
      } else {
        RequestStop();
      }
    }
  }

  lemma ScanStep(buffer: string, i: nat, k: nat)
    requires Matched(buffer, i, k) && i < |buffer|
    ensures buffer[i] == DELIMITER[k] && k < 3 ==> Scan(buffer, i, k) == Scan(buffer, i + 1, k + 1)
    ensures buffer[i] != DELIMITER[k] ==> Scan(buffer, i, k) == Scan(buffer, i + 1, 0)
  {
  }

  lemma ScanEnd(buffer: string, k: nat)
    requires Matched(buffer, |buffer|, k)
    ensures Scan(buffer, |buffer|, k) == ([], buffer)
    ensures forall env: Env, c: Connection :: ProcessAll(env, c, []) == c
  {
  }
}
