/** src/FtlControlConnection.cpp, onTransportBytesReceived: cutting the control stream into
    commands at CRLFCRLF, however the network cuts it into chunks. */
module ControlFraming {
  import opened Collections

  const DELIMITER: string := "\r\n\r\n"

  predicate DelimiterAt(s: string, i: int) {
    0 <= i && i + 4 <= |s| && s[i] == '\r' && s[i + 1] == '\n' && s[i + 2] == '\r' && s[i + 3] == '\n'
  }

  /** `k` characters of the delimiter have been read just before position `i`. */
  predicate Matched(buffer: string, i: int, k: int) {
    && 0 <= k <= 3 && k <= i <= |buffer|
    && (k >= 1 ==> buffer[i - k] == '\r')
    && (k >= 2 ==> buffer[i - k + 1] == '\n')
    && (k >= 3 ==> buffer[i - k + 2] == '\r')
  }

  /** The scan from position `i`: the commands found and what stays in the buffer.  A
      character that breaks off a match is not tried as the start of a new one. */
  function Scan(buffer: string, i: nat, k: nat): (seq<string>, string)
    requires Matched(buffer, i, k)
    decreases |buffer|, |buffer| - i
  {
    if i == |buffer| then ([], buffer)
    else if buffer[i] == DELIMITER[k] then
      if k == 3 then
        var (commands, rest) := Scan(buffer[i + 1..], 0, 0);
        ([buffer[..i - 3]] + commands, rest)
      else
        Scan(buffer, i + 1, k + 1)
    else
      Scan(buffer, i + 1, 0)
  }

  /** Where the scan resumes: a little before the new bytes. */
  function Resume(buffer: string): nat {
    Max(0, |buffer| - |DELIMITER|)
  }

  function Feed(buffer: string, chunk: string): (seq<string>, string) {
    Scan(buffer + chunk, Resume(buffer), 0)
  }

  function FeedAll(buffer: string, chunks: seq<string>): (seq<string>, string)
    decreases |chunks|
  {
    if chunks == [] then ([], buffer)
    else
      var (first, rest) := Feed(buffer, chunks[0]);
      var (others, end) := FeedAll(rest, chunks[1..]);
      (first + others, end)
  }

  function Concat(chunks: seq<string>): string {
    if chunks == [] then "" else chunks[0] + Concat(chunks[1..])
  }

  /** The commands as they are sent, followed by an unfinished one. */
  function Stream(commands: seq<string>, tail: string): string {
    if commands == [] then tail else commands[0] + DELIMITER + Stream(commands[1..], tail)
  }

  ghost predicate NoDelimiter(s: string) {
    forall j :: !DelimiterAt(s, j)
  }

  /** A command whose end can be found: its delimiter is the first one, and it does not end
      in a carriage return, which the scan would take for the start of the delimiter. */
  ghost predicate Framable(command: string) {
    && (forall j :: 0 <= j < |command| ==> !DelimiterAt(command + DELIMITER, j))
    && (command != "" ==> command[|command| - 1] != '\r')
  }

  lemma PlainTextIsFramable(command: string)
    requires '\r' !in command
    ensures Framable(command) && NoDelimiter(command)
  {
  }

  // ---------------------------------------------------------------------------
  // Sufficiency

  /** The buffer is the unread part of the stream up to `rest`; the scan is before the end of
      the first command, or inside its delimiter. */
  ghost predicate OnTrack(commands: seq<string>, tail: string, buffer: string, rest: string, i: nat, k: nat) {
    && (forall c :: c in commands ==> Framable(c)) && NoDelimiter(tail)
    && buffer + rest == Stream(commands, tail)
    && Matched(buffer, i, k)
    && (commands != [] && i > |commands[0]| ==> k == i - |commands[0]|)
  }

  /** The commands delivered are the first ones, and the rest of the stream is still to come. */
  ghost predicate Delivers(commands: seq<string>, tail: string, rest: string, r: (seq<string>, string)) {
    && |r.0| <= |commands| && r.0 == commands[..|r.0|]
    && r.1 + rest == Stream(commands[|r.0|..], tail)
    && (|r.0| < |commands| ==> |r.1| < |commands[|r.0|]| + 4)
  }

  lemma StreamChars(commands: seq<string>, tail: string, buffer: string, rest: string)
    requires commands != [] && buffer + rest == Stream(commands, tail)
    ensures forall j :: 0 <= j < |buffer| && j < |commands[0]| + 4 ==> buffer[j] == (commands[0] + DELIMITER)[j]
    ensures |buffer| + |rest| >= |commands[0]| + 4
  {
    forall j | 0 <= j < |buffer| && j < |commands[0]| + 4 ensures buffer[j] == (commands[0] + DELIMITER)[j] {
      assert (buffer + rest)[j] == buffer[j];
    }
  }

  /** No match is under way where the delimiter of the first command begins. */
  lemma AtCommandEnd(commands: seq<string>, tail: string, buffer: string, rest: string, i: nat, k: nat)
    requires OnTrack(commands, tail, buffer, rest, i, k) && commands != [] && i == |commands[0]|
    ensures k == 0
  {
    var c := commands[0];
    StreamChars(commands, tail, buffer, rest);
    assert Framable(c) && !DelimiterAt(c + DELIMITER, |c| - 2);
  }

  /** A completed match inside the first command would be an earlier delimiter. */
  lemma NoEarlyMatch(commands: seq<string>, tail: string, buffer: string, rest: string, i: nat)
    requires OnTrack(commands, tail, buffer, rest, i, 3) && i < |buffer| && buffer[i] == '\n'
    ensures commands != [] && i == |commands[0]| + 3
  {
    assert DelimiterAt(buffer + rest, i - 3);
    if commands != [] {
      StreamChars(commands, tail, buffer, rest);
      var c := commands[0];
      assert Framable(c);
      if i < |c| + 3 { assert DelimiterAt(c + DELIMITER, i - 3); }
    }
  }

  lemma {:induction false} ScanDelivers(commands: seq<string>, tail: string, buffer: string, rest: string,
                                        i: nat, k: nat)
    requires OnTrack(commands, tail, buffer, rest, i, k)
    requires commands != [] ==> i < |commands[0]| + 4
    ensures Delivers(commands, tail, rest, Scan(buffer, i, k))
    decreases |buffer|, |buffer| - i
  {
    if i < |buffer| {
      if buffer[i] == DELIMITER[k] && k == 3 {
        NoEarlyMatch(commands, tail, buffer, rest, i);
        NextCommand(commands, tail, buffer, rest, i);
      } else {
        Advance(commands, tail, buffer, rest, i, k);
        ScanDelivers(commands, tail, buffer, rest, i + 1, if buffer[i] == DELIMITER[k] then k + 1 else 0);
      }
    }
  }

  /** One more character that does not complete the delimiter. */
  lemma Advance(commands: seq<string>, tail: string, buffer: string, rest: string, i: nat, k: nat)
    requires OnTrack(commands, tail, buffer, rest, i, k) && i < |buffer|
    requires commands != [] ==> i < |commands[0]| + 4
    requires !(buffer[i] == DELIMITER[k] && k == 3)
    ensures OnTrack(commands, tail, buffer, rest, i + 1, if buffer[i] == DELIMITER[k] then k + 1 else 0)
    ensures commands != [] ==> i + 1 < |commands[0]| + 4
  {
    if commands != [] && i >= |commands[0]| {
      if i == |commands[0]| { AtCommandEnd(commands, tail, buffer, rest, i, k); }
      StreamChars(commands, tail, buffer, rest);
      assert buffer[i] == DELIMITER[i - |commands[0]|];
    }
  }

  /** The delimiter is complete: the first command is delivered and the scan starts over. */
  lemma NextCommand(commands: seq<string>, tail: string, buffer: string, rest: string, i: nat)
    requires OnTrack(commands, tail, buffer, rest, i, 3) && commands != [] && i == |commands[0]| + 3 < |buffer|
    requires buffer[i] == '\n'
    ensures Delivers(commands, tail, rest, Scan(buffer, i, 3))
    decreases |buffer|, |buffer| - i, 0
  {
    var c := commands[0];
    var left := buffer[i + 1..];
    assert left + rest == (buffer + rest)[i + 1..];
    assert Stream(commands, tail)[i + 1..] == Stream(commands[1..], tail);
    assert buffer[..i - 3] == (buffer + rest)[..i - 3] == c;
    ScanDelivers(commands[1..], tail, left, rest, 0, 0);
    var r := Scan(left, 0, 0);
    assert Scan(buffer, i, 3) == ([c] + r.0, r.1);
    assert commands == [c] + commands[1..];
  }

  lemma {:induction false} FeedAllDelivers(commands: seq<string>, tail: string, buffer: string, chunks: seq<string>)
    requires (forall c :: c in commands ==> Framable(c)) && NoDelimiter(tail)
    requires buffer + Concat(chunks) == Stream(commands, tail)
    requires commands != [] ==> |buffer| < |commands[0]| + 4
    ensures FeedAll(buffer, chunks) == (commands, tail)
    decreases |chunks|
  {
    if chunks == [] {
      assert buffer + "" == buffer;
      if commands != [] { StreamChars(commands, tail, buffer, ""); }
    } else {
      var rest := Concat(chunks[1..]);
      assert buffer + chunks[0] + rest == buffer + Concat(chunks);
      ScanDelivers(commands, tail, buffer + chunks[0], rest, Resume(buffer), 0);
      var (first, left) := Feed(buffer, chunks[0]);
      FeedAllDelivers(commands[|first|..], tail, left, chunks[1..]);
      assert commands[..|first|] + commands[|first|..] == commands;
    }
  }

  /** Framing is independent of chunking: however a stream of framable commands and an
      unfinished rest is cut into chunks, exactly those commands are handed over, in order,
      and exactly the rest stays in the buffer. */
  lemma FramingIgnoresChunking(commands: seq<string>, tail: string, chunks: seq<string>)
    requires (forall c :: c in commands ==> Framable(c)) && NoDelimiter(tail)
    requires Concat(chunks) == Stream(commands, tail)
    ensures FeedAll("", chunks) == (commands, tail)
  {
    assert "" + Concat(chunks) == Concat(chunks);
    FeedAllDelivers(commands, tail, "", chunks);
  }

  // ---------------------------------------------------------------------------
  // Necessity

  /** The first command a scan delivers ends at some delimiter. */
  lemma {:induction false} ScanStopsAtDelimiter(buffer: string, i: nat, k: nat)
    requires Matched(buffer, i, k)
    ensures
      var r := Scan(buffer, i, k);
      if r.0 == [] then r.1 == buffer
      else |r.0[0]| < |buffer| && DelimiterAt(buffer, |r.0[0]|) && r.0[0] == buffer[..|r.0[0]|]
    decreases |buffer| - i
  {
    if i < |buffer| && !(buffer[i] == DELIMITER[k] && k == 3) {
      ScanStopsAtDelimiter(buffer, i + 1, if buffer[i] == DELIMITER[k] then k + 1 else 0);
    }
  }

  lemma ScanFour(buffer: string, i: nat)
    requires DelimiterAt(buffer, i)
    ensures Scan(buffer, i, 0).0 != [] && Scan(buffer, i, 0).0[0] == buffer[..i]
  {
    assert Scan(buffer, i + 1, 1) == Scan(buffer, i, 0);
    assert Scan(buffer, i + 2, 2) == Scan(buffer, i + 1, 1);
    assert Scan(buffer, i + 3, 3) == Scan(buffer, i + 2, 2);
  }

  lemma {:induction false} FirstDelimiter(s: string, j: nat) returns (p: nat)
    requires DelimiterAt(s, j)
    ensures p <= j && DelimiterAt(s, p) && forall q :: 0 <= q < p ==> !DelimiterAt(s, q)
  {
    if q :| 0 <= q < j && DelimiterAt(s, q) {
      p := FirstDelimiter(s, q);
    } else {
      p := j;
    }
  }

  lemma TwoChunks(a: string, b: string)
    ensures Concat([a, b]) == a + b
    ensures
      var (x, y) := (Feed("", a), Feed(Feed("", a).1, b));
      FeedAll("", [a, b]) == (x.0 + y.0, y.1)
  {
    assert [a, b][1..] == [b] && [b][1..] == [];
    assert Concat([b]) == b;
    var x := Feed("", a);
    var y := Feed(x.1, b);
    assert FeedAll(x.1, [b]) == (y.0 + FeedAll(y.1, []).0, y.1);
    assert y.0 + [] == y.0;
    assert FeedAll("", [a, b]) == (x.0 + FeedAll(x.1, [a, b][1..]).0, FeedAll(x.1, [a, b][1..]).1);
  }

  /** If the first chunk ends with the first delimiter, the first command ends there. */
  lemma CutAtChunk(a: string, b: string, p: nat)
    requires |a| == p + 4 && DelimiterAt(a, p) && forall q :: 0 <= q < p ==> !DelimiterAt(a, q)
    ensures FeedAll("", [a, b]).0 != [] && FeedAll("", [a, b]).0[0] == a[..p]
  {
    hide Scan, Concat, FeedAll;
    TwoChunks(a, b);
    assert "" + a == a;
    ScanStopsAtDelimiter(a, 0, 0);
    if Feed("", a).0 == [] {
      ScanFour(a + b, p);
      assert (a + b)[..p] == a[..p];
    }
  }

  /** With an earlier delimiter in it, some chunking cuts the command there. */
  lemma EarlyDelimiterCuts(command: string, j: nat)
    requires j < |command| && DelimiterAt(command + DELIMITER, j)
    ensures exists chunks :: Concat(chunks) == command + DELIMITER && FeedAll("", chunks) != ([command], "")
  {
    hide Concat, FeedAll;
    var s := command + DELIMITER;
    var p := FirstDelimiter(s, j);
    var (a, b) := (s[..p + 4], s[p + 4..]);
    assert forall q :: DelimiterAt(a, q) ==> DelimiterAt(s, q);
    CutAtChunk(a, b, p);
    TwoChunks(a, b);
    assert Concat([a, b]) == a + b == s;
  }

  /** Ending in a carriage return, the command is missed when the last byte of its delimiter
      comes alone. */
  lemma TrailingReturnIsMissed(command: string)
    requires command != "" && command[|command| - 1] == '\r'
    requires forall j :: 0 <= j < |command| ==> !DelimiterAt(command + DELIMITER, j)
    ensures exists chunks :: Concat(chunks) == command + DELIMITER && FeedAll("", chunks) != ([command], "")
  {
    hide Scan, Concat, FeedAll;
    var s := command + DELIMITER;
    var n := |command|;
    var (a, b) := (s[..n + 3], s[n + 3..]);
    assert a + b == s;
    assert forall q :: DelimiterAt(a, q) ==> DelimiterAt(s, q);
    MissedAcrossChunks(a, b);
    TwoChunks(a, b);
    assert Concat([a, b]) == a + b == s;
  }

  lemma MissedAcrossChunks(a: string, b: string)
    requires NoDelimiter(a) && |a| >= 4 && |b| == 1
    requires a[|a| - 4] == '\r' && DelimiterAt(a + b, |a| - 3)
    ensures FeedAll("", [a, b]) == ([], a + b)
  {
    hide Scan, Concat, FeedAll;
    TwoChunks(a, b);
    assert "" + a == a;
    ScanStopsAtDelimiter(a, 0, 0);
    ReturnSpoilsMatch(a + b, |a| - 3);
    assert Feed("", a) == ([], a);
    assert Feed(a, b) == ([], a + b);
    assert [] + Feed(a, b).0 == [];
  }

  lemma ReturnSpoilsMatch(s: string, n: nat)
    requires 0 < n && |s| == n + 4 && s[n - 1] == '\r' && DelimiterAt(s, n)
    ensures Scan(s, n - 1, 0) == ([], s)
  {
    assert Scan(s, n - 1, 0) == Scan(s, n, 1) == Scan(s, n + 1, 0) == Scan(s, n + 2, 0);
    assert Scan(s, n + 2, 0) == Scan(s, n + 3, 1) == Scan(s, n + 4, 2) == ([], s);
  }

  /** Exactly the framable commands are framed correctly under every chunking. */
  lemma FramedIff(command: string)
    ensures Framable(command) <==>
            forall chunks :: Concat(chunks) == command + DELIMITER ==> FeedAll("", chunks) == ([command], "")
  {
    if Framable(command) {
      forall chunks | Concat(chunks) == command + DELIMITER ensures FeedAll("", chunks) == ([command], "") {
        assert Stream([command], "") == command + DELIMITER + "";
        FramingIgnoresChunking([command], "", chunks);
      }
    } else if j :| 0 <= j < |command| && DelimiterAt(command + DELIMITER, j) {
      EarlyDelimiterCuts(command, j);
    } else {
      TrailingReturnIsMissed(command);
    }
  }
}
