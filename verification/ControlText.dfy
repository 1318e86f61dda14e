/** The text of control commands: numbers, attributes, codec names and the CONNECT request,
    as the regular expressions and number conversions of src/FtlControlConnection.cpp and
    src/Utilities/FtlTypes.h read them, and as src/FtlClient.cpp prints them. */
module ControlText {
  import opened Collections

  const U64: nat := 0x1_0000_0000_0000_0000

  // ---------------------------------------------------------------------------
  // Numbers

  predicate IsDigit(c: char) {
    '0' as int <= c as int <= '9' as int
  }

  predicate IsHex(c: char) {
    IsDigit(c) || 'a' as int <= c as int <= 'f' as int
  }

  predicate IsSpace(c: char) {
    c == ' ' || 9 <= c as int <= 13
  }

  function Format(n: nat): string {
    var last := ('0' as int + n % 10) as char;
    if n < 10 then [last] else Format(n / 10) + [last]
  }

  function Parse(digits: string): nat
    requires forall c :: c in digits ==> IsDigit(c)
  {
    if digits == "" then 0
    else
      assert digits[|digits| - 1] in digits && IsDigit(digits[|digits| - 1]);
      10 * Parse(digits[..|digits| - 1]) + (digits[|digits| - 1] as int - '0' as int)
  }

  lemma {:induction false} FormatParses(n: nat)
    ensures Format(n) != "" && (forall c :: c in Format(n) ==> IsDigit(c)) && Parse(Format(n)) == n
  {
    if n >= 10 {
      FormatParses(n / 10);
      var s := Format(n);
      assert s[..|s| - 1] == Format(n / 10);
    }
  }

  /** The end of the run of digits that starts at `i`. */
  function DigitsEnd(s: string, i: nat): (e: nat)
    requires i <= |s|
    ensures i <= e <= |s| && (forall j :: i <= j < e ==> IsDigit(s[j])) && (e < |s| ==> !IsDigit(s[e]))
    decreases |s| - i
  {
    if i < |s| && IsDigit(s[i]) then DigitsEnd(s, i + 1) else i
  }

  function HexEnd(s: string, i: nat): (e: nat)
    requires i <= |s|
    ensures i <= e <= |s| && (forall j :: i <= j < e ==> IsHex(s[j])) && (e < |s| ==> !IsHex(s[e]))
    decreases |s| - i
  {
    if i < |s| && IsHex(s[i]) then HexEnd(s, i + 1) else i
  }

  function SpaceEnd(s: string, i: nat): (e: nat)
    requires i <= |s|
    ensures i <= e <= |s|
    decreases |s| - i
  {
    if i < |s| && IsSpace(s[i]) then SpaceEnd(s, i + 1) else i
  }

  /** `std::stoul`: leading space, a sign, digits up to the first other character; None where
      it throws.  A negative number wraps. */
  function Stoul(s: string): Option<nat> {
    var i := SpaceEnd(s, 0);
    var signed := i < |s| && (s[i] == '+' || s[i] == '-');
    var j := if signed then i + 1 else i;
    var e := DigitsEnd(s, j);
    if e == j then None
    else
      assert forall c :: c in s[j..e] ==> IsDigit(c);
      var n := Parse(s[j..e]);
      if n >= U64 then None
      else Some(if s[i] == '-' then (U64 - n) % U64 else n)
  }

  lemma StoulReadsFormat(n: nat)
    requires n < U64
    ensures Stoul(Format(n)) == Some(n)
  {
    var s := Format(n);
    FormatParses(n);
    assert s[0] in s;
    DigitsToEnd(s, 0);
    assert s[0..|s|] == s;
  }

  lemma {:induction false} DigitsToEnd(s: string, i: nat)
    requires i <= |s| && forall c :: c in s ==> IsDigit(c)
    ensures DigitsEnd(s, i) == |s|
    decreases |s| - i
  {
    if i < |s| { DigitsToEnd(s, i + 1); }
  }

  // ---------------------------------------------------------------------------
  // Attributes: the pattern (.+): (.+)

  predicate LineBreak(c: char) {
    c == '\r' || c == '\n'
  }

  /** A colon and space at `i` with text on both sides. */
  predicate SeparatorAt(s: string, i: int) {
    1 <= i && i + 2 < |s| && s[i] == ':' && s[i + 1] == ' '
  }

  /** The first group is greedy: it extends to the last separator. */
  function LastSeparator(s: string, i: nat): Option<nat>
    requires i <= |s|
  {
    if i == 0 then None
    else if SeparatorAt(s, i - 1) then Some(i - 1)
    else LastSeparator(s, i - 1)
  }

  function SplitAttribute(s: string): Option<(string, string)> {
    if exists c :: c in s && LineBreak(c) then None
    else
      match LastSeparator(s, |s|)
      case None => None
      case Some(i) => if SeparatorAt(s, i) then Some((s[..i], s[i + 2..])) else None
  }

  /** The text that survives as the value of an attribute. */
  predicate OneValue(v: string) {
    (forall c :: c in v ==> !LineBreak(c))
    && forall i :: 0 <= i && i + 2 < |v| ==> !(v[i] == ':' && v[i + 1] == ' ')
  }

  lemma {:induction false} LastSeparatorIsLast(s: string, i: nat)
    requires i <= |s|
    ensures
      match LastSeparator(s, i)
      case None => forall j :: j < i ==> !SeparatorAt(s, j)
      case Some(p) => p < i && SeparatorAt(s, p) && forall j :: p < j < i ==> !SeparatorAt(s, j)
  {
    if i > 0 && !SeparatorAt(s, i - 1) { LastSeparatorIsLast(s, i - 1); }
  }

  /** A value read from an attribute is one value. */
  lemma SplitGivesOneValue(s: string)
    ensures SplitAttribute(s).Some? ==> OneValue(SplitAttribute(s).value.1) && SplitAttribute(s).value.1 != ""
  {
    LastSeparatorIsLast(s, |s|);
    if SplitAttribute(s).Some? {
      var p := LastSeparator(s, |s|).value;
      var v := s[p + 2..];
      forall i | 0 <= i && i + 2 < |v| ensures !(v[i] == ':' && v[i + 1] == ' ') {
        assert !SeparatorAt(s, p + 2 + i);
      }
    }
  }

  /** An attribute with one value is read back as printed, unless the value is empty. */
  lemma PrintedAttributeSplits(key: string, v: string)
    requires key != "" && (forall c :: c in key ==> !LineBreak(c) && c != ':')
    requires OneValue(v)
    ensures SplitAttribute(key + ": " + v) == if v == "" then None else Some((key, v))
  {
    var s := key + ": " + v;
    LastSeparatorIsLast(s, |s|);
    assert forall c :: c in s ==> !LineBreak(c);
    assert forall j :: 0 <= j < |key| ==> s[j] in key;
    assert forall j :: 0 <= j < |key| ==> !SeparatorAt(s, j);
    forall j | |key| + 2 <= j && j + 2 < |s| ensures !SeparatorAt(s, j) {
      assert s[j] == v[j - |key| - 2] && s[j + 1] == v[j - |key| - 1];
    }
    assert !SeparatorAt(s, |key| + 1);
    if v != "" {
      assert SeparatorAt(s, |key|);
      assert s[..|key|] == key && s[|key| + 2..] == v;
    }
  }

  // ---------------------------------------------------------------------------
  // Codec names

  datatype VideoCodec = NoVideoCodec | H264
  datatype AudioCodec = NoAudioCodec | Opus

  function Lower(s: string): string {
    seq(|s|, i requires 0 <= i < |s| => if 'A' <= s[i] <= 'Z' then (s[i] as int + 32) as char else s[i])
  }

  function ParseVideoCodec(s: string): VideoCodec {
    if Lower(s) == "h264" then H264 else NoVideoCodec
  }

  function ParseAudioCodec(s: string): AudioCodec {
    if Lower(s) == "opus" then Opus else NoAudioCodec
  }

  function VideoCodecString(c: VideoCodec): string {
    match c case H264 => "H264" case NoVideoCodec => ""
  }

  function AudioCodecString(c: AudioCodec): string {
    match c case Opus => "opus" case NoAudioCodec => ""
  }

  lemma CodecNamesParse()
    ensures ParseVideoCodec("H264") == H264 && ParseAudioCodec("opus") == Opus
  {
    assert Lower("H264") == "h264";
    assert Lower("opus") == "opus";
  }

  // ---------------------------------------------------------------------------
  // The CONNECT request: the pattern CONNECT ([0-9]+) \$([0-9a-f]+), searched for anywhere

  predicate StartsWith(s: string, i: nat, t: string) {
    i + |t| <= |s| && s[i..i + |t|] == t
  }

  function ConnectAt(s: string, p: nat): Option<(string, string)>
    requires p <= |s|
  {
    if !StartsWith(s, p, "CONNECT ") then None
    else
      var d := p + 8;
      var e := DigitsEnd(s, d);
      if e == d || !StartsWith(s, e, " $") then None
      else
        var f := HexEnd(s, e + 2);
        if f == e + 2 then None else Some((s[d..e], s[e + 2..f]))
  }

  function FindConnect(s: string, p: nat): (r: Option<(string, string)>)
    requires p <= |s|
    ensures r.Some? ==> (forall c :: c in r.value.0 ==> IsDigit(c)) && (forall c :: c in r.value.1 ==> IsHex(c))
    decreases |s| - p
  {
    match ConnectAt(s, p)
    case Some(r) => Some(r)
    case None => if p == |s| then None else FindConnect(s, p + 1)
  }

  function HexValue(c: char): (v: nat)
    requires IsHex(c)
    ensures v < 16
  {
    if IsDigit(c) then c as int - '0' as int else c as int - 'a' as int + 10
  }

  /** Pairs of hex digits as bytes; an odd last digit stands for itself. */
  function HexBytes(s: string): Bytes
    requires forall c :: c in s ==> IsHex(c)
  {
    if s == "" then []
    else if |s| == 1 then [HexValue(s[0])]
    else [16 * HexValue(s[0]) + HexValue(s[1])] + HexBytes(s[2..])
  }
}
