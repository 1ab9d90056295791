/** The gateway's session descriptions (RFC 8866): the answer it prints and the offer it reads. */
module Sdp {
  import opened Text

  datatype Endpoint = Endpoint(ip: string, port: int)

  const ABSENT := Endpoint("", 0)

  // ----- reading ------------------------------------------------------------------

  /** What has been read so far: the session address, the audio and the video endpoint. */
  datatype Reading = Reading(ip: string, audio: Endpoint, video: Endpoint)

  const NOTHING := Reading("", ABSENT, ABSENT)

  /** The port in a media line: the first field after the prefix, read as a number. */
  function MediaPort(line: string, prefix: string): int
    requires HasPrefix(line, prefix)
  {
    ScanInt(FirstField(line[|prefix|..]))
  }

  /** One line, already trimmed. */
  function WithTrimmed(r: Reading, line: string): Reading {
    if HasPrefix(line, "c=IN IP4 ") then r.(ip := line[|"c=IN IP4 "|..])
    else if HasPrefix(line, "m=audio ") then r.(audio := Endpoint(r.ip, MediaPort(line, "m=audio ")))
    else if HasPrefix(line, "m=video ") then r.(video := Endpoint(r.ip, MediaPort(line, "m=video ")))
    else r
  }

  function WithLine(r: Reading, line: string): Reading {
    WithTrimmed(r, TrimSpace(line))
  }

  function WithLines(r: Reading, lines: seq<string>): Reading
    decreases lines
  {
    if lines == [] then r else WithLines(WithLine(r, lines[0]), lines[1..])
  }

  function Read(sdp: string): Reading {
    WithLines(NOTHING, SplitLines(sdp))
  }

  method ParseSDP(sdp: string) returns (audio: Endpoint, video: Endpoint)
    ensures audio == Read(sdp).audio && video == Read(sdp).video
  {
    var globalIP := "";
    audio, video := ABSENT, ABSENT;
    var lines := SplitLines(sdp);
    for n := 0 to |lines|
      invariant WithLines(Reading(globalIP, audio, video), lines[n..]) == Read(sdp)
    {
      WithLinesAt(Reading(globalIP, audio, video), lines, n);
      var line := TrimSpace(lines[n]);
      if HasPrefix(line, "c=IN IP4 ") {
        globalIP := line[|"c=IN IP4 "|..];
      } else if HasPrefix(line, "m=audio ") {
        audio := Endpoint(globalIP, MediaPort(line, "m=audio "));
      } else if HasPrefix(line, "m=video ") {
        video := Endpoint(globalIP, MediaPort(line, "m=video "));
      }
    }
  }

  lemma WithLinesAt(r: Reading, lines: seq<string>, n: nat)
    requires n < |lines|
    ensures WithLines(r, lines[n..]) == WithLines(WithLine(r, lines[n]), lines[n + 1..])
  {}

  // ----- line ends --------------------------------------------------------------------

  lemma {:induction false} SameLines(r: Reading, a: seq<string>, b: seq<string>)
    requires |a| == |b|
    requires forall i | 0 <= i < |a| :: TrimSpace(a[i]) == TrimSpace(b[i])
    ensures WithLines(r, a) == WithLines(r, b)
    decreases a
  {
    if a != [] {
      assert WithLine(r, a[0]) == WithLine(r, b[0]);
      SameLines(WithLine(r, a[0]), a[1..], b[1..]);
    }
  }

  /** Any text reads the same with LF and with CRLF line ends (section 5 of RFC 8866). */
  lemma CRLFReadsTheSame(sdp: string)
    ensures Read(WithCRLF(sdp)) == Read(sdp)
  {
    SplitCRLF(sdp);
    var a, b := SplitLines(sdp), SplitLines(WithCRLF(sdp));
    forall i | 0 <= i < |a| ensures TrimSpace(a[i]) == TrimSpace(b[i]) {
      if i == |a| - 1 {
        assert b[i] == a[i];
      } else {
        TrimTrailing(a[i], '\r');
        assert "\r" == ['\r'];
      }
    }
    SameLines(NOTHING, a, b);
  }

  // ----- printing -----------------------------------------------------------------------

  function OriginLine(session: nat, version: nat, ip: string): string {
    "o=" + ("vks4 " + Decimal(session) + " " + Decimal(version) + " IN IP4 " + ip)
  }

  function MediaLine(prefix: string, port: nat, rest: string): string {
    prefix + (Decimal(port) + rest)
  }

  const AUDIO_ATTRIBUTES := ["a=rtpmap:0 PCMU/8000", "a=ptime:20", "a=sendrecv"]

  const H264_FORMAT :=
    "a=fmtp:109 profile-level-id=42e01f;" + "packetization-mode=1;" + "level-asymmetry-allowed=1"

  const VIDEO_ATTRIBUTES := ["a=rtpmap:109 H264/90000", H264_FORMAT, "a=sendrecv"]

  function AudioLines(ip: string, session: nat, version: nat, port: nat): seq<string> {
    ["v=0", OriginLine(session, version, ip), "s=vks4-sipgw"] +
    ["c=IN IP4 " + ip] +
    ["t=0 0"] +
    [MediaLine("m=audio ", port, " RTP/AVP 0")] +
    AUDIO_ATTRIBUTES
  }

  function VideoLines(port: nat): seq<string> {
    [] + [MediaLine("m=video ", port, " RTP/AVP 109")] + VIDEO_ATTRIBUTES
  }

  /** The answer to an offer: PCMU audio, and H.264 video when withVideo. */
  function Answer(ip: string, session: nat, version: nat, audioPort: nat, videoPort: nat, withVideo: bool): string {
    Terminated(AudioLines(ip, session, version, audioPort) + if withVideo then VideoLines(videoPort) else [])
  }

  // ----- what each printed line reads as ---------------------------------------------------

  /** No white-space rune anywhere. */
  ghost predicate SpaceFree(s: string) {
    forall i, j | 0 <= i <= j <= |s| :: !IsSpaceRune(s[i..j])
  }

  lemma NoTailSpace(prefix: string, s: string)
    requires s != "" && SpaceFree(s)
    requires forall i | 0 <= i < |prefix| :: prefix[i] < '\U{80}'
    ensures TailSpace(prefix + s) == 0
  {
    var n := TailSpace(prefix + s);
    EdgesAreSpace(prefix + s);
    if 0 < n <= |s| {
      TailOfConcat(prefix, s, n);
      assert false;
    }
    if n > |s| {
      HeadOfTail(prefix, s, n);
      assert false;
    }
  }

  lemma TailOfConcat(prefix: string, s: string, n: nat)
    requires n <= |s|
    ensures (prefix + s)[|prefix + s| - n..] == s[|s| - n..|s|]
  {}

  lemma HeadOfTail(prefix: string, s: string, n: nat)
    requires |s| < n <= |prefix + s|
    ensures (prefix + s)[|prefix + s| - n..][0] == prefix[|prefix + s| - n]
  {}

  lemma NoTrim(s: string)
    requires s != "" && IsInk(s[0]) && TailSpace(s) == 0
    ensures TrimSpace(s) == s
  {
    InkStarts(s);
  }

  lemma PrefixHead(s: string, prefix: string)
    requires HasPrefix(s, prefix) && prefix != ""
    ensures s[0] == prefix[0]
  {}

  /** A line that starts with another letter than 'c' or 'm' says nothing to the reader. */
  lemma OtherLine(r: Reading, line: string)
    requires line != "" && IsInk(line[0]) && line[0] != 'c' && line[0] != 'm'
    ensures WithLine(r, line) == r
  {
    InkStarts(line);
    var t := TrimSpace(line);
    if HasPrefix(t, "c=IN IP4 ") { PrefixHead(t, "c=IN IP4 "); }
    if HasPrefix(t, "m=audio ") { PrefixHead(t, "m=audio "); }
    if HasPrefix(t, "m=video ") { PrefixHead(t, "m=video "); }
  }

  lemma BlankLine(r: Reading)
    ensures WithLine(r, "") == r
  {}

  /** A connection line gives its address to the media lines behind it, whatever address was in force before; one
      without an address says nothing. */
  lemma ConnectionLine(r: Reading, ip: string)
    requires SpaceFree(ip)
    ensures WithLine(r, "c=IN IP4 " + ip) == if ip == "" then r else r.(ip := ip)
  {
    if ip == "" {
      EmptyConnection(r);
    } else {
      var line := "c=IN IP4 " + ip;
      NoTailSpace("c=IN IP4 ", ip);
      NoTrim(line);
      assert line[..|"c=IN IP4 "|] == "c=IN IP4 ";
      assert line[|"c=IN IP4 "|..] == ip;
    }
  }

  lemma EmptyConnection(r: Reading)
    ensures WithLine(r, "c=IN IP4 " + "") == r
  {
    assert "c=IN IP4 " + "" == "c=IN IP4" + " ";
    TrimTrailingBlank("c=IN IP4");
    ShortLine(r);
  }

  lemma ShortLine(r: Reading)
    ensures WithTrimmed(r, "c=IN IP4") == r
  {
    if HasPrefix("c=IN IP4", "m=audio ") { PrefixHead("c=IN IP4", "m=audio "); }
    if HasPrefix("c=IN IP4", "m=video ") { PrefixHead("c=IN IP4", "m=video "); }
  }

  lemma PortField(port: nat, rest: string)
    requires port <= INT64_MAX && rest != "" && rest[0] == ' '
    ensures ScanInt(FirstField(Decimal(port) + rest)) == port
  {
    var text := Decimal(port) + rest;
    InkStarts(text);
    UntilSpaceStops(Decimal(port), rest);
    ScanIntOfDecimal(port);
  }

  lemma MediaLineParts(prefix: string, port: nat, rest: string)
    requires prefix == "m=audio " || prefix == "m=video "
    requires port <= INT64_MAX && rest != "" && rest[0] == ' ' && IsInk(rest[|rest| - 1])
    ensures var line := MediaLine(prefix, port, rest);
            TrimSpace(line) == line && HasPrefix(line, prefix) && MediaPort(line, prefix) == port
  {
    var line := MediaLine(prefix, port, rest);
    assert line[|line| - 1] == rest[|rest| - 1];
    InkEnds(line);
    NoTrim(line);
    assert line[..|prefix|] == prefix && line[|prefix|..] == Decimal(port) + rest;
    PortField(port, rest);
  }

  lemma AudioLine(r: Reading, line: string)
    requires TrimSpace(line) == line && HasPrefix(line, "m=audio ")
    ensures WithLine(r, line) == r.(audio := Endpoint(r.ip, MediaPort(line, "m=audio ")))
  {
    PrefixHead(line, "m=audio ");
    if HasPrefix(line, "c=IN IP4 ") { PrefixHead(line, "c=IN IP4 "); }
  }

  lemma VideoLine(r: Reading, line: string)
    requires TrimSpace(line) == line && HasPrefix(line, "m=video ")
    ensures WithLine(r, line) == r.(video := Endpoint(r.ip, MediaPort(line, "m=video ")))
  {
    PrefixHead(line, "m=video ");
    assert line[..8][2] == "m=video "[2] != "m=audio "[2];
    if HasPrefix(line, "c=IN IP4 ") { PrefixHead(line, "c=IN IP4 "); }
  }

  // ----- the round trip ---------------------------------------------------------------------

  /** Every line of s is one the reader skips. */
  ghost predicate Skipped(lines: seq<string>) {
    forall i | 0 <= i < |lines| ::
      lines[i] == "" || (IsInk(lines[i][0]) && lines[i][0] != 'c' && lines[i][0] != 'm')
  }

  lemma {:induction false} SkipLines(r: Reading, lines: seq<string>, rest: seq<string>)
    requires Skipped(lines)
    ensures WithLines(r, lines + rest) == WithLines(r, rest)
    decreases lines
  {
    if lines == [] {
      assert lines + rest == rest;
    } else {
      if lines[0] == "" { BlankLine(r); } else { OtherLine(r, lines[0]); }
      assert (lines + rest)[1..] == lines[1..] + rest;
      SkipLines(r, lines[1..], rest);
    }
  }

  lemma OneLine(r: Reading, line: string, rest: seq<string>)
    ensures WithLines(r, [line] + rest) == WithLines(WithLine(r, line), rest)
  {}

  lemma RegroupFour<T>(a: seq<T>, b: seq<T>, c: seq<T>, d: seq<T>)
    ensures a + b + c + d == a + (b + (c + d))
  {}

  /** Lines that are skipped around one that is not. */
  lemma AroundOne(r: Reading, before: seq<string>, line: string, after: seq<string>, rest: seq<string>)
    requires Skipped(before) && Skipped(after)
    ensures WithLines(r, before + [line] + after + rest) == WithLines(WithLine(r, line), rest)
  {
    RegroupFour(before, [line], after, rest);
    SkipLines(r, before, [line] + (after + rest));
    OneLine(r, line, after + rest);
    SkipLines(WithLine(r, line), after, rest);
  }

  lemma AudioHeadSkipped(ip: string, session: nat, version: nat)
    ensures Skipped(["v=0", OriginLine(session, version, ip), "s=vks4-sipgw"])
    ensures Skipped(["t=0 0"]) && Skipped(AUDIO_ATTRIBUTES) && Skipped(VIDEO_ATTRIBUTES) && Skipped([])
  {
    assert OriginLine(session, version, ip)[0] == 'o';
    assert H264_FORMAT[0] == 'a';
  }

  lemma AudioLinesRead(ip: string, session: nat, version: nat, port: nat, rest: seq<string>)
    requires SpaceFree(ip) && port <= INT64_MAX
    ensures WithLines(NOTHING, AudioLines(ip, session, version, port) + rest)
         == WithLines(Reading(ip, Endpoint(ip, port), ABSENT), rest)
  {
    var head := ["v=0", OriginLine(session, version, ip), "s=vks4-sipgw"];
    var connection, media := "c=IN IP4 " + ip, MediaLine("m=audio ", port, " RTP/AVP 0");
    AudioHeadSkipped(ip, session, version);
    Regroup(head, [connection], ["t=0 0"], [media], AUDIO_ATTRIBUTES, rest);
    AroundOne(NOTHING, head, connection, ["t=0 0"], [] + [media] + AUDIO_ATTRIBUTES + rest);
    ConnectionLine(NOTHING, ip);
    AroundOne(NOTHING.(ip := ip), [], media, AUDIO_ATTRIBUTES, rest);
    MediaLineParts("m=audio ", port, " RTP/AVP 0");
    AudioLine(NOTHING.(ip := ip), media);
  }

  lemma Regroup<T>(a: seq<T>, b: seq<T>, c: seq<T>, d: seq<T>, e: seq<T>, f: seq<T>)
    ensures a + b + c + d + e + f == a + b + c + ([] + d + e + f)
  {}

  lemma VideoLinesRead(r: Reading, port: nat, rest: seq<string>)
    requires port <= INT64_MAX
    ensures WithLines(r, VideoLines(port) + rest) == WithLines(r.(video := Endpoint(r.ip, port)), rest)
  {
    var media := MediaLine("m=video ", port, " RTP/AVP 109");
    AudioHeadSkipped("", 0, 0);
    AroundOne(r, [], media, VIDEO_ATTRIBUTES, rest);
    MediaLineParts("m=video ", port, " RTP/AVP 109");
    VideoLine(r, media);
  }

  ghost predicate OneLineEach(lines: seq<string>) {
    forall i | 0 <= i < |lines| :: '\n' !in lines[i]
  }

  lemma MediaLineFits(prefix: string, port: nat, rest: string)
    requires '\n' !in prefix && '\n' !in rest
    ensures '\n' !in MediaLine(prefix, port, rest)
  {}

  lemma JoinedFits(a: string, b: string)
    requires '\n' !in a && '\n' !in b
    ensures '\n' !in a + b
  {}

  lemma FormatFits()
    ensures '\n' !in H264_FORMAT
  {
    JoinedFits("a=fmtp:109 profile-level-id=42e01f;", "packetization-mode=1;");
    JoinedFits("a=fmtp:109 profile-level-id=42e01f;" + "packetization-mode=1;", "level-asymmetry-allowed=1");
  }

  lemma AttributesFit()
    ensures OneLineEach(AUDIO_ATTRIBUTES) && OneLineEach(VIDEO_ATTRIBUTES)
  {
    FormatFits();
  }

  lemma VideoLinesFit(port: nat)
    ensures OneLineEach(VideoLines(port))
  {
    AttributesFit();
    MediaLineFits("m=video ", port, " RTP/AVP 109");
  }

  lemma OriginLineFits(session: nat, version: nat, ip: string)
    requires '\n' !in ip
    ensures '\n' !in OriginLine(session, version, ip)
  {}

  lemma SpaceFreeFits(ip: string)
    requires SpaceFree(ip)
    ensures '\n' !in ip
  {
    if '\n' in ip {
      var i :| 0 <= i < |ip| && ip[i] == '\n';
      assert IsSpaceRune(ip[i..i + 1]);
    }
  }

  lemma AudioLinesFit(ip: string, session: nat, version: nat, port: nat)
    requires '\n' !in ip
    ensures OneLineEach(AudioLines(ip, session, version, port))
  {
    AttributesFit();
    OriginLineFits(session, version, ip);
    MediaLineFits("m=audio ", port, " RTP/AVP 0");
    assert '\n' !in "c=IN IP4 " + ip;
  }

  lemma AnswerSplits(a: seq<string>, b: seq<string>)
    requires OneLineEach(a) && OneLineEach(b)
    ensures SplitLines(Terminated(a + b)) == a + (b + [""])
  {
    SplitTerminated(a + b);
  }

  /** The peer reads from the answer exactly what was put in: the audio endpoint always,
      the video endpoint if and only if video was offered, with LF as with CRLF line ends. */
  lemma AnswerRoundTrip(ip: string, session: nat, version: nat, audioPort: nat, videoPort: nat, withVideo: bool)
    requires SpaceFree(ip)
    requires audioPort < 0x1_0000 && videoPort < 0x1_0000
    ensures var sdp := Answer(ip, session, version, audioPort, videoPort, withVideo);
            && Read(sdp).audio == Endpoint(ip, audioPort)
            && Read(sdp).video == (if withVideo then Endpoint(ip, videoPort) else ABSENT)
            && Read(WithCRLF(sdp)) == Read(sdp)
  {
    var videoLines := if withVideo then VideoLines(videoPort) else [];
    SpaceFreeFits(ip);
    AudioLinesFit(ip, session, version, audioPort);
    VideoLinesFit(videoPort);
    AnswerSplits(AudioLines(ip, session, version, audioPort), videoLines);
    AudioLinesRead(ip, session, version, audioPort, videoLines + [""]);
    var r := Reading(ip, Endpoint(ip, audioPort), ABSENT);
    if withVideo {
      VideoLinesRead(r, videoPort, [""]);
    }
    LastLine(if withVideo then r.(video := Endpoint(ip, videoPort)) else r);
    CRLFReadsTheSame(Answer(ip, session, version, audioPort, videoPort, withVideo));
  }

  lemma LastLine(r: Reading)
    ensures WithLines(r, [] + [""]) == WithLines(r, [""]) == r
  {
    assert [] + [""] == [""];
    OneLine(r, "", []);
    BlankLine(r);
    assert [""] + [] == [""];
  }

  /** Each media line takes the address of the last connection line in front of it. */
  lemma AddressInForce(a: string, b: string, p: nat, q: nat)
    requires SpaceFree(a) && SpaceFree(b) && a != "" && b != "" && p <= INT64_MAX && q <= INT64_MAX
    ensures var audio, video := MediaLine("m=audio ", p, " RTP/AVP 0"), MediaLine("m=video ", q, " RTP/AVP 109");
            var lines := ["c=IN IP4 " + a] + ([audio] + (["c=IN IP4 " + b] + ([video] + [])));
            WithLines(NOTHING, lines) == Reading(b, Endpoint(a, p), Endpoint(b, q))
  {
    var audio, video := MediaLine("m=audio ", p, " RTP/AVP 0"), MediaLine("m=video ", q, " RTP/AVP 109");
    var first, second := "c=IN IP4 " + a, "c=IN IP4 " + b;
    OneLine(NOTHING, first, [audio] + ([second] + ([video] + [])));
    ConnectionLine(NOTHING, a);
    var r1 := NOTHING.(ip := a);
    OneLine(r1, audio, [second] + ([video] + []));
    MediaLineParts("m=audio ", p, " RTP/AVP 0");
    AudioLine(r1, audio);
    var r2 := r1.(audio := Endpoint(a, p));
    OneLine(r2, second, [video] + []);
    ConnectionLine(r2, b);
    var r3 := r2.(ip := b);
    OneLine(r3, video, []);
    MediaLineParts("m=video ", q, " RTP/AVP 109");
    VideoLine(r3, video);
  }

  // ----- what any reader of the answer relies on ------------------------------------------------

  /** The type letters of the lines. */
  function Types(lines: seq<string>): string {
    if lines == [] then "" else (if lines[0] == "" then "" else [lines[0][0]]) + Types(lines[1..])
  }

  ghost predicate Typed(lines: seq<string>) {
    forall i | 0 <= i < |lines| :: |lines[i]| >= 2 && lines[i][1] == '='
  }

  lemma {:induction false} TypesOfConcat(a: seq<string>, b: seq<string>)
    ensures Types(a + b) == Types(a) + Types(b)
  {
    if a == [] {
      assert a + b == b;
    } else {
      assert (a + b)[1..] == a[1..] + b;
      TypesOfConcat(a[1..], b);
    }
  }

  /** The lines stand in the order that section 5 of RFC 8866 asks for: version, origin, session name, connection,
      time, and then the media descriptions with their attributes. */
  lemma LinesAreInOrder(ip: string, session: nat, version: nat, audioPort: nat, videoPort: nat)
    ensures Types(AudioLines(ip, session, version, audioPort)) == "vosctmaaa" && Types(VideoLines(videoPort)) == "maaa"
    ensures Typed(AudioLines(ip, session, version, audioPort)) && Typed(VideoLines(videoPort))
  {
    TypesOfAudio(OriginLine(session, version, ip), "c=IN IP4 " + ip, MediaLine("m=audio ", audioPort, " RTP/AVP 0"));
    TypesOfVideo(MediaLine("m=video ", videoPort, " RTP/AVP 109"));
  }

  lemma TypesOfAudio(origin: string, connection: string, media: string)
    requires HasPrefix(origin, "o=") && HasPrefix(connection, "c=") && HasPrefix(media, "m=")
    ensures var lines := ["v=0", origin, "s=vks4-sipgw"] + [connection] + ["t=0 0"] + [media] + AUDIO_ATTRIBUTES;
            Types(lines) == "vosctmaaa" && Typed(lines)
  {
    var a, b, c, d, e := ["v=0", origin, "s=vks4-sipgw"], [connection], ["t=0 0"], [media], AUDIO_ATTRIBUTES;
    TypesOfConcat(a + b + c + d, e);
    TypesOfConcat(a + b + c, d);
    TypesOfConcat(a + b, c);
    TypesOfConcat(a, b);
    TypesOfThree(a);
    TypesOfThree(e);
  }

  lemma TypesOfThree(lines: seq<string>)
    requires |lines| == 3 && lines[0] != "" && lines[1] != "" && lines[2] != ""
    ensures Types(lines) == [lines[0][0], lines[1][0], lines[2][0]]
  {
    var rest := lines[1..];
    assert rest[1..] == lines[2..] && lines[2..][1..] == [];
    assert Types(lines[2..]) == [lines[2][0]];
    assert Types(rest) == [lines[1][0]] + Types(lines[2..]);
    assert Types(lines) == [lines[0][0]] + Types(rest);
  }

  lemma TypesOfVideo(media: string)
    requires HasPrefix(media, "m=")
    ensures Types([] + [media] + VIDEO_ATTRIBUTES) == "maaa" && Typed([] + [media] + VIDEO_ATTRIBUTES)
  {
    TypesOfConcat([] + [media], VIDEO_ATTRIBUTES);
    TypesOfConcat([], [media]);
    TypesOfThree(VIDEO_ATTRIBUTES);
    assert [media][1..] == [];
    assert VIDEO_ATTRIBUTES[1][0] == 'a';
  }

  /** What stands behind the last blank: the payload type that a media line offers. */
  function AfterBlank(s: string): string {
    if ' ' !in s then s else AfterBlank(s[IndexByte(s, ' ') + 1..])
  }

  lemma {:induction false} AfterBlankOf(a: string, b: string)
    requires ' ' !in b
    ensures AfterBlank(a + " " + b) == b
    decreases |a|
  {
    var s := a + " " + b;
    assert s[|a|] == ' ';
    if ' ' in a {
      var k := IndexByte(a, ' ');
      assert a == a[..k] + [' '] + a[k + 1..] && s == a[..k] + [' '] + (a[k + 1..] + " " + b);
      IndexByteAt(a[..k], ' ', a[k + 1..] + " " + b);
      assert s[k + 1..] == a[k + 1..] + " " + b;
      AfterBlankOf(a[k + 1..], b);
    } else {
      IndexByteAt(a, ' ', b);
      assert s[|a| + 1..] == b;
    }
  }

  const RTPMAP := "a=rtpmap:"

  /** The payload type that an attribute line speaks of, and what it says of it. */
  ghost predicate Describes(line: string, attribute: string, payload: string, value: string) {
    line == attribute + payload + " " + value
  }

  lemma MediaFormat(prefix: string, port: nat, head: string, payload: string)
    requires ' ' !in payload
    ensures AfterBlank(MediaLine(prefix, port, head + " " + payload)) == payload
  {
    AfterBlankOf(prefix + (Decimal(port) + head), payload);
    assert MediaLine(prefix, port, head + " " + payload) == prefix + (Decimal(port) + head) + " " + payload;
  }

  /** Each media line offers one payload type: 0, which is G.711 mu-law (table 4 of RFC 3551), and 109. */
  lemma OffersOnePayload(port: nat)
    ensures AfterBlank(MediaLine("m=audio ", port, " RTP/AVP 0")) == "0"
    ensures AfterBlank(MediaLine("m=video ", port, " RTP/AVP 109")) == "109"
  {
    MediaFormat("m=audio ", port, " RTP/AVP", "0");
    MediaFormat("m=video ", port, " RTP/AVP", "109");
    assert " RTP/AVP" + " " + "0" == " RTP/AVP 0" && " RTP/AVP" + " " + "109" == " RTP/AVP 109";
  }

  /** The attributes behind it name codec and clock of that type: PCMU with 8000 Hz, and H.264 with 90000 Hz. */
  lemma PayloadsAreMapped()
    ensures Describes(AUDIO_ATTRIBUTES[0], RTPMAP, "0", "PCMU/8000")
    ensures Describes(VIDEO_ATTRIBUTES[0], RTPMAP, "109", "H264/90000")
  {}
}
