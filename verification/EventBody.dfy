/** The header lines of a FreeSWITCH event body, with percent-encoded values. */
module EventBody {
  import opened Text

  /** The value of a hexadecimal digit of either case, or -1. */
  function HexDigit(c: char): int {
    if '0' <= c <= '9' then c as int - '0' as int
    else if 'a' <= c <= 'f' then c as int - 'a' as int + 10
    else if 'A' <= c <= 'F' then c as int - 'A' as int + 10
    else -1
  }

  const LOWER := "0123456789abcdef"
  const UPPER := "0123456789ABCDEF"

  /** The sixteen digits in their order, each letter in either case, and no other character. */
  lemma HexDigitMeans(c: char, n: nat)
    requires n < 16
    ensures HexDigit(LOWER[n]) == n && HexDigit(UPPER[n]) == n
    ensures HexDigit(c) == n ==> c == LOWER[n] || c == UPPER[n]
    ensures -1 <= HexDigit(c) < 16
  {}

  /** True when s starts with '%' and two hexadecimal digits. */
  predicate StartsWithEscape(s: string) {
    |s| > 2 && s[0] == '%' && HexDigit(s[1]) >= 0 && HexDigit(s[2]) >= 0
  }

  /** The byte that a leading %XX stands for. */
  function EscapedByte(s: string): char
    requires StartsWithEscape(s)
  {
    (HexDigit(s[1]) * 16 + HexDigit(s[2])) as char
  }

  function Decoded(s: string): string {
    if s == "" then ""
    else if StartsWithEscape(s) then [EscapedByte(s)] + Decoded(s[3..])
    else [s[0]] + Decoded(s[1..])
  }

  method UrlDecode(s: string) returns (b: string)
    ensures b == Decoded(s)
  {
    b := "";
    var i := 0;
    while i < |s|
      invariant 0 <= i <= |s|
      invariant b + Decoded(s[i..]) == Decoded(s)
    {
      DecodedAt(s, i, b);
      if s[i] == '%' && i + 2 < |s| {
        var hi, lo := HexDigit(s[i + 1]), HexDigit(s[i + 2]);
        if hi >= 0 && lo >= 0 {
          b := b + [(hi * 16 + lo) as char];
          i := i + 3;
          continue;
        }
      }
      b := b + [s[i]];
      i := i + 1;
    }
  }

  lemma DecodedAt(s: string, i: nat, b: string)
    requires i < |s|
    ensures if StartsWithEscape(s[i..])
            then i + 3 <= |s| && b + Decoded(s[i..]) == b + [EscapedByte(s[i..])] + Decoded(s[i + 3..])
            else b + Decoded(s[i..]) == b + [s[i]] + Decoded(s[i + 1..])
  {
    var rest := s[i..];
    if StartsWithEscape(rest) {
      assert rest[3..] == s[i + 3..];
    } else {
      assert rest[1..] == s[i + 1..];
    }
  }

  /** A '%' with two hexadecimal digits behind it. */
  predicate EscapeAt(s: string, i: nat) {
    i + 2 < |s| && s[i] == '%' && HexDigit(s[i + 1]) >= 0 && HexDigit(s[i + 2]) >= 0
  }

  /** What is no escape stays as it is, lone and misspelt '%' included. */
  lemma {:induction false} OtherTextStays(s: string)
    requires forall i | 0 <= i < |s| :: !EscapeAt(s, i)
    ensures Decoded(s) == s
  {
    if s != "" {
      assert !EscapeAt(s, 0);
      forall i | 0 <= i < |s[1..]| ensures !EscapeAt(s[1..], i) {
        assert !EscapeAt(s, i + 1);
      }
      OtherTextStays(s[1..]);
      assert [s[0]] + s[1..] == s;
    }
  }

  // ----- the encodings of a value (section 2.1 of RFC 3986) ------------------------

  /** encoded renders value: every byte is written either as itself, unless it is '%',
      or as %XX with hexadecimal digits of either case. */
  ghost predicate Encodes(encoded: string, value: string)
    decreases |value|
  {
    if value == "" then encoded == ""
    else
      || (encoded != "" && encoded[0] == value[0] && value[0] != '%' && Encodes(encoded[1..], value[1..]))
      || (StartsWithEscape(encoded) && EscapedByte(encoded) == value[0] && Encodes(encoded[3..], value[1..]))
  }

  lemma {:induction false} DecodeUndoesEncoding(encoded: string, value: string)
    requires Encodes(encoded, value)
    ensures Decoded(encoded) == value
    decreases |value|
  {
    if value != "" {
      assert value == [value[0]] + value[1..];
      if StartsWithEscape(encoded) && EscapedByte(encoded) == value[0] && Encodes(encoded[3..], value[1..]) {
        DecodeUndoesEncoding(encoded[3..], value[1..]);
      } else {
        DecodeUndoesEncoding(encoded[1..], value[1..]);
      }
    }
  }

  function HexChar(n: nat): (c: char)
    requires n < 16
    ensures HexDigit(c) == n
    ensures c != '%' && IsInk(c)
  {
    if n < 10 then ('0' as int + n) as char else ('A' as int + n - 10) as char
  }

  /** The rendering that escapes every byte. */
  function EscapeAll(value: string): string
    requires IsBytes(value)
  {
    if value == "" then ""
    else ['%', HexChar(value[0] as int / 16), HexChar(value[0] as int % 16)] + EscapeAll(value[1..])
  }

  predicate IsBytes(s: string) {
    forall i | 0 <= i < |s| :: s[i] < '\U{100}'
  }

  lemma {:induction false} EscapeAllIsInk(value: string)
    requires IsBytes(value)
    ensures forall i | 0 <= i < |EscapeAll(value)| :: IsInk(EscapeAll(value)[i])
  {
    if value != "" { EscapeAllIsInk(value[1..]); }
  }

  /** Every byte string has a rendering that is fit for a header line. */
  lemma {:induction false} EscapeAllEncodes(value: string)
    requires IsBytes(value)
    ensures Encodes(EscapeAll(value), value) && FitsLine(EscapeAll(value))
  {
    if value != "" {
      EscapeAllEncodes(value[1..]);
      var e := EscapeAll(value);
      assert e[3..] == EscapeAll(value[1..]);
      assert EscapedByte(e) == value[0];
      EscapeAllIsInk(value);
      InkFitsLine(e);
    }
  }

  lemma InkFitsLine(s: string)
    requires forall i | 0 <= i < |s| :: IsInk(s[i])
    ensures FitsLine(s)
  {
    if s != "" {
      InkLeads(s);
      InkEnds(s);
    }
  }

  // ----- lines ------------------------------------------------------------------

  /** One line of an event body; a line without a colon, or with nothing before it, is skipped. */
  function WithLine(out: map<string, string>, line: string): map<string, string> {
    var i := IndexByte(line, ':');
    if i < 1 then out
    else out[TrimSpace(line[..i]) := Decoded(TrimSpace(line[i + 1..]))]
  }

  /** A line without a colon, or with nothing before the first, says nothing. */
  lemma KeylessLineIsSkipped(out: map<string, string>, line: string)
    requires ':' !in line || line[0] == ':'
    ensures WithLine(out, line) == out
  {}

  /** A blank, a tab or a line end before or behind a key or a value makes no difference. */
  lemma PaddingIsTrimmed(out: map<string, string>, key: string, rest: string, c: char)
    requires key != "" && ':' !in key && IsBlank(c)
    ensures var line := key + ":" + rest;
            && WithLine(out, line) == WithLine(out, ([c] + key) + ":" + rest)
            && WithLine(out, line) == WithLine(out, (key + [c]) + ":" + rest)
            && WithLine(out, line) == WithLine(out, key + ":" + ([c] + rest))
            && WithLine(out, line) == WithLine(out, key + ":" + (rest + [c]))
  {
    KeyedLine(out, key, rest);
    KeyedLine(out, [c] + key, rest);
    KeyedLine(out, key + [c], rest);
    KeyedLine(out, key, [c] + rest);
    KeyedLine(out, key, rest + [c]);
    TrimLeading(c, key);
    TrimTrailing(key, c);
    TrimLeading(c, rest);
    TrimTrailing(rest, c);
  }

  function WithLines(out: map<string, string>, lines: seq<string>): map<string, string>
    decreases lines
  {
    if lines == [] then out else WithLines(WithLine(out, lines[0]), lines[1..])
  }

  function Parsed(body: string): map<string, string> {
    WithLines(map[], SplitLines(body))
  }

  method ParseEventBody(body: string) returns (out: map<string, string>)
    ensures out == Parsed(body)
  {
    out := map[];
    var lines := SplitLines(body);
    for n := 0 to |lines|
      invariant WithLines(out, lines[n..]) == Parsed(body)
    {
      WithLinesAt(out, lines, n);
      out := ReadLine(out, lines[n]);
    }
  }

  /** The body of the loop over the lines. */
  method ReadLine(before: map<string, string>, line: string) returns (out: map<string, string>)
    ensures out == WithLine(before, line)
  {
    out := before;
    var i := IndexByte(line, ':');
    if i < 1 {
      return;
    }
    var v := UrlDecode(TrimSpace(line[i + 1..]));
    out := out[TrimSpace(line[..i]) := v];
  }

  lemma WithLinesAt(out: map<string, string>, lines: seq<string>, n: nat)
    requires n < |lines|
    ensures WithLines(out, lines[n..]) == WithLines(WithLine(out, lines[n]), lines[n + 1..])
  {}

  // ----- printing headers ----------------------------------------------------------

  datatype Header = Header(key: string, encoded: string, value: string)

  /** No line feed, and no white space at either edge. */
  predicate FitsLine(s: string) {
    '\n' !in s && LeadSpace(s) == 0 && TailSpace(s) == 0
  }

  ghost predicate GoodHeader(h: Header) {
    h.key != "" && ':' !in h.key && FitsLine(h.key) && FitsLine(h.encoded) && Encodes(h.encoded, h.value)
  }

  /** What parsing needs of a header, with its value as the decoder sees it. */
  predicate Readable(h: Header) {
    h.key != "" && ':' !in h.key && FitsLine(h.key) && FitsLine(h.encoded) && Decoded(h.encoded) == h.value
  }

  function HeaderLine(h: Header): string {
    h.key + ":" + (" " + h.encoded)
  }

  function HeaderLines(hs: seq<Header>): seq<string> {
    seq(|hs|, i requires 0 <= i < |hs| => HeaderLine(hs[i]))
  }

  function Rendered(hs: seq<Header>): string {
    Terminated(HeaderLines(hs))
  }

  /** Later headers replace earlier ones with the same key. */
  function Collected(out: map<string, string>, hs: seq<Header>): map<string, string>
    decreases hs
  {
    if hs == [] then out else Collected(out[hs[0].key := hs[0].value], hs[1..])
  }

  lemma HeaderLineParses(out: map<string, string>, h: Header)
    requires Readable(h)
    ensures WithLine(out, HeaderLine(h)) == out[h.key := h.value]
  {
    KeyedLine(out, h.key, " " + h.encoded);
    TrimBlank(h.key);
    TrimBlank(h.encoded);
  }

  lemma KeyedLine(out: map<string, string>, key: string, rest: string)
    requires key != "" && ':' !in key
    ensures WithLine(out, key + ":" + rest) == out[TrimSpace(key) := Decoded(TrimSpace(rest))]
  {
    LineParts(key, rest);
  }

  lemma LineParts(key: string, rest: string)
    requires ':' !in key
    ensures var line := key + ":" + rest;
            IndexByte(line, ':') == |key| && line[..|key|] == key && line[|key| + 1..] == rest
  {
    IndexByteAt(key, ':', rest);
  }

  lemma TrimBlank(s: string)
    requires FitsLine(s)
    ensures TrimSpace(s) == s && TrimSpace(" " + s) == s
  {
    assert (" " + s)[..1] == " " && (" " + s)[1..] == s;
  }

  ghost predicate Yields(line: string, h: Header) {
    forall out: map<string, string> :: WithLine(out, line) == out[h.key := h.value]
  }

  lemma {:induction false} LinesYielding(out: map<string, string>, lines: seq<string>, hs: seq<Header>)
    requires |lines| == |hs|
    requires forall i | 0 <= i < |hs| :: Yields(lines[i], hs[i])
    ensures WithLines(out, lines + [""]) == Collected(out, hs)
    decreases hs
  {
    var all := lines + [""];
    if hs == [] {
      assert all == [""];
      assert WithLines(out, all) == WithLines(WithLine(out, ""), all[1..]);
    } else {
      assert all[0] == lines[0] && all[1..] == lines[1..] + [""];
      assert Yields(lines[0], hs[0]);
      assert WithLine(out, all[0]) == out[hs[0].key := hs[0].value];
      LinesYielding(out[hs[0].key := hs[0].value], lines[1..], hs[1..]);
    }
  }

  /** Parsing undoes rendering, whatever way each value byte was written. */
  lemma ParseUndoesRendering(hs: seq<Header>)
    requires forall i | 0 <= i < |hs| :: GoodHeader(hs[i])
    ensures Parsed(Rendered(hs)) == Collected(map[], hs)
  {
    SplitTerminated(HeaderLines(hs));
    forall i | 0 <= i < |hs| ensures Yields(HeaderLines(hs)[i], hs[i]) {
      HeaderYields(hs[i]);
    }
    LinesYielding(map[], HeaderLines(hs), hs);
  }

  lemma HeaderYields(h: Header)
    requires GoodHeader(h)
    ensures Yields(HeaderLine(h), h)
  {
    DecodeUndoesEncoding(h.encoded, h.value);
    forall out: map<string, string> ensures WithLine(out, HeaderLine(h)) == out[h.key := h.value] {
      HeaderLineParses(out, h);
    }
  }

  ghost predicate DistinctKeys(hs: seq<Header>) {
    forall i, j | 0 <= i < j < |hs| :: hs[i].key != hs[j].key
  }

  lemma {:induction false} CollectedMeaning(out: map<string, string>, hs: seq<Header>)
    requires DistinctKeys(hs)
    ensures forall i | 0 <= i < |hs| :: hs[i].key in Collected(out, hs) && Collected(out, hs)[hs[i].key] == hs[i].value
    ensures forall k | (forall i | 0 <= i < |hs| :: hs[i].key != k) ::
              (k in Collected(out, hs) <==> k in out) && (k in out ==> Collected(out, hs)[k] == out[k])
    decreases hs
  {
    if hs != [] {
      var out1 := out[hs[0].key := hs[0].value];
      assert forall i | 0 <= i < |hs[1..]| :: hs[1..][i] == hs[i + 1];
      CollectedMeaning(out1, hs[1..]);
      forall i | 0 <= i < |hs|
        ensures hs[i].key in Collected(out, hs) && Collected(out, hs)[hs[i].key] == hs[i].value
      {
        if i > 0 { assert hs[i] == hs[1..][i - 1]; }
      }
      forall k | (forall i | 0 <= i < |hs| :: hs[i].key != k)
        ensures (k in Collected(out, hs) <==> k in out) && (k in out ==> Collected(out, hs)[k] == out[k])
      {
        assert hs[0].key != k;
        assert forall i | 0 <= i < |hs[1..]| :: hs[1..][i].key != k;
      }
    }
  }

  /** A map listed in any order, each value in any of its renderings, is read back whole:
      no header is lost, none is changed and none is invented. */
  lemma EventRoundTrip(m: map<string, string>, hs: seq<Header>)
    requires forall i | 0 <= i < |hs| :: GoodHeader(hs[i])
    requires DistinctKeys(hs)
    requires forall k :: k in m <==> exists i :: 0 <= i < |hs| && hs[i].key == k
    requires forall i | 0 <= i < |hs| :: m[hs[i].key] == hs[i].value
    ensures Parsed(Rendered(hs)) == m
  {
    ParseUndoesRendering(hs);
    CollectedIsMap(m, hs);
  }

  lemma CollectedIsMap(m: map<string, string>, hs: seq<Header>)
    requires DistinctKeys(hs)
    requires forall k :: k in m <==> exists i :: 0 <= i < |hs| && hs[i].key == k
    requires forall i | 0 <= i < |hs| :: m[hs[i].key] == hs[i].value
    ensures Collected(map[], hs) == m
  {
    CollectedMeaning(map[], hs);
    forall k ensures k in Collected(map[], hs) <==> k in m {
      if k !in m {
        assert forall i | 0 <= i < |hs| :: hs[i].key != k;
      }
    }
  }
}
