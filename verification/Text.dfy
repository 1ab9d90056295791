/** The parts of Go's string library that the conference servers rely on.
    A Go string is a sequence of bytes; here every char stands for one byte. */
module Text {

  datatype Option<+T> = None | Some(value: T)

  predicate HasPrefix(s: string, prefix: string) {
    |prefix| <= |s| && s[..|prefix|] == prefix
  }

  /** Position of the first c in s, or -1: strings.IndexByte. */
  function IndexByte(s: string, c: char): (i: int)
    ensures -1 <= i < |s|
    ensures i >= 0 ==> s[i] == c && c !in s[..i]
    ensures i < 0 ==> c !in s
  {
    if s == "" then -1
    else if s[0] == c then 0
    else
      var rest := IndexByte(s[1..], c);
      if rest < 0 then -1 else rest + 1
  }

  lemma {:induction false} IndexByteAt(s: string, c: char, t: string)
    requires c !in s
    ensures IndexByte(s + [c] + t, c) == |s|
  {
    if s == "" {
      assert (s + [c] + t)[0] == c;
    } else {
      assert (s + [c] + t)[1..] == s[1..] + [c] + t;
      assert s[0] in s;
      IndexByteAt(s[1..], c, t);
    }
  }

  // ----- white space ------------------------------------------------------

  /** Blanks, tabs and line ends: the white space of one byte. */
  predicate IsBlank(c: char) {
    c == ' ' || '\t' <= c <= '\r'
  }

  /** The UTF-8 encodings of two and of three bytes of the runes for which unicode.IsSpace holds. */
  predicate IsSpace2(a: char, b: char) {
    a == '\U{C2}' && (b == '\U{85}' || b == '\U{A0}')
  }

  predicate IsSpace3(a: char, b: char, c: char) {
    || (a == '\U{E1}' && b == '\U{9A}' && c == '\U{80}')
    || (a == '\U{E2}' && b == '\U{80}' &&
        ('\U{80}' <= c <= '\U{8A}' || c == '\U{A8}' || c == '\U{A9}' || c == '\U{AF}'))
    || (a == '\U{E2}' && b == '\U{81}' && c == '\U{9F}')
    || (a == '\U{E3}' && b == '\U{80}' && c == '\U{80}')
  }

  predicate IsSpaceRune(r: string) {
    || (|r| == 1 && IsBlank(r[0]))
    || (|r| == 2 && IsSpace2(r[0], r[1]))
    || (|r| == 3 && IsSpace3(r[0], r[1], r[2]))
  }

  /** UTF-8 of a code point below 0x10000 (section 3 of RFC 3629). */
  function Utf8(c: nat): string
    requires c < 0x1_0000
  {
    if c < 0x80 then [c as char]
    else if c < 0x800 then [(0xC0 + c / 0x40) as char, (0x80 + c % 0x40) as char]
    else [(0xE0 + c / 0x1000) as char, (0x80 + c / 0x40 % 0x40) as char, (0x80 + c % 0x40) as char]
  }

  /** They are the code points with the property White_Space of the Unicode standard. */
  lemma SpaceRunesAreUnicode(c: nat)
    requires c < 0x1_0000
    ensures IsSpaceRune(Utf8(c)) <==>
            || 0x09 <= c <= 0x0D || c == 0x20 || c == 0x85 || c == 0xA0 || c == 0x1680
            || 0x2000 <= c <= 0x200A || c == 0x2028 || c == 0x2029 || c == 0x202F || c == 0x205F || c == 0x3000
  {}

  /** A byte below 0x80 that is not white space never belongs to a space rune. */
  predicate IsInk(c: char) {
    c < '\U{80}' && c != ' ' && !('\t' <= c <= '\r')
  }

  /** Width of the white-space rune at the front of s; 0 when there is none. */
  function LeadSpace(s: string): (n: nat)
    ensures n <= |s|
  {
    if |s| >= 1 && IsBlank(s[0]) then 1
    else if |s| >= 2 && IsSpace2(s[0], s[1]) then 2
    else if |s| >= 3 && IsSpace3(s[0], s[1], s[2]) then 3
    else 0
  }

  /** Width of the white-space rune at the end of s; 0 when there is none. */
  function TailSpace(s: string): (n: nat)
    ensures n <= |s|
  {
    var e := |s|;
    if e >= 1 && IsBlank(s[e - 1]) then 1
    else if e >= 2 && IsSpace2(s[e - 2], s[e - 1]) then 2
    else if e >= 3 && IsSpace3(s[e - 3], s[e - 2], s[e - 1]) then 3
    else 0
  }

  lemma EdgesAreSpace(s: string)
    ensures LeadSpace(s) > 0 ==> IsSpaceRune(s[..LeadSpace(s)])
    ensures TailSpace(s) > 0 ==> IsSpaceRune(s[|s| - TailSpace(s)..])
  {}

  function TrimLeft(s: string): (r: string)
    ensures LeadSpace(r) == 0
    decreases |s|
  {
    if LeadSpace(s) == 0 then s else TrimLeft(s[LeadSpace(s)..])
  }

  function TrimRight(s: string): (r: string)
    ensures TailSpace(r) == 0
    decreases |s|
  {
    if TailSpace(s) == 0 then s else TrimRight(s[..|s| - TailSpace(s)])
  }

  function TrimSpace(s: string): string {
    TrimRight(TrimLeft(s))
  }

  lemma InkEnds(s: string)
    requires s != "" && IsInk(s[|s| - 1])
    ensures TailSpace(s) == 0
  {}

  lemma InkLeads(s: string)
    requires s != "" && IsInk(s[0])
    ensures LeadSpace(s) == 0 && TailSpace(s) < |s|
  {}

  lemma InkStarts(s: string)
    requires s != "" && IsInk(s[0])
    ensures LeadSpace(s) == 0
    ensures TrimSpace(s) != "" && TrimSpace(s)[0] == s[0]
  {
    TrimRightKeepsInk(s);
  }

  lemma {:induction false} TrimRightKeepsInk(s: string)
    requires s != "" && IsInk(s[0])
    ensures TrimRight(s) != "" && TrimRight(s)[0] == s[0]
    decreases |s|
  {
    var n := TailSpace(s);
    if n > 0 {
      InkLeads(s);
      TrimRightKeepsInk(s[..|s| - n]);
    }
  }

  lemma TrimTrailingBlank(s: string)
    requires s != "" && IsInk(s[0]) && IsInk(s[|s| - 1])
    ensures TrimSpace(s + " ") == s
  {
    var t := s + " ";
    InkStarts(t);
    assert TailSpace(t) == 1;
    assert t[..|t| - 1] == s;
    InkEnds(s);
    assert TrimRight(t) == TrimRight(s) == s;
  }

  /** A blank in front of a text makes no difference to the trimmed text. */
  lemma TrimLeading(c: char, s: string)
    requires IsBlank(c)
    ensures TrimSpace([c] + s) == TrimSpace(s)
  {
    assert ([c] + s)[1..] == s;
  }

  /** Neither does one behind it. */
  lemma {:induction false} TrimTrailing(s: string, c: char)
    requires IsBlank(c)
    ensures TrimSpace(s + [c]) == TrimSpace(s)
    decreases |s|
  {
    var n := LeadSpace(s);
    if s == "" {
      assert TrimLeft([c]) == TrimLeft([c][1..]);
      assert s + [c] == [c];
    } else if n > 0 {
      assert LeadSpace(s + [c]) == n;
      assert (s + [c])[n..] == s[n..] + [c];
      TrimTrailing(s[n..], c);
    } else {
      LeadStays(s, c);
      assert TailSpace(s + [c]) == 1;
      assert (s + [c])[..|s|] == s;
    }
  }

  lemma LeadStays(s: string, c: char)
    requires s != "" && LeadSpace(s) == 0 && IsBlank(c)
    ensures LeadSpace(s + [c]) == 0
  {}

  /** The first element of strings.Fields(s), or "" when there is none. */
  function FirstField(s: string): string {
    UntilSpace(TrimLeft(s))
  }

  function UntilSpace(s: string): string {
    if s == "" || LeadSpace(s) > 0 then "" else [s[0]] + UntilSpace(s[1..])
  }

  lemma {:induction false} UntilSpaceStops(word: string, rest: string)
    requires forall i | 0 <= i < |word| :: IsInk(word[i])
    requires rest == "" || rest[0] == ' '
    ensures UntilSpace(word + rest) == word
  {
    if word == "" {
      assert word + rest == rest;
      if rest != "" { assert rest[..1] == " "; }
    } else {
      var s := word + rest;
      InkLeads(s);
      assert s[0] == word[0] && s[1..] == word[1..] + rest;
      UntilSpaceStops(word[1..], rest);
      assert [word[0]] + word[1..] == word;
    }
  }

  // ----- splitting into lines -----------------------------------------------

  /** strings.Split(s, "\n"). */
  function SplitLines(s: string): (lines: seq<string>)
    ensures |lines| >= 1
    ensures forall i | 0 <= i < |lines| :: '\n' !in lines[i]
  {
    if s == "" then [""]
    else if s[0] == '\n' then [""] + SplitLines(s[1..])
    else
      var rest := SplitLines(s[1..]);
      [[s[0]] + rest[0]] + rest[1..]
  }

  /** Every line followed by a line feed. */
  function Terminated(lines: seq<string>): string {
    if lines == [] then "" else lines[0] + "\n" + Terminated(lines[1..])
  }

  lemma {:induction false} SplitFirstLine(line: string, rest: string)
    requires '\n' !in line
    ensures SplitLines(line + "\n" + rest) == [line] + SplitLines(rest)
  {
    var s := line + "\n" + rest;
    if line == "" {
      assert s[0] == '\n' && s[1..] == rest;
    } else {
      assert s[0] == line[0] && s[1..] == line[1..] + "\n" + rest;
      assert s[0] in line;
      SplitFirstLine(line[1..], rest);
      assert [line[0]] + line[1..] == line;
      assert [[line[0]] + line[1..]] + SplitLines(rest) == [line] + SplitLines(rest);
    }
  }

  lemma {:induction false} SplitTerminated(lines: seq<string>)
    requires forall i | 0 <= i < |lines| :: '\n' !in lines[i]
    ensures SplitLines(Terminated(lines)) == lines + [""]
  {
    if lines == [] {
      assert lines + [""] == [""];
    } else {
      SplitFirstLine(lines[0], Terminated(lines[1..]));
      assert forall i | 0 <= i < |lines[1..]| :: lines[1..][i] == lines[i + 1];
      SplitTerminated(lines[1..]);
      assert [lines[0]] + (lines[1..] + [""]) == lines + [""];
    }
  }

  /** Every line feed replaced by carriage return and line feed. */
  function WithCRLF(s: string): string {
    if s == "" then ""
    else if s[0] == '\n' then "\r\n" + WithCRLF(s[1..])
    else [s[0]] + WithCRLF(s[1..])
  }

  /** Every line of b but the last is that of a with a carriage return. */
  ghost predicate GainCR(a: seq<string>, b: seq<string>) {
    |a| == |b| && forall i | 0 <= i < |a| :: b[i] == a[i] + if i == |a| - 1 then "" else "\r"
  }

  /** With CRLF every line but the last gains one carriage return. */
  lemma {:induction false} SplitCRLF(s: string)
    ensures GainCR(SplitLines(s), SplitLines(WithCRLF(s)))
  {
    if s != "" {
      SplitCRLF(s[1..]);
      var a, b := SplitLines(s[1..]), SplitLines(WithCRLF(s[1..]));
      if s[0] == '\n' {
        SplitLineFeed(s);
        GainAfterLine(a, b);
      } else {
        assert WithCRLF(s)[1..] == WithCRLF(s[1..]);
        GainAfterChar(s[0], a, b);
      }
    }
  }

  lemma GainAfterLine(a: seq<string>, b: seq<string>)
    requires GainCR(a, b) && a != []
    ensures GainCR([""] + a, ["\r"] + b)
  {}

  lemma GainAfterChar(c: char, a: seq<string>, b: seq<string>)
    requires GainCR(a, b) && a != []
    ensures GainCR([[c] + a[0]] + a[1..], [[c] + b[0]] + b[1..])
  {
    var tail := if |a| == 1 then "" else "\r";
    assert [c] + (a[0] + tail) == [c] + a[0] + tail;
  }

  lemma SplitLineFeed(s: string)
    requires s != "" && s[0] == '\n'
    ensures SplitLines(s) == [""] + SplitLines(s[1..])
    ensures SplitLines(WithCRLF(s)) == ["\r"] + SplitLines(WithCRLF(s[1..]))
  {
    assert WithCRLF(s) == "\r" + "\n" + WithCRLF(s[1..]);
    SplitFirstLine("\r", WithCRLF(s[1..]));
  }

  // ----- decimal numbers ----------------------------------------------------

  predicate IsDigit(c: char) { '0' <= c <= '9' }

  predicate AllDigits(s: string) {
    forall i | 0 <= i < |s| :: IsDigit(s[i])
  }

  /** The number a digit string denotes. */
  function Value(s: string): nat
    requires AllDigits(s)
  {
    if s == "" then 0
    else Value(s[..|s| - 1]) * 10 + (s[|s| - 1] as int - '0' as int)
  }

  /** %d of a number that is not negative. */
  function Decimal(n: nat): (s: string)
    ensures s != "" && AllDigits(s)
  {
    (if n < 10 then "" else Decimal(n / 10)) + [('0' as int + n % 10) as char]
  }

  /** No leading zeros. */
  lemma {:induction false} DecimalIsShort(n: nat)
    ensures n == 0 ==> Decimal(n) == "0"
    ensures n > 0 ==> Decimal(n)[0] != '0'
  {
    if n >= 10 {
      DecimalIsShort(n / 10);
      assert Decimal(n)[0] == Decimal(n / 10)[0];
    }
  }

  lemma {:induction false} ValueOfDecimal(n: nat)
    ensures Value(Decimal(n)) == n
  {
    var s := Decimal(n);
    assert s[..|s| - 1] == if n < 10 then "" else Decimal(n / 10);
    if n >= 10 { ValueOfDecimal(n / 10); }
  }

  const INT64_MAX := 0x7FFF_FFFF_FFFF_FFFF
  const INT64_MIN := -0x8000_0000_0000_0000

  predicate IsSign(c: char) { c == '+' || c == '-' }

  /** strconv.Atoi: an optional sign, then one or more decimal digits within 64 bits. */
  function Atoi(s: string): Option<int> {
    var body := if s != "" && IsSign(s[0]) then s[1..] else s;
    if body == "" || !AllDigits(body) then None
    else
      var n := if s[0] == '-' then 0 - Value(body) else Value(body);
      if INT64_MIN <= n <= INT64_MAX then Some(n) else None
  }

  lemma AtoiOfDecimal(n: nat)
    requires n <= INT64_MAX
    ensures Atoi(Decimal(n)) == Some(n)
  {
    ValueOfDecimal(n);
    assert IsDigit(Decimal(n)[0]);
  }

  /** A number may have a sign and has to fit in 64 bits. */
  lemma AtoiReadsSigns(n: int)
    requires n >= 0
    ensures Atoi("+" + Decimal(n)) == if n <= INT64_MAX then Some(n) else None
    ensures Atoi("-" + Decimal(n)) == if -n >= INT64_MIN then Some(-n) else None
  {
    AtoiAfterSign('+', Decimal(n));
    AtoiAfterSign('-', Decimal(n));
    ValueOfDecimal(n);
    assert "+" == ['+'] && "-" == ['-'];
  }

  lemma AtoiAfterSign(sign: char, digits: string)
    requires IsSign(sign) && digits != "" && AllDigits(digits)
    ensures var n: int := if sign == '-' then 0 - Value(digits) else Value(digits);
            Atoi([sign] + digits) == if INT64_MIN <= n <= INT64_MAX then Some(n) else None
  {
    assert ([sign] + digits)[1..] == digits;
  }

  /** Nothing at all is no number, and neither is what holds anything but digits, or is out of range. */
  lemma AtoiRejects(s: string)
    requires s == "" || (!IsSign(s[0]) && (!AllDigits(s) || Value(s) > INT64_MAX))
    ensures Atoi(s) == None
  {}

  function LeadingDigits(s: string): (d: string)
    ensures AllDigits(d)
  {
    if s == "" || !IsDigit(s[0]) then "" else [s[0]] + LeadingDigits(s[1..])
  }

  /** What fmt.Sscanf(s, "%d", &n) leaves in n, which starts at 0, when s starts with no white space:
      a number that is missing or does not fit in 64 bits leaves n alone. */
  function ScanInt(s: string): int {
    var body := if s != "" && IsSign(s[0]) then s[1..] else s;
    var digits := LeadingDigits(body);
    if digits == "" then 0
    else
      var n := if s[0] == '-' then 0 - Value(digits) else Value(digits);
      if INT64_MIN <= n <= INT64_MAX then n else 0
  }

  lemma {:induction false} LeadingDigitsStop(digits: string, rest: string)
    requires AllDigits(digits) && (rest == "" || !IsDigit(rest[0]))
    ensures LeadingDigits(digits + rest) == digits
  {
    if digits == "" {
      assert digits + rest == rest;
    } else {
      assert (digits + rest)[1..] == digits[1..] + rest;
      LeadingDigitsStop(digits[1..], rest);
      assert [digits[0]] + digits[1..] == digits;
    }
  }

  /** The number is read up to whatever is no digit. */
  lemma ScanIntStops(n: nat, rest: string)
    requires n <= INT64_MAX && (rest == "" || !IsDigit(rest[0]))
    ensures ScanInt(Decimal(n) + rest) == n
  {
    ValueOfDecimal(n);
    assert IsDigit((Decimal(n) + rest)[0]);
    LeadingDigitsStop(Decimal(n), rest);
  }

  lemma ScanIntOfDecimal(n: nat)
    requires n <= INT64_MAX
    ensures ScanInt(Decimal(n)) == n
  {
    ScanIntStops(n, "");
    assert Decimal(n) + "" == Decimal(n);
  }
}
