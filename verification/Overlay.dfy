/** Name captions drawn over each participant's picture. */
module Overlay {
  import opened Text

  /** strings.ReplaceAll(s, from, new) for a one-byte from. */
  function ReplaceAll(s: string, from: char, into: string): string {
    if s == "" then ""
    else (if s[0] == from then into else [s[0]]) + ReplaceAll(s[1..], from, into)
  }

  /** Three whole-string replacements, one after the other. */
  function Escape(name: string): string {
    ReplaceAll(ReplaceAll(ReplaceAll(name, '&', "&amp;"), '<', "&lt;"), '>', "&gt;")
  }

  /** The Pango markup of a caption: out-of-range opacity is clamped and missing colours have defaults. */
  function Markup(name: string, background: string, alpha: real, foreground: string): string {
    var opacity := if alpha < 0.0 then 0.0 else if alpha > 1.0 then 1.0 else alpha;
    var percent := Decimal((opacity * 100.0).Floor);
    InQuotes(SpanParts(OrElse(background, "#000000"), percent + "%", OrElse(foreground, "#FFFFFF"), Escape(name)))
  }

  function OrElse(s: string, default: string): string {
    if s == "" then default else s
  }

  function SpanParts(bg: string, percent: string, fg: string, text: string): seq<string> {
    ["<span background=", bg, " bgalpha=", percent, " foreground=", fg, ("> " + text) + " </span>"]
  }

  /** The parts with a quotation mark between each two. */
  function InQuotes(parts: seq<string>): string {
    if parts == [] then "" else if |parts| == 1 then parts[0] else parts[0] + "\"" + InQuotes(parts[1..])
  }

  /** The escape of one character on its own. */
  function Entity(c: char): string {
    if c == '&' then "&amp;" else if c == '<' then "&lt;" else if c == '>' then "&gt;" else [c]
  }

  function EscapeEach(name: string): string {
    if name == "" then "" else Entity(name[0]) + EscapeEach(name[1..])
  }

  /** One left-to-right pass that turns the three entities back into characters. */
  function Unescape(s: string): string
    decreases |s|
  {
    if s == "" then ""
    else if |s| >= 5 && s[..5] == "&amp;" then "&" + Unescape(s[5..])
    else if |s| >= 4 && s[..4] == "&lt;" then "<" + Unescape(s[4..])
    else if |s| >= 4 && s[..4] == "&gt;" then ">" + Unescape(s[4..])
    else [s[0]] + Unescape(s[1..])
  }

  lemma {:induction false} ReplaceAllConcat(a: string, b: string, from: char, into: string)
    ensures ReplaceAll(a + b, from, into) == ReplaceAll(a, from, into) + ReplaceAll(b, from, into)
  {
    if a == "" {
      assert a + b == b;
    } else {
      assert (a + b)[1..] == a[1..] + b;
      ReplaceAllConcat(a[1..], b, from, into);
    }
  }

  lemma {:induction false} ReplaceAllAbsent(s: string, from: char, into: string)
    requires from !in s
    ensures ReplaceAll(s, from, into) == s
  {
    if s != "" {
      ReplaceAllAbsent(s[1..], from, into);
      assert [s[0]] + s[1..] == s;
    }
  }

  lemma EscapeConcat(a: string, b: string)
    ensures Escape(a + b) == Escape(a) + Escape(b)
  {
    ReplaceAllConcat(a, b, '&', "&amp;");
    var a1, b1 := ReplaceAll(a, '&', "&amp;"), ReplaceAll(b, '&', "&amp;");
    ReplaceAllConcat(a1, b1, '<', "&lt;");
    ReplaceAllConcat(ReplaceAll(a1, '<', "&lt;"), ReplaceAll(b1, '<', "&lt;"), '>', "&gt;");
  }

  lemma ReplaceOne(c: char, from: char, into: string)
    ensures ReplaceAll([c], from, into) == if c == from then into else [c]
  {
    assert [c][1..] == [];
  }

  lemma EscapeOne(c: char)
    ensures Escape([c]) == Entity(c)
  {
    var after := ReplaceAll([c], '&', "&amp;");
    ReplaceOne(c, '&', "&amp;");
    if c == '&' {
      EntityStays("&amp;");
    } else {
      assert after == [c];
      ReplaceOne(c, '<', "&lt;");
      if c == '<' {
        ReplaceAllAbsent("&lt;", '>', "&gt;");
      } else {
        ReplaceOne(c, '>', "&gt;");
      }
    }
  }

  lemma EntityStays(s: string)
    requires '<' !in s && '>' !in s
    ensures ReplaceAll(ReplaceAll(s, '<', "&lt;"), '>', "&gt;") == s
  {
    ReplaceAllAbsent(s, '<', "&lt;");
    ReplaceAllAbsent(s, '>', "&gt;");
  }

  /** The replacements do not disturb each other: they equal one pass over the characters. */
  lemma {:induction false} EscapeIsPerCharacter(name: string)
    ensures Escape(name) == EscapeEach(name)
  {
    if name != "" {
      assert [name[0]] + name[1..] == name;
      EscapeConcat([name[0]], name[1..]);
      EscapeOne(name[0]);
      EscapeIsPerCharacter(name[1..]);
    }
  }

  lemma {:induction false} EscapeEachIsSafe(name: string)
    ensures '<' !in EscapeEach(name) && '>' !in EscapeEach(name)
    ensures Unescape(EscapeEach(name)) == name
  {
    if name != "" {
      EscapeEachIsSafe(name[1..]);
      UnescapeEntity(name[0], EscapeEach(name[1..]));
      assert [name[0]] + name[1..] == name;
    }
  }

  lemma UnescapeEntity(c: char, tail: string)
    ensures '<' !in Entity(c) && '>' !in Entity(c)
    ensures Unescape(Entity(c) + tail) == [c] + Unescape(tail)
  {
    var s := Entity(c) + tail;
    assert s[..|Entity(c)|] == Entity(c) && s[|Entity(c)|..] == tail;
    if c == '<' || c == '>' {
      assert s[1] != 'a';
      assert |s| >= 5 ==> s[..5][1] == s[1];
    } else if c != '&' {
      assert s[0] == c;
      assert |s| >= 5 ==> s[..5][0] == c;
      assert |s| >= 4 ==> s[..4][0] == c;
    }
  }

  /** No markup can get out of a name, and no two names share an escape. */
  lemma EscapeRoundTrip(name: string)
    ensures '<' !in Escape(name) && '>' !in Escape(name)
    ensures Unescape(Escape(name)) == name
  {
    EscapeIsPerCharacter(name);
    EscapeEachIsSafe(name);
  }

  function Count(s: string, c: char): nat {
    if s == "" then 0 else (if s[0] == c then 1 else 0) + Count(s[1..], c)
  }

  lemma {:induction false} CountConcat(a: string, b: string, c: char)
    ensures Count(a + b, c) == Count(a, c) + Count(b, c)
  {
    if a == "" {
      assert a + b == b;
    } else {
      assert (a + b)[1..] == a[1..] + b;
      CountConcat(a[1..], b, c);
    }
  }

  lemma {:induction false} CountAbsent(s: string, c: char)
    requires c !in s
    ensures Count(s, c) == 0
  {
    if s != "" { CountAbsent(s[1..], c); }
  }

  /** Whatever the name, the markup has the two brackets that open the span and its end, and besides them
      only those that the operator wrote into a colour. */
  lemma MarkupHasOneSpan(name: string, background: string, alpha: real, foreground: string)
    ensures Count(Markup(name, background, alpha, foreground), '<')
         == 2 + Count(background, '<') + Count(foreground, '<')
  {
    var opacity := if alpha < 0.0 then 0.0 else if alpha > 1.0 then 1.0 else alpha;
    var percent := Decimal((opacity * 100.0).Floor);
    CountOrElse(background, "#000000");
    CountOrElse(foreground, "#FFFFFF");
    DigitsAreClean(percent);
    EscapeRoundTrip(name);
    CountParts(OrElse(background, "#000000"), percent + "%", OrElse(foreground, "#FFFFFF"), Escape(name));
  }

  lemma CountParts(bg: string, percent: string, fg: string, text: string)
    requires '<' !in percent && '<' !in text
    ensures Count(InQuotes(SpanParts(bg, percent, fg, text)), '<') == 2 + Count(bg, '<') + Count(fg, '<')
  {
    CountSeven(SpanParts(bg, percent, fg, text), "span background=", ("> " + text) + " ", "/span>");
  }

  lemma CountSeven(parts: seq<string>, first: string, before: string, after: string)
    requires |parts| == 7 && parts[0] == "<" + first && parts[6] == before + "<" + after
    requires '<' !in first && '<' !in before && '<' !in after
    requires '<' !in parts[2] && '<' !in parts[3] && '<' !in parts[4]
    ensures Count(InQuotes(parts), '<') == 2 + Count(parts[1], '<') + Count(parts[5], '<')
  {
    CountTag("", parts[0], first);
    CountTag(before, parts[6], after);
    CountAbsent(parts[2], '<');
    CountAbsent(parts[3], '<');
    CountAbsent(parts[4], '<');
    for n := 6 downto 0
      invariant Count(InQuotes(parts[n..]), '<') == CountAll(parts[n..])
    {
      assert parts[n..] == [parts[n]] + parts[n + 1..];
      CountNext(parts[n], parts[n + 1..]);
    }
    assert parts[0..] == parts;
    SumOfSeven(parts);
  }

  function CountAll(parts: seq<string>): nat {
    if parts == [] then 0 else Count(parts[0], '<') + CountAll(parts[1..])
  }

  lemma SumOfSeven(parts: seq<string>)
    requires |parts| == 7
    ensures CountAll(parts) == Count(parts[0], '<') + Count(parts[1], '<') + Count(parts[2], '<') + Count(parts[3], '<')
                             + Count(parts[4], '<') + Count(parts[5], '<') + Count(parts[6], '<')
  {
    for n := 7 downto 0
      invariant CountAll(parts[n..]) == (if n < 7 then Count(parts[6], '<') else 0)
        + (if n < 6 then Count(parts[5], '<') else 0) + (if n < 5 then Count(parts[4], '<') else 0)
        + (if n < 4 then Count(parts[3], '<') else 0) + (if n < 3 then Count(parts[2], '<') else 0)
        + (if n < 2 then Count(parts[1], '<') else 0) + (if n < 1 then Count(parts[0], '<') else 0)
    {
      assert parts[n..][1..] == parts[n + 1..];
    }
    assert parts[0..] == parts;
  }

  lemma CountNext(a: string, rest: seq<string>)
    requires rest != []
    ensures Count(InQuotes([a] + rest), '<') == Count(a, '<') + Count(InQuotes(rest), '<')
  {
    assert ([a] + rest)[1..] == rest;
    CountConcat(a + "\"", InQuotes(rest), '<');
    CountConcat(a, "\"", '<');
    CountAbsent("\"", '<');
  }

  lemma DigitsAreClean(s: string)
    requires AllDigits(s)
    ensures '<' !in s && '"' !in s
  {
    assert forall i | 0 <= i < |s| :: IsDigit(s[i]);
  }

  lemma CountOrElse(s: string, default: string)
    requires '<' !in default
    ensures Count(OrElse(s, default), '<') == Count(s, '<')
  {
    CountAbsent(default, '<');
  }

  /** A text with one bracket in it. */
  lemma CountTag(before: string, s: string, after: string)
    requires '<' !in before && '<' !in after && s == before + "<" + after
    ensures Count(s, '<') == 1
  {
    CountConcat(before + "<", after, '<');
    CountConcat(before, "<", '<');
    CountAbsent(before, '<');
    CountAbsent(after, '<');
  }

  // ----- what a reader of the markup finds ---------------------------------------------------------------------

  /** What stands between quotation mark n and the next one, or the end. */
  function Field(s: string, n: nat): string {
    var k := IndexByte(s, '"');
    if k < 0 then (if n == 0 then s else "")
    else if n == 0 then s[..k]
    else Field(s[k + 1..], n - 1)
  }

  /** Parts without quotation marks are the fields, in their order. */
  lemma {:induction false} FieldsAreParts(parts: seq<string>, n: nat)
    requires n < |parts| && forall i | 0 <= i < |parts| :: '"' !in parts[i]
    ensures Field(InQuotes(parts), n) == parts[n]
    decreases parts
  {
    var s := InQuotes(parts);
    if |parts| > 1 {
      var rest := InQuotes(parts[1..]);
      IndexByteAt(parts[0], '"', rest);
      assert s == parts[0] + ['"'] + rest && s[..|parts[0]|] == parts[0] && s[|parts[0]| + 1..] == rest;
      if n > 0 { FieldsAreParts(parts[1..], n - 1); }
    }
  }

  /** The percentage of an opacity, from 0 to 100. */
  function Percent(alpha: real): nat {
    if alpha < 0.0 then 0 else if alpha > 1.0 then 100 else (alpha * 100.0).Floor
  }

  /** The attributes of the span are the background, the opacity and the text colour that were asked for, in their
      places, and the escaped name stands between blanks in the span. */
  lemma MarkupSaysWhatItWasGiven(name: string, background: string, alpha: real, foreground: string)
    requires '"' !in background && '"' !in foreground && '"' !in name
    ensures var m := Markup(name, background, alpha, foreground);
            && Field(m, 0) == "<span background=" && Field(m, 1) == OrElse(background, "#000000")
            && Field(m, 2) == " bgalpha=" && Field(m, 3) == Decimal(Percent(alpha)) + "%"
            && Field(m, 4) == " foreground=" && Field(m, 5) == OrElse(foreground, "#FFFFFF")
            && Field(m, 6) == ("> " + Escape(name)) + " </span>"
  {
    var percent := Decimal(Percent(alpha));
    DigitsAreClean(percent);
    EscapeKeepsOut(name);
    var parts := SpanParts(OrElse(background, "#000000"), percent + "%", OrElse(foreground, "#FFFFFF"), Escape(name));
    forall n: nat | n < 7 ensures Field(InQuotes(parts), n) == parts[n] { FieldsAreParts(parts, n); }
  }

  /** The escape puts no quotation mark in. */
  lemma EscapeKeepsOut(name: string)
    requires '"' !in name
    ensures '"' !in Escape(name)
  {
    EscapeIsPerCharacter(name);
    EachKeepsOut(name);
  }

  lemma {:induction false} EachKeepsOut(name: string)
    requires '"' !in name
    ensures '"' !in EscapeEach(name)
  {
    if name != "" {
      EachKeepsOut(name[1..]);
      assert name[0] in name;
    }
  }
}
