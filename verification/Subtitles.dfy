/** The SRT and WebVTT printers: time stamps, cue blocks, and reading them back. */
module Subtitles {
  import opened Words
  import ParseText
  import opened Hallucinations

  // ----- time stamps

  /** Python's // and % on a float and a positive whole number. */
  function FloorDiv(t: real, m: nat): int
    requires m > 0
  {
    (t / (m as real)).Floor
  }

  function Mod(t: real, m: nat): real
    requires m > 0
  {
    t - (m * FloorDiv(t, m)) as real
  }

  datatype Fields = Fields(hours: int, minutes: int, secs: int, millis: int)

  function FieldsOf(t: real): Fields {
    Fields(FloorDiv(t, 3600), FloorDiv(Mod(t, 3600), 60), Mod(t, 60).Floor, (Mod(t, 1) * 1000.0).Floor)
  }

  function Millis(f: Fields): int { ((f.hours * 60 + f.minutes) * 60 + f.secs) * 1000 + f.millis }

  /** The fields of any time are in range, and together they are the whole milliseconds of it. */
  lemma FieldsRecompose(t: real)
    ensures var f := FieldsOf(t);
      && 0 <= f.minutes < 60 && 0 <= f.secs < 60 && 0 <= f.millis < 1000
      && (f.hours >= 0 <==> t >= 0.0)
      && Millis(f) == (1000.0 * t).Floor
  {
    var f, whole := FieldsOf(t), t.Floor;
    HourOf(t);
    MinuteOf(t);
    SecondOf(t);
    assert FloorDiv(t, 1) == whole;
    var part := t - whole as real;
    assert f.millis == (part * 1000.0).Floor;
    assert 1000.0 * t == (1000 * whole) as real + part * 1000.0;
    assert whole == (f.hours * 60 + f.minutes) * 60 + f.secs by { ClockOf(whole, f.hours, f.minutes, f.secs); }
  }

  lemma HourOf(t: real)
    ensures FieldsOf(t).hours == t.Floor / 3600
  {
    FloorDivOf(t, 3600);
  }

  /** Dividing a time is dividing its whole seconds. */
  lemma FloorDivOf(t: real, m: nat)
    requires m > 0
    ensures FloorDiv(t, m) == t.Floor / m
    ensures Mod(t, m).Floor == t.Floor % m
  {
    var q, whole, r := t.Floor / m, t.Floor, m as real;
    assert whole == m * q + whole % m;
    ProductOf(m, q);
    QuotientFloor(t, r, q);
    assert Mod(t, m) == t - (m * q) as real;
  }

  lemma ProductOf(m: nat, q: int)
    ensures (m * q) as real == q as real * m as real
  {
  }

  lemma QuotientTimes(t: real, r: real)
    requires r > 0.0
    ensures t / r * r == t
  {
  }

  lemma OneMoreTimes(q: real, r: real)
    ensures (q + 1.0) * r == q * r + r
  {
  }

  lemma QuotientFloor(t: real, r: real, q: int)
    requires r > 0.0 && q as real * r <= t < q as real * r + r
    ensures (t / r).Floor == q
  {
    var x, y := t / r, q as real;
    QuotientTimes(t, r);
    OneMoreTimes(y, r);
    if x < y { Scaled(x, y, r); } else if x >= y + 1.0 { Scaled(y + 1.0, x, r); }
  }

  lemma Scaled(x: real, y: real, r: real)
    requires x <= y && r > 0.0
    ensures x * r <= y * r && (x < y ==> x * r < y * r)
  {
  }

  lemma MinuteOf(t: real)
    ensures FieldsOf(t).minutes == t.Floor % 3600 / 60
  {
    FloorDivOf(t, 3600);
    FloorDivOf(Mod(t, 3600), 60);
  }

  lemma SecondOf(t: real)
    ensures FieldsOf(t).secs == t.Floor % 60
  {
    FloorDivOf(t, 60);
  }

  lemma ClockOf(whole: int, hours: int, minutes: int, secs: int)
    requires hours == whole / 3600 && minutes == whole % 3600 / 60 && secs == whole % 60
    ensures whole == (hours * 60 + minutes) * 60 + secs
  {
  }

  // ----- decimal numbers

  function Digit(d: nat): char
    requires d < 10
  {
    ('0' as int + d) as char
  }

  predicate AllDigits(s: string) { forall i :: 0 <= i < |s| ==> '0' <= s[i] <= '9' }

  function Digits(n: nat): (s: string)
    ensures s != "" && AllDigits(s)
  {
    if n < 10 then [Digit(n)] else Digits(n / 10) + [Digit(n % 10)]
  }

  /** {n:0wd}: zeros in front up to the width, after the sign. */
  function PadNat(n: nat, width: nat): (s: string)
    ensures s != "" && AllDigits(s)
  {
    var s := Digits(n);
    if |s| < width then seq(width - |s|, _ => '0') + s else s
  }

  function Pad(n: int, width: nat): string
    requires width > 0
  {
    if n < 0 then "-" + PadNat(-n, width - 1) else PadNat(n, width)
  }

  function Value(s: string): nat
    requires AllDigits(s)
  {
    if s == "" then 0 else 10 * Value(s[..|s| - 1]) + (s[|s| - 1] as int - '0' as int)
  }

  function ParseNat(s: string): Option<nat> {
    if s != "" && AllDigits(s) then Some(Value(s)) else None
  }

  lemma {:induction false} DigitsBack(n: nat)
    ensures Value(Digits(n)) == n
  {
    if n < 10 {
      assert Digits(n)[..0] == "";
    } else {
      DigitsBack(n / 10);
      assert Digits(n)[..|Digits(n)| - 1] == Digits(n / 10);
    }
  }

  lemma {:induction false} ZerosFirst(k: nat, s: string)
    requires AllDigits(s)
    ensures Value(seq(k, _ => '0') + s) == Value(s)
    decreases |s| + k
  {
    var z := seq(k, _ => '0');
    if s != "" {
      assert (z + s)[..|z + s| - 1] == z + s[..|s| - 1];
      ZerosFirst(k, s[..|s| - 1]);
    } else if k > 0 {
      assert (z + s)[..k - 1] == seq(k - 1, _ => '0') + s;
      ZerosFirst(k - 1, s);
    }
  }

  lemma PadBack(n: nat, width: nat)
    ensures ParseNat(PadNat(n, width)) == Some(n)
  {
    DigitsBack(n);
    var s := Digits(n);
    if |s| < width { ZerosFirst(width - |s|, s); }
  }

  // ----- joining and splitting

  function Split(s: string, c: char): (parts: seq<string>)
    ensures parts != []
  {
    if s == "" then [""]
    else
      var rest := Split(s[1..], c);
      if s[0] == c then [""] + rest else [[s[0]] + rest[0]] + rest[1..]
  }

  lemma {:induction false} SplitWhole(s: string, c: char)
    requires c !in s
    ensures Split(s, c) == [s]
  {
    if s != "" {
      SplitWhole(s[1..], c);
      assert s == [s[0]] + s[1..];
    }
  }

  lemma {:induction false} SplitLater(a: string, s: string, c: char)
    ensures Split(a + [c] + s, c) == Split(a, c) + Split(s, c)
  {
    hide Split;
    var t := a + [c] + s;
    SplitFirst(t, c);
    if a == "" {
      SplitNothing(c);
      assert t[1..] == s;
    } else {
      SplitFirst(a, c);
      SplitLater(a[1..], s, c);
      assert t[1..] == a[1..] + [c] + s;
    }
  }

  lemma SplitNothing(c: char)
    ensures Split("", c) == [""]
  {
  }

  lemma SplitFirst(s: string, c: char)
    requires s != ""
    ensures var rest := Split(s[1..], c);
      Split(s, c) == if s[0] == c then [""] + rest else [[s[0]] + rest[0]] + rest[1..]
  {
  }

  /** Joining the parts of a split gives the text back. */
  lemma {:induction false} JoinSplit(s: string, c: char)
    ensures Join(Split(s, c), c) == s
  {
    if s != "" {
      JoinSplit(s[1..], c);
      var rest := Split(s[1..], c);
      if s[0] == c {
        assert ([""] + rest)[1..] == rest;
      } else {
        JoinFirst(s[0], rest[0], rest[1..], c);
        assert [rest[0]] + rest[1..] == rest;
      }
      assert s == [s[0]] + s[1..];
    }
  }

  lemma JoinFirst(x: char, first: string, rest: seq<string>, c: char)
    ensures Join([[x] + first] + rest, c) == [x] + Join([first] + rest, c)
  {
    assert ([[x] + first] + rest)[1..] == rest == ([first] + rest)[1..];
  }

  /** Fewer parts make a shorter text, but for nothing in place of one empty part. */
  lemma {:induction false} JoinShorter(parts: seq<string>, n: nat, c: char)
    requires n < |parts|
    ensures |Join(parts[..n], c)| < |Join(parts, c)| || (n == 0 && parts == [""])
    decreases n
  {
    if n > 0 {
      JoinShorter(parts[1..], n - 1, c);
      assert parts[1..][..n - 1] == parts[..n][1..];
    } else if |parts| > 1 {
      assert |Join(parts, c)| >= 1;
    }
  }

  /** The lines of lines. */
  function Flat(parts: seq<string>, c: char): seq<string> {
    if parts == [] then [] else Split(parts[0], c) + Flat(parts[1..], c)
  }

  lemma {:induction false} SplitJoin(parts: seq<string>, c: char)
    requires parts != []
    ensures Split(Join(parts, c), c) == Flat(parts, c)
  {
    if |parts| == 1 {
      assert Flat(parts[1..], c) == [];
    } else {
      SplitLater(parts[0], Join(parts[1..], c), c);
      SplitJoin(parts[1..], c);
    }
  }

  lemma {:induction false} FlatConcat(a: seq<string>, b: seq<string>, c: char)
    ensures Flat(a + b, c) == Flat(a, c) + Flat(b, c)
  {
    hide Flat, Split;
    FlatNothing(c);
    if a == [] {
      assert a + b == b;
    } else {
      FlatConcat(a[1..], b, c);
      assert (a + b)[1..] == a[1..] + b;
      FirstLines(a + b, c);
      FirstLines(a, c);
    }
  }

  lemma FlatNothing(c: char)
    ensures Flat([], c) == []
  {
  }

  lemma FirstLines(parts: seq<string>, c: char)
    requires parts != []
    ensures Flat(parts, c) == Split(parts[0], c) + Flat(parts[1..], c)
  {
    hide Split;
  }

  // ----- characters that are not there

  predicate Without(lines: seq<string>, x: char) { forall i :: 0 <= i < |lines| ==> x !in lines[i] }

  lemma WithoutConcat(a: seq<string>, b: seq<string>, x: char)
    ensures Without(a + b, x) <==> Without(a, x) && Without(b, x)
  {
    if Without(a + b, x) {
      forall i | 0 <= i < |a|
        ensures x !in a[i]
      {
        assert a[i] == (a + b)[i];
      }
      forall i | 0 <= i < |b|
        ensures x !in b[i]
      {
        assert b[i] == (a + b)[|a| + i];
      }
    }
  }

  lemma {:induction false} JoinWithout(parts: seq<string>, c: char, x: char)
    requires x != c
    ensures x !in Join(parts, c) <==> Without(parts, x)
  {
    if |parts| > 1 {
      JoinWithout(parts[1..], c, x);
      WithoutConcat([parts[0]], parts[1..], x);
      assert parts == [parts[0]] + parts[1..];
    }
  }

  lemma {:induction false} SplitWithout(s: string, c: char, x: char)
    requires x !in s
    ensures Without(Split(s, c), x)
  {
    if s != "" { SplitWithout(s[1..], c, x); }
  }

  // ----- cues

  datatype Style = Srt | Vtt
  datatype Cue = Cue(start: nat, end: nat, text: string)

  function Sep(style: Style): char { if style == Srt then ',' else '.' }

  function FormatTimestamp(style: Style, t: real): string {
    var f := FieldsOf(t);
    Pad(f.hours, 2) + ":" + Pad(f.minutes, 2) + ":" + Pad(f.secs, 2) + [Sep(style)] + Pad(f.millis, 3)
  }

  /** The text line of a cue. */
  function Caption(seg: Spoken): string {
    var prefix := if seg.speaker.Some? && seg.speaker.value != "" then "[" + seg.speaker.value + "] " else "";
    prefix + ParseText.Strip(seg.text)
  }

  function Block(style: Style, number: nat, seg: Spoken): seq<string> {
    (if style == Srt then [Digits(number)] else [])
    + [FormatTimestamp(style, seg.start) + " --> " + FormatTimestamp(style, seg.end), Caption(seg), ""]
  }

  function Header(style: Style): seq<string> { if style == Srt then [] else ["WEBVTT", ""] }

  function Blocks(style: Style, segs: seq<Spoken>, first: nat): seq<string> {
    if segs == [] then [] else Block(style, first, segs[0]) + Blocks(style, segs[1..], first + 1)
  }

  /** The printed lines, cue after cue, joined by newlines. */
  method Render(style: Style, segs: seq<Spoken>) returns (content: string)
    ensures content == Printed(style, segs)
  {
    hide Header, Block, Blocks, Join;
    var lines := Header(style);
    NoBlocks(style, 1);
    for idx := 0 to |segs|
      invariant lines == Header(style) + Blocks(style, segs[..idx], 1)
    {
      NextBlock(style, segs, idx, 1);
      lines := lines + Block(style, idx + 1, segs[idx]);
    }
    assert segs[..|segs|] == segs;
    content := Join(lines, '\n');
  }

  lemma NoBlocks(style: Style, first: nat)
    ensures Blocks(style, [], first) == []
  {
  }

  lemma {:induction false} NextBlock(style: Style, segs: seq<Spoken>, i: nat, first: nat)
    requires i < |segs|
    ensures Blocks(style, segs[..i + 1], first) == Blocks(style, segs[..i], first) + Block(style, first + i, segs[i])
  {
    hide Block;
    if i == 0 {
      assert segs[..1][1..] == [];
      assert segs[..0] == [];
    } else {
      NextBlock(style, segs[1..], i - 1, first + 1);
      assert segs[..i + 1][1..] == segs[1..][..i] && segs[..i][1..] == segs[1..][..i - 1];
    }
  }

  // ----- reading back

  function ParseStamp(style: Style, s: string): Option<nat> {
    var p := Split(s, ':');
    if |p| != 3 then None
    else
      var q := Split(p[2], Sep(style));
      if |q| != 2 then None
      else
        var h, m, x, ms := ParseNat(p[0]), ParseNat(p[1]), ParseNat(q[0]), ParseNat(q[1]);
        if h.None? || m.None? || x.None? || ms.None? then None
        else Some(Millis(Fields(h.value, m.value, x.value, ms.value)))
  }

  function ParseTimes(style: Style, line: string): Option<(nat, nat)> {
    var p := Split(line, ' ');
    if |p| != 3 || p[1] != "-->" then None
    else
      var a, b := ParseStamp(style, p[0]), ParseStamp(style, p[2]);
      if a.None? || b.None? then None else Some((a.value, b.value))
  }

  /** Carriage returns end lines too, alone or before a newline (W3C WebVTT, section 6.1, file parsing; and every
      reader that opens the file as text). */
  function Normalised(s: string): string {
    if s == "" then ""
    else if s[0] != '\r' then [s[0]] + Normalised(s[1..])
    else if |s| > 1 && s[1] == '\n' then Normalised(s[1..])
    else "\n" + Normalised(s[1..])
  }

  lemma {:induction false} NormalisedText(s: string)
    ensures '\r' !in Normalised(s)
    ensures '\r' !in s ==> Normalised(s) == s
  {
    if s != "" { NormalisedText(s[1..]); }
  }

  predicate HoldsArrow(line: string) { |line| >= 3 && (line[..3] == "-->" || HoldsArrow(line[1..])) }

  /** A cue's text goes on up to an empty line; in WebVTT also up to a line that holds the arrow, which is taken for
      the next cue's times. */
  predicate GoesOn(style: Style, line: string) { line != "" && (style == Srt || !HoldsArrow(line)) }

  function TextLines(style: Style, lines: seq<string>): (n: nat)
    ensures n <= |lines|
    ensures forall i :: 0 <= i < n ==> GoesOn(style, lines[i])
    ensures n < |lines| ==> !GoesOn(style, lines[n])
  {
    if lines == [] || !GoesOn(style, lines[0]) then 0 else 1 + TextLines(style, lines[1..])
  }

  function SkipEmpty(lines: seq<string>): (r: seq<string>)
    ensures |r| <= |lines|
  {
    if lines != [] && lines[0] == "" then SkipEmpty(lines[1..]) else lines
  }

  /** Where the times stand in a cue: in SRT after its number. */
  function TimesAt(style: Style): nat { if style == Srt then 1 else 0 }

  /** Cues one after the other: in SRT a number, then the times, the lines of the text, and empty lines. */
  function ParseCues(style: Style, lines: seq<string>): Option<seq<Cue>>
    decreases |lines|
  {
    var k := TimesAt(style);
    if lines == [] then Some([])
    else if |lines| <= k || (style == Srt && ParseNat(lines[0]).None?) || ParseTimes(style, lines[k]).None? then None
    else
      var times, after := ParseTimes(style, lines[k]).value, lines[k + 1..];
      var n := TextLines(style, after);
      var rest := ParseCues(style, SkipEmpty(after[n..]));
      if rest.None? then None else Some([Cue(times.0, times.1, Join(after[..n], '\n'))] + rest.value)
  }

  function ParseSubtitles(style: Style, content: string): Option<seq<Cue>> {
    var lines := Split(Normalised(content), '\n');
    if style == Srt then ParseCues(style, SkipEmpty(lines))
    else if lines[0] != "WEBVTT" then None
    else ParseCues(style, SkipEmpty(lines[1..]))
  }

  /** The cue that a segment stands for, in whole milliseconds. */
  function CueOf(seg: Spoken): Cue
    requires seg.start >= 0.0 && seg.end >= 0.0
  {
    FieldsRecompose(seg.start);
    FieldsRecompose(seg.end);
    Cue((1000.0 * seg.start).Floor, (1000.0 * seg.end).Floor, Caption(seg))
  }

  predicate Timed(segs: seq<Spoken>) { forall seg :: seg in segs ==> seg.start >= 0.0 && seg.end >= 0.0 }

  function CuesOf(segs: seq<Spoken>): seq<Cue>
    requires Timed(segs)
  {
    seq(|segs|, i requires 0 <= i < |segs| => CueOf(segs[i]))
  }

  lemma DigitsOnly(s: string, c: char)
    requires AllDigits(s) && !('0' <= c <= '9')
    ensures c !in s
  {
  }

  lemma SplitStamp(h: string, m: string, x: string, ms: string, sep: char)
    requires AllDigits(h) && AllDigits(m) && AllDigits(x) && AllDigits(ms) && (sep == ',' || sep == '.')
    ensures var s := h + ":" + m + ":" + x + [sep] + ms;
      Split(s, ':') == [h, m, x + [sep] + ms] && ' ' !in s && '\n' !in s && '\r' !in s
    ensures Split(x + [sep] + ms, sep) == [x, ms]
  {
    hide Split, AllDigits;
    forall c | c == ':' || c == sep || c == ' ' || c == '\n' || c == '\r'
      ensures c !in h && c !in m && c !in x && c !in ms
    {
      DigitsOnly(h, c);
      DigitsOnly(m, c);
      DigitsOnly(x, c);
      DigitsOnly(ms, c);
    }
    var last := x + [sep] + ms;
    SplitLater(x, ms, sep);
    SplitWhole(x, sep);
    SplitWhole(ms, sep);
    SplitLater(h, m + [':'] + last, ':');
    SplitLater(m, last, ':');
    SplitWhole(h, ':');
    SplitWhole(m, ':');
    SplitWhole(last, ':');
    assert h + ":" + m + ":" + x + [sep] + ms == h + [':'] + (m + [':'] + last);
  }

  /** A printed time stamp reads back as the whole milliseconds of the time. */
  lemma StampBack(style: Style, t: real)
    requires t >= 0.0
    ensures var s := FormatTimestamp(style, t);
      ParseStamp(style, s) == Some((1000.0 * t).Floor) && ' ' !in s && '\n' !in s && '\r' !in s
  {
    hide PadNat, FieldsOf, Split, ParseNat, AllDigits;
    FieldsRecompose(t);
    var f := FieldsOf(t);
    PadBack(f.hours, 2);
    PadBack(f.minutes, 2);
    PadBack(f.secs, 2);
    PadBack(f.millis, 3);
    SplitStamp(Pad(f.hours, 2), Pad(f.minutes, 2), Pad(f.secs, 2), Pad(f.millis, 3), Sep(style));
  }

  lemma TimesBack(style: Style, start: real, end: real)
    requires start >= 0.0 && end >= 0.0
    ensures var line := FormatTimestamp(style, start) + " --> " + FormatTimestamp(style, end);
      && ParseTimes(style, line) == Some(((1000.0 * start).Floor, (1000.0 * end).Floor))
      && line != "" && '\n' !in line && '\r' !in line
  {
    hide FormatTimestamp, ParseStamp, Split;
    StampBack(style, start);
    StampBack(style, end);
    var a, b := FormatTimestamp(style, start), FormatTimestamp(style, end);
    SplitLater(a, "-->" + [' '] + b, ' ');
    SplitLater("-->", b, ' ');
    SplitWhole(a, ' ');
    SplitWhole("-->", ' ');
    SplitWhole(b, ' ');
    assert a + " --> " + b == a + [' '] + ("-->" + [' '] + b);
  }

  // ----- the round trip

  /** A caption that a reader takes whole: it is empty, or none of its lines is, and, in WebVTT, none holds the
      arrow. */
  predicate Whole(style: Style, caption: string) {
    caption == "" || forall i :: 0 <= i < |Split(caption, '\n')| ==> GoesOn(style, Split(caption, '\n')[i])
  }

  /** Reading the lines of a caption up to the empty line after it gives the caption back exactly when it is whole, and
      then leaves the rest. */
  lemma CaptionBack(style: Style, caption: string, more: seq<string>)
    requires SkipEmpty(more) == more
    ensures var lines := Split(caption, '\n') + [""] + more;
      var n := TextLines(style, lines);
      && (Join(lines[..n], '\n') == caption <==> Whole(style, caption))
      && (Whole(style, caption) ==> SkipEmpty(lines[n..]) == more)
  {
    var parts := Split(caption, '\n');
    var lines := parts + [""] + more;
    var n := TextLines(style, lines);
    JoinSplit(caption, '\n');
    if n < |parts| {
      JoinShorter(parts, n, '\n');
      assert lines[..n] == parts[..n];
      assert !GoesOn(style, lines[n]) && lines[n] == parts[n];
      if caption == "" { EmptyCaption(style, more); }
    } else {
      assert lines[|parts|] == "";
      assert lines[..n] == parts;
      assert forall i :: 0 <= i < |parts| ==> lines[i] == parts[i];
      assert lines[n..] == [""] + more;
      assert ([""] + more)[1..] == more;
    }
  }

  lemma EmptyCaption(style: Style, more: seq<string>)
    requires SkipEmpty(more) == more
    ensures var lines := Split("", '\n') + [""] + more;
      TextLines(style, lines) == 0 && Join(lines[..0], '\n') == "" && SkipEmpty(lines) == more
  {
    var lines := Split("", '\n') + [""] + more;
    assert lines == ["", ""] + more;
    assert lines[1..] == [""] + more && lines[1..][1..] == more;
  }

  /** The lines of a printed block. */
  function BlockLines(style: Style, number: nat, seg: Spoken): seq<string> {
    (if style == Srt then [Digits(number)] else [])
    + [FormatTimestamp(style, seg.start) + " --> " + FormatTimestamp(style, seg.end)] + Split(Caption(seg), '\n') + [""]
  }

  function AllLines(style: Style, segs: seq<Spoken>, first: nat): seq<string> {
    if segs == [] then [] else BlockLines(style, first, segs[0]) + AllLines(style, segs[1..], first + 1)
  }

  lemma FlatBlock(numbers: seq<string>, times: string, caption: string)
    requires Flat(numbers, '\n') == numbers && '\n' !in times
    ensures Flat(numbers + [times, caption, ""], '\n') == numbers + [times] + Split(caption, '\n') + [""]
  {
    hide Flat, Split;
    SplitWhole(times, '\n');
    SplitWhole("", '\n');
    FlatOne(times);
    FlatOne(caption);
    FlatOne("");
    FlatConcat([times], [caption], '\n');
    FlatConcat([times] + [caption], [""], '\n');
    FlatConcat(numbers, [times] + [caption] + [""], '\n');
    assert [times, caption, ""] == [times] + [caption] + [""];
  }

  lemma NumberFlat(number: nat)
    ensures Flat([Digits(number)], '\n') == [Digits(number)] && Flat([], '\n') == []
    ensures '\r' !in Digits(number)
  {
    hide Digits, Split;
    DigitsOnly(Digits(number), '\n');
    DigitsOnly(Digits(number), '\r');
    SplitWhole(Digits(number), '\n');
    FlatOne(Digits(number));
  }

  lemma BlockWithout(numbers: seq<string>, times: string, caption: string, x: char)
    requires Without(numbers, x) && x !in times
    ensures Without(numbers + [times, caption, ""], x) <==> x !in caption
  {
    var b := [times, caption, ""];
    WithoutConcat(numbers, b, x);
    if Without(b, x) { assert x !in b[1]; }
  }

  lemma BlockFlat(style: Style, number: nat, seg: Spoken)
    requires seg.start >= 0.0 && seg.end >= 0.0
    ensures Flat(Block(style, number, seg), '\n') == BlockLines(style, number, seg)
    ensures Without(Block(style, number, seg), '\r') <==> '\r' !in Caption(seg)
  {
    hide FormatTimestamp, Caption, Digits, Split, Flat;
    TimesBack(style, seg.start, seg.end);
    NumberFlat(number);
    var times := FormatTimestamp(style, seg.start) + " --> " + FormatTimestamp(style, seg.end);
    var numbers := if style == Srt then [Digits(number)] else [];
    FlatBlock(numbers, times, Caption(seg));
    BlockWithout(numbers, times, Caption(seg), '\r');
  }

  lemma FlatOne(s: string)
    ensures Flat([s], '\n') == Split(s, '\n')
  {
    assert [s][1..] == [];
  }

  lemma {:induction false} BlocksFlat(style: Style, segs: seq<Spoken>, first: nat)
    requires Timed(segs)
    ensures Flat(Blocks(style, segs, first), '\n') == AllLines(style, segs, first)
    ensures Without(Blocks(style, segs, first), '\r') <==> forall seg :: seg in segs ==> '\r' !in Caption(seg)
    decreases |segs|
  {
    hide Block, BlockLines, Caption, Without;
    if segs == [] {
      NoLines();
    } else {
      BlocksFlat(style, segs[1..], first + 1);
      BlockFlat(style, first, segs[0]);
      FlatConcat(Block(style, first, segs[0]), Blocks(style, segs[1..], first + 1), '\n');
      WithoutConcat(Block(style, first, segs[0]), Blocks(style, segs[1..], first + 1), '\r');
      assert segs == [segs[0]] + segs[1..];
    }
  }

  lemma NoLines()
    ensures Flat([], '\n') == [] && Without([], '\r')
  {
  }

  /** A printed block begins with a line that is not empty. */
  lemma BeginsFull(style: Style, segs: seq<Spoken>, first: nat)
    requires Timed(segs)
    ensures SkipEmpty(AllLines(style, segs, first)) == AllLines(style, segs, first)
  {
    hide FormatTimestamp, Caption, Split;
    if segs != [] { TimesBack(style, segs[0].start, segs[0].end); }
  }

  lemma OneCue(style: Style, lines: seq<string>, times: (nat, nat))
    requires |lines| > TimesAt(style) && ParseTimes(style, lines[TimesAt(style)]) == Some(times)
    requires style == Srt ==> ParseNat(lines[0]).Some?
    ensures var after := lines[TimesAt(style) + 1..];
      var n := TextLines(style, after);
      var rest := ParseCues(style, SkipEmpty(after[n..]));
      ParseCues(style, lines) ==
        if rest.None? then None else Some([Cue(times.0, times.1, Join(after[..n], '\n'))] + rest.value)
  {
    hide ParseTimes, ParseNat, TextLines, SkipEmpty, Join;
  }

  /** One block is read as its segment's cue exactly when the caption is whole; otherwise as another cue, or not. */
  lemma BlockBack(style: Style, number: nat, seg: Spoken, more: seq<string>)
    requires seg.start >= 0.0 && seg.end >= 0.0 && SkipEmpty(more) == more
    ensures var r, rest := ParseCues(style, BlockLines(style, number, seg) + more), ParseCues(style, more);
      && (Whole(style, Caption(seg)) ==> r == if rest.None? then None else Some([CueOf(seg)] + rest.value))
      && (!Whole(style, Caption(seg)) ==> r.None? || (r.value != [] && r.value[0] != CueOf(seg)))
  {
    hide FormatTimestamp, ParseTimes, ParseNat, Caption, Split, Whole, GoesOn, Digits;
    hide ParseCues, TextLines, SkipEmpty, Join;
    var k := TimesAt(style);
    var lines := BlockLines(style, number, seg) + more;
    TimesBack(style, seg.start, seg.end);
    DigitsRead(number);
    CaptionBack(style, Caption(seg), more);
    assert lines[k + 1..] == Split(Caption(seg), '\n') + [""] + more;
    OneCue(style, lines, ((1000.0 * seg.start).Floor, (1000.0 * seg.end).Floor));
  }

  lemma DigitsRead(n: nat)
    ensures ParseNat(Digits(n)) == Some(n)
  {
    DigitsBack(n);
  }

  /** Without carriage returns the blocks are read as the cues exactly when all captions are whole. */
  lemma {:induction false} BlocksBack(style: Style, segs: seq<Spoken>, first: nat)
    requires Timed(segs)
    ensures ParseCues(style, AllLines(style, segs, first)) == Some(CuesOf(segs)) <==>
      forall seg :: seg in segs ==> Whole(style, Caption(seg))
    decreases |segs|
  {
    hide CueOf, BlockLines, Caption, ParseCues, Whole;
    if segs == [] {
      NothingToRead(style);
    } else {
      var tail := segs[1..];
      BlocksBack(style, tail, first + 1);
      BeginsFull(style, tail, first + 1);
      BlockBack(style, first, segs[0], AllLines(style, tail, first + 1));
      assert CuesOf(segs) == [CueOf(segs[0])] + CuesOf(tail);
      assert segs == [segs[0]] + tail;
      var rest := ParseCues(style, AllLines(style, tail, first + 1));
      if rest.Some? { SameTail(CueOf(segs[0]), rest.value, CuesOf(tail)); }
    }
  }

  lemma SameTail(x: Cue, a: seq<Cue>, b: seq<Cue>)
    ensures [x] + a == [x] + b <==> a == b
  {
    if [x] + a == [x] + b { assert a == ([x] + a)[1..] == ([x] + b)[1..] == b; }
  }

  lemma NothingToRead(style: Style)
    ensures ParseCues(style, []) == Some([])
  {
  }

  /** No cue's text holds a character that is not in the file. */
  lemma {:induction false} TextsFromLines(style: Style, lines: seq<string>, x: char)
    requires Without(lines, x) && x != '\n'
    ensures ParseCues(style, lines).Some? ==> forall cue :: cue in ParseCues(style, lines).value ==> x !in cue.text
    decreases |lines|
  {
    hide ParseCues, Without, TextLines, Join, SkipEmpty;
    NoCues(style);
    if ParseCues(style, lines).Some? && lines != [] {
      var k := TimesAt(style) + 1;
      FirstCue(style, lines);
      var after := lines[k..];
      var n := TextLines(style, after);
      assert after == after[..n] + after[n..] && lines == lines[..k] + after;
      WithoutConcat(lines[..k], after, x);
      WithoutConcat(after[..n], after[n..], x);
      JoinWithout(after[..n], '\n', x);
      SkipWithout(after[n..], x);
      TextsFromLines(style, SkipEmpty(after[n..]), x);
    }
  }

  lemma NoCues(style: Style)
    ensures ParseCues(style, []) == Some([])
  {
  }

  lemma FirstCue(style: Style, lines: seq<string>)
    requires lines != [] && ParseCues(style, lines).Some?
    ensures |lines| > TimesAt(style)
    ensures var after := lines[TimesAt(style) + 1..];
      var rest := ParseCues(style, SkipEmpty(after[TextLines(style, after)..]));
      var cues := ParseCues(style, lines).value;
      && rest.Some? && cues != [] && cues[1..] == rest.value
      && cues[0].text == Join(after[..TextLines(style, after)], '\n')
  {
    hide ParseTimes, ParseNat, TextLines, SkipEmpty, Join;
  }

  lemma {:induction false} SkipWithout(lines: seq<string>, x: char)
    requires Without(lines, x)
    ensures Without(SkipEmpty(lines), x)
  {
    if lines != [] && lines[0] == "" { SkipWithout(lines[1..], x); }
  }

  /** The printed file. */
  function Printed(style: Style, segs: seq<Spoken>): string {
    Join(Header(style) + Blocks(style, segs, 1), '\n')
  }

  /** What a reader is left with when it has taken the header. */
  lemma HeaderRead(style: Style, segs: seq<Spoken>)
    requires Timed(segs) && forall seg :: seg in segs ==> '\r' !in Caption(seg)
    ensures ParseSubtitles(style, Printed(style, segs)) == ParseCues(style, AllLines(style, segs, 1))
  {
    hide Blocks, ParseCues, Caption, AllLines, Split, Join, Flat;
    var head, blocks := Header(style), Blocks(style, segs, 1);
    var parts := head + blocks;
    BlocksFlat(style, segs, 1);
    BeginsFull(style, segs, 1);
    WithoutConcat(head, blocks, '\r');
    JoinWithout(parts, '\n', '\r');
    NormalisedText(Join(parts, '\n'));
    FlatConcat(head, blocks, '\n');
    HeaderFlat();
    var all := AllLines(style, segs, 1);
    if style == Vtt {
      SplitJoin(parts, '\n');
      assert (["WEBVTT", ""] + all)[1..] == [""] + all && ([""] + all)[1..] == all;
    } else if blocks == [] {
      NoSplit();
    } else {
      SplitJoin(parts, '\n');
      assert parts == blocks && [] + all == all;
    }
  }

  lemma HeaderFlat()
    ensures Flat(Header(Vtt), '\n') == ["WEBVTT", ""] && Flat([], '\n') == []
    ensures Without(Header(Vtt), '\r') && Without(Header(Srt), '\r')
  {
    SplitWhole("WEBVTT", '\n');
    SplitWhole("", '\n');
    FlatOne("");
    assert Header(Vtt)[1..] == [""];
  }

  lemma NoSplit()
    ensures Join([], '\n') == "" && Split("", '\n') == [""] && SkipEmpty([""]) == []
  {
  }

  /** If a caption holds a carriage return the file does not read back as it. */
  lemma CarriageReturnLost(style: Style, segs: seq<Spoken>, seg: Spoken)
    requires Timed(segs) && seg in segs && '\r' in Caption(seg)
    ensures ParseSubtitles(style, Printed(style, segs)) != Some(CuesOf(segs))
  {
    hide Blocks, ParseCues, Caption, Split, Join, Flat;
    var content := Printed(style, segs);
    var lines := Split(Normalised(content), '\n');
    NormalisedText(content);
    SplitWithout(Normalised(content), '\n', '\r');
    SkipWithout(lines, '\r');
    SkipWithout(lines[1..], '\r');
    TextsFromLines(style, SkipEmpty(lines), '\r');
    TextsFromLines(style, SkipEmpty(lines[1..]), '\r');
    var i :| 0 <= i < |segs| && segs[i] == seg;
    assert CuesOf(segs)[i].text == Caption(seg);
    assert CuesOf(segs)[i] in CuesOf(segs);
  }

  /** The printed file reads back as the same cues in the same order if and only if no caption has an empty line inside
      or a carriage return, nor, in WebVTT, a line that holds the arrow. */
  lemma RoundTrip(style: Style, segs: seq<Spoken>)
    requires Timed(segs)
    ensures ParseSubtitles(style, Printed(style, segs)) == Some(CuesOf(segs)) <==>
      forall seg :: seg in segs ==> '\r' !in Caption(seg) && Whole(style, Caption(seg))
  {
    hide ParseSubtitles, Printed, CuesOf, Caption, Whole, ParseCues, AllLines;
    if exists seg :: seg in segs && '\r' in Caption(seg) {
      var seg :| seg in segs && '\r' in Caption(seg);
      CarriageReturnLost(style, segs, seg);
    } else {
      HeaderRead(style, segs);
      BlocksBack(style, segs, 1);
    }
  }

  /** A caption of several lines is read back: this one of two. */
  lemma TwoLinesWhole(style: Style)
    ensures Whole(style, "a\nb")
  {
    SplitLater("a", "b", '\n');
    SplitWhole("a", '\n');
    SplitWhole("b", '\n');
    assert "a" + ['\n'] + "b" == "a\nb";
  }

  // ----- what is printed, character by character

  lemma DigitsLength(n: nat)
    requires n < 1000
    ensures |Digits(n)| == if n < 10 then 1 else if n < 100 then 2 else 3
  {
    if n >= 10 {
      assert |Digits(n)| == |Digits(n / 10)| + 1;
      if n >= 100 { assert |Digits(n / 10)| == |Digits(n / 10 / 10)| + 1; }
    }
  }

  lemma PadLength(n: nat, width: nat)
    requires n < 1000 && (width == 3 || (width == 2 && n < 100))
    ensures |PadNat(n, width)| == width
  {
    DigitsLength(n);
  }

  /** A time stamp ends with two digits of minutes, two of seconds and three of milliseconds; a comma stands before
      these in SRT, a dot in WebVTT. There are at least two digits of hours. */
  lemma StampShape(style: Style, t: real)
    requires t >= 0.0
    ensures var s := FormatTimestamp(style, t);
      var n := |s|;
      && n >= 12 && s[n - 10] == ':' && s[n - 7] == ':' && s[n - 4] == (if style == Srt then ',' else '.')
      && forall i :: 0 <= i < n && i != n - 10 && i != n - 7 && i != n - 4 ==> '0' <= s[i] <= '9'
  {
    hide FieldsOf, PadNat, Digits, Millis;
    FieldsRecompose(t);
    var f := FieldsOf(t);
    PadLength(f.minutes, 2);
    PadLength(f.secs, 2);
    PadLength(f.millis, 3);
    HoursLength(f.hours);
  }

  lemma HoursLength(n: nat)
    ensures |PadNat(n, 2)| >= 2
  {
  }

  /** The speaker, if there is one, stands in brackets before the text without the space around it. */
  lemma CaptionSays(seg: Spoken)
    ensures var c, text := Caption(seg), ParseText.Strip(seg.text);
      if seg.speaker.Some? && seg.speaker.value != "" then
        var n := |seg.speaker.value|;
        |c| == n + 3 + |text| && c[0] == '[' && c[1..n + 1] == seg.speaker.value && c[n + 1] == ']'
        && c[n + 2] == ' ' && c[n + 3..] == text
      else c == text
  {
    hide ParseText.Strip;
  }

  /** The i-th cue is printed with its number, from 1 on, in SRT and without in WebVTT; with its times, its caption
      and an empty line. */
  lemma {:induction false} BlockAt(style: Style, segs: seq<Spoken>, first: nat, i: nat)
    requires i < |segs| && segs[i].start >= 0.0 && segs[i].end >= 0.0
    ensures var lines, at := Blocks(style, segs, first), FirstLine(style, i);
      && at + TimesAt(style) + 2 < |lines|
      && (style == Srt ==> ParseNat(lines[at]) == Some(first + i))
      && ParseTimes(style, lines[at + TimesAt(style)])
         == Some(((1000.0 * segs[i].start).Floor, (1000.0 * segs[i].end).Floor))
      && lines[at + TimesAt(style) + 1] == Caption(segs[i]) && lines[at + TimesAt(style) + 2] == ""
  {
    hide FormatTimestamp, Caption, ParseTimes, ParseNat, Digits;
    var block := Block(style, first, segs[0]);
    if i == 0 {
      TimesBack(style, segs[0].start, segs[0].end);
      DigitsRead(first);
    } else {
      BlockAt(style, segs[1..], first + 1, i - 1);
      var rest, at, k := Blocks(style, segs[1..], first + 1), FirstLine(style, i - 1), TimesAt(style);
      assert |block| + at == FirstLine(style, i);
      LaterLine(block, rest, at);
      LaterLine(block, rest, at + k);
      LaterLine(block, rest, at + k + 1);
      LaterLine(block, rest, at + k + 2);
      assert Blocks(style, segs, first) == block + rest;
    }
  }

  function FirstLine(style: Style, i: nat): nat { if style == Srt then 4 * i else 3 * i }

  lemma LaterLine(a: seq<string>, b: seq<string>, m: nat)
    requires m < |b|
    ensures (a + b)[|a| + m] == b[m]
  {
  }
}
