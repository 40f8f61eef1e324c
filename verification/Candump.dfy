/** The candump log printer and parser of naviq_mts160/test/fixture_utils.py.

    Times are whole microseconds; the parser keeps a time as its digits and the
    number of decimals. White space and digits are the ASCII ones, and lines end
    with '\n'. */
module Candump {
  import opened Bytes

  /** A frame to print: microseconds, identifier, payload. */
  datatype Frame = Frame(micros: nat, canId: nat, data: seq<byte>)

  /** A parsed time: `unscaled / 10^places` seconds. */
  datatype Decimal = Decimal(unscaled: nat, places: nat)

  datatype LogFrame = LogFrame(t: Decimal, canId: nat, data: seq<byte>)

  // ---------------------------------------------------------------- characters

  predicate IsDigit(c: char) { '0' <= c <= '9' }

  predicate IsHex(c: char) { IsDigit(c) || 'A' <= c <= 'F' || 'a' <= c <= 'f' }

  predicate IsSpace(c: char) { c == ' ' || '\t' <= c <= '\r' || '\U{1C}' <= c <= '\U{1F}' }

  /** Space, tab, line feed, vertical tab, form feed, carriage return and the four separators. */
  lemma WhiteSpace(c: char)
    ensures IsSpace(c) <==> c as int in {0x20, 0x09, 0x0A, 0x0B, 0x0C, 0x0D, 0x1C, 0x1D, 0x1E, 0x1F}
  {
  }

  predicate NotSpace(c: char) { !IsSpace(c) }

  function DigitChar(d: nat): char
    requires d < 16
  {
    "0123456789ABCDEF"[d]
  }

  function CharValue(c: char): (v: nat)
    requires IsHex(c)
    ensures v < 16
  {
    if IsDigit(c) then (c - '0') as int
    else if c <= 'F' then (c - 'A') as int + 10
    else (c - 'a') as int + 10
  }

  lemma DigitCharValue(d: nat)
    requires d < 16
    ensures IsHex(DigitChar(d)) && CharValue(DigitChar(d)) == d
    ensures d < 10 ==> IsDigit(DigitChar(d))
  {
    assert d == 0 || d == 1 || d == 2 || d == 3 || d == 4 || d == 5 || d == 6 || d == 7 || d == 8 || d == 9
           || d == 10 || d == 11 || d == 12 || d == 13 || d == 14 || d == 15;
  }

  // ------------------------------------------------------------------- numbers

  lemma DigitValue(d: nat, base: nat)
    requires Base(base) && d < base
    ensures IsDigitOf(base, DigitChar(d)) && IsHex(DigitChar(d)) && CharValue(DigitChar(d)) == d
  {
    DigitCharValue(d);
  }

  predicate Base(b: nat) { b == 10 || b == 16 }

  predicate IsDigitOf(base: nat, c: char) { if base == 10 then IsDigit(c) else IsHex(c) }

  predicate AllDigits(base: nat, s: string) { forall i | 0 <= i < |s| :: IsDigitOf(base, s[i]) }

  /** Positional digits, zero-padded to `width`. */
  function Digits(v: nat, base: nat, width: nat): (s: string)
    requires Base(base)
    ensures |s| >= width && |s| >= 1
    decreases v, width
  {
    if v < base && width <= 1 then [DigitChar(v)]
    else Digits(Quotient(v, base), base, if width == 0 then 0 else width - 1) + [DigitChar(Remainder(v, base))]
  }

  function Quotient(v: nat, base: nat): (q: nat)
    requires Base(base)
    ensures q <= v && (v > 0 ==> q < v)
  {
    if base == 10 then v / 10 else v / 16
  }

  function Remainder(v: nat, base: nat): (r: nat)
    requires Base(base)
    ensures r < base
  {
    if base == 10 then v % 10 else v % 16
  }

  lemma QuotientRemainder(v: nat, base: nat)
    requires Base(base)
    ensures Times(Quotient(v, base), base) + Remainder(v, base) == v
  {
  }

  function ValueOf(s: string, base: nat): nat
    requires Base(base) && AllDigits(base, s)
  {
    if s == "" then 0
    else Times(ValueOf(s[..|s| - 1], base), base) + CharValue(s[|s| - 1])
  }

  function Times(v: nat, base: nat): nat
    requires Base(base)
  {
    if base == 10 then v * 10 else v * 16
  }

  ghost predicate Denotes(s: string, base: nat, v: nat)
    requires Base(base)
  {
    AllDigits(base, s) && ValueOf(s, base) == v
  }

  lemma {:induction false} ValueOfDigits(v: nat, base: nat, width: nat)
    requires Base(base)
    ensures Denotes(Digits(v, base, width), base, v)
    decreases v, width
  {
    if v < base && width <= 1 {
      OneDigitDenotes(v, base);
    } else {
      var less := if width == 0 then 0 else width - 1;
      ValueOfDigits(Quotient(v, base), base, less);
      MoreDigitsDenote(Digits(Quotient(v, base), base, less), v, base);
    }
  }

  lemma OneDigitDenotes(v: nat, base: nat)
    requires Base(base) && v < base
    ensures Denotes([DigitChar(v)], base, v)
  {
    DigitValue(v, base);
    ValueOfSnoc("", DigitChar(v), base);
    assert "" + [DigitChar(v)] == [DigitChar(v)];
  }

  lemma MoreDigitsDenote(front: string, v: nat, base: nat)
    requires Base(base) && Denotes(front, base, Quotient(v, base))
    ensures Denotes(front + [DigitChar(Remainder(v, base))], base, v)
  {
    DigitValue(Remainder(v, base), base);
    ValueOfSnoc(front, DigitChar(Remainder(v, base)), base);
    QuotientRemainder(v, base);
  }

  lemma ValueOfSnoc(s: string, c: char, base: nat)
    requires Base(base) && AllDigits(base, s) && IsDigitOf(base, c)
    ensures AllDigits(base, s + [c])
    ensures ValueOf(s + [c], base) == Times(ValueOf(s, base), base) + CharValue(c)
  {
    assert (s + [c])[..|s|] == s;
  }

  // --------------------------------------------------------------------- bytes

  function HexOf(data: seq<byte>): string {
    if data == [] then "" else [DigitChar(data[0] / 16), DigitChar(data[0] % 16)] + HexOf(data[1..])
  }

  /** `bytes.fromhex`; None where it raises. */
  function FromHex(s: string): Option<seq<byte>>
    requires AllDigits(16, s)
  {
    if s == "" then Some([])
    else if |s| == 1 then None
    else
      var rest :- FromHex(s[2..]);
      Some([CharValue(s[0]) * 16 + CharValue(s[1])] + rest)
  }

  lemma HexPair(b: byte)
    ensures IsHex(DigitChar(b / 16)) && IsHex(DigitChar(b % 16))
    ensures CharValue(DigitChar(b / 16)) * 16 + CharValue(DigitChar(b % 16)) == b
  {
    DigitCharValue(b / 16);
    DigitCharValue(b % 16);
  }

  lemma {:induction false} FromHexInverts(data: seq<byte>)
    ensures AllDigits(16, HexOf(data)) && FromHex(HexOf(data)) == Some(data)
  {
    if data != [] {
      FromHexInverts(data[1..]);
      HexPair(data[0]);
      var pair := [DigitChar(data[0] / 16), DigitChar(data[0] % 16)];
      FromHexPair(pair, HexOf(data[1..]), data[0], data[1..]);
      assert [data[0]] + data[1..] == data;
    }
  }

  lemma FromHexPair(pair: string, hex: string, b: byte, rest: seq<byte>)
    requires |pair| == 2 && AllDigits(16, pair) && CharValue(pair[0]) * 16 + CharValue(pair[1]) == b
    requires AllDigits(16, hex) && FromHex(hex) == Some(rest)
    ensures AllDigits(16, pair + hex) && FromHex(pair + hex) == Some([b] + rest)
  {
    assert (pair + hex)[2..] == hex;
  }

  /** An odd number of digits fails; an even number gives one byte for two digits, in either case. */
  lemma {:induction false} FromHexMeaning(s: string)
    requires AllDigits(16, s)
    ensures FromHex(s).None? <==> |s| % 2 == 1
    ensures FromHex(s).Some? ==>
              && |s| == 2 * |FromHex(s).value|
              && forall i | 0 <= i < |FromHex(s).value| ::
                   FromHex(s).value[i] == 16 * CharValue(s[2 * i]) + CharValue(s[2 * i + 1])
  {
    if |s| >= 2 {
      FromHexMeaning(s[2..]);
    }
  }

  function Lower(c: char): char { if 'A' <= c <= 'F' then ((c as int) + 32) as char else c }

  lemma CaseIgnored(c: char)
    requires IsHex(c)
    ensures IsHex(Lower(c)) && CharValue(Lower(c)) == CharValue(c)
  {
  }

  // ------------------------------------------------------------------ scanning

  function Span(s: string, p: char -> bool): (n: nat)
    ensures n <= |s|
    ensures forall i | 0 <= i < n :: p(s[i])
  {
    if s != "" && p(s[0]) then 1 + Span(s[1..], p) else 0
  }

  /** A maximal non-empty run of characters, and what follows it. */
  function Token(s: string, p: char -> bool): (r: Option<(string, string)>)
    ensures r.Some? ==> forall i | 0 <= i < |r.value.0| :: p(r.value.0[i])
  {
    var n := Span(s, p);
    if n == 0 then None else Some((s[..n], s[n..]))
  }

  function Expect(s: string, c: char): Option<string> {
    if s != "" && s[0] == c then Some(s[1..]) else None
  }

  lemma {:induction false} SpanOfRun(run: string, rest: string, p: char -> bool)
    requires forall i | 0 <= i < |run| :: p(run[i])
    requires rest == "" || !p(rest[0])
    ensures Span(run + rest, p) == |run|
  {
    if run == "" {
      assert run + rest == rest;
    } else {
      assert (run + rest)[1..] == run[1..] + rest;
      SpanOfRun(run[1..], rest, p);
    }
  }

  lemma TokenOfRun(run: string, rest: string, p: char -> bool)
    requires run != "" && forall i | 0 <= i < |run| :: p(run[i])
    requires rest == "" || !p(rest[0])
    ensures Token(run + rest, p) == Some((run, rest))
  {
    SpanOfRun(run, rest, p);
  }

  // -------------------------------------------------------------------- parser

  datatype Entry = Entry(t: Decimal, canId: nat, hex: string)

  /** The line pattern; its runs are of disjoint character classes, so scanning needs no backtracking. */
  function MatchLine(line: string): (e: Option<Entry>)
    ensures e.Some? ==> AllDigits(16, e.value.hex)
  {
    var r0 :- Expect(line, '(');
    var (seconds, r1) :- Token(r0, IsDigit);
    var r2 :- Expect(r1, '.');
    var (fraction, r3) :- Token(r2, IsDigit);
    var r4 :- Expect(r3, ')');
    MatchRest(Decimal(ValueOf(seconds + fraction, 10), |fraction|), r4)
  }

  function MatchRest(t: Decimal, r4: string): (e: Option<Entry>)
    ensures e.Some? ==> AllDigits(16, e.value.hex)
  {
    var (_, r5) :- Token(r4, IsSpace);
    var (_, r6) :- Token(r5, NotSpace);
    MatchFrame(t, r6)
  }

  function MatchFrame(t: Decimal, r6: string): (e: Option<Entry>)
    ensures e.Some? ==> AllDigits(16, e.value.hex)
  {
    var (_, r7) :- Token(r6, IsSpace);
    var (id, r8) :- Token(r7, IsHex);
    var r9 :- Expect(r8, '#');
    var n := Span(r9, IsHex);
    if n == |r9| || IsSpace(r9[n]) then Some(Entry(t, ValueOf(id, 16), r9[..n])) else None
  }

  function StripLeft(s: string): string { s[Span(s, IsSpace)..] }

  function StripRight(s: string): string {
    if s != "" && IsSpace(s[|s| - 1]) then StripRight(s[..|s| - 1]) else s
  }

  function Strip(s: string): string { StripRight(StripLeft(s)) }

  /** What one line of a log is. */
  datatype Line = Skipped | Parsed(frame: LogFrame) | Malformed

  function ReadLine(line: string): Line {
    var s := Strip(line);
    if s == "" || s[0] == '#' then Skipped else ReadContent(MatchLine(s))
  }

  function ReadContent(matched: Option<Entry>): Line
    requires matched.Some? ==> AllDigits(16, matched.value.hex)
  {
    match matched
    case None => Skipped
    case Some(e) =>
      match FromHex(e.hex) {
        case None => Malformed
        case Some(data) => Parsed(LogFrame(e.t, e.canId, data))
      }
  }

  /** Everything up to a line end is a line, and what remains after the last one if it is not empty. */
  function Lines(text: string): seq<string>
    decreases |text|
  {
    if text == "" then [] else
      var n := Span(text, NotNewline);
      if n == |text| then [text] else [text[..n]] + Lines(text[n + 1..])
  }

  predicate NotNewline(c: char) { c != '\n' }

  function ReadLines(lines: seq<string>): Option<seq<LogFrame>> {
    if lines == [] then Some([]) else
      match ReadLine(lines[0])
      case Malformed => None
      case Skipped => ReadLines(lines[1..])
      case Parsed(f) => Prepend([f], ReadLines(lines[1..]))
  }

  /** None where the source raises ValueError: an odd number of payload digits. */
  function ReadCandump(text: string): Option<seq<LogFrame>> { ReadLines(Lines(text)) }

  function Prepend(out: seq<LogFrame>, rest: Option<seq<LogFrame>>): Option<seq<LogFrame>> {
    match rest case None => None case Some(r) => Some(out + r)
  }

  lemma PrependParsed(out: seq<LogFrame>, f: LogFrame, rest: Option<seq<LogFrame>>)
    ensures Prepend(out, Prepend([f], rest)) == Prepend(out + [f], rest)
  {
    if rest.Some? {
      assert out + ([f] + rest.value) == (out + [f]) + rest.value;
    }
  }

  lemma ReadLinesStep(lines: seq<string>, i: nat)
    requires i < |lines|
    ensures ReadLines(lines[i..])
         == match ReadLine(lines[i])
            case Malformed => None
            case Skipped => ReadLines(lines[i + 1..])
            case Parsed(f) => Prepend([f], ReadLines(lines[i + 1..]))
  {
    assert lines[i..][1..] == lines[i + 1..];
  }

  /** The reader's loop over the lines of the file. */
  method ReadLoop(lines: seq<string>) returns (r: Option<seq<LogFrame>>)
    ensures r == ReadLines(lines)
  {
    var out: seq<LogFrame> := [];
    assert lines[0..] == lines;
    PrependNothing(ReadLines(lines));
    for i := 0 to |lines|
      invariant ReadLines(lines) == Prepend(out, ReadLines(lines[i..]))
    {
      ReadLinesStep(lines, i);
      var line := ReadLine(lines[i]);
      match line
      case Malformed => return None;
      case Skipped =>
      case Parsed(f) =>
        PrependParsed(out, f, ReadLines(lines[i + 1..]));
        out := out + [f];
    }
    r := Some(out);
    assert lines[|lines|..] == [] && out + [] == out;
  }

  lemma PrependNothing(rest: Option<seq<LogFrame>>)
    ensures Prepend([], rest) == rest
  {
    if rest.Some? {
      assert [] + rest.value == rest.value;
    }
  }

  // ------------------------------------------------------------------- printer

  function TimeDigits(micros: nat): (s: string)
    ensures |s| >= 7
  {
    Digits(micros, 10, 7)
  }

  /** Everything after the closing parenthesis. */
  function PrintRest(iface: string, canId: nat, payload: string): string {
    " " + (iface + PrintFrame(canId, payload))
  }

  function PrintFrame(canId: nat, payload: string): string { " " + (Digits(canId, 16, 3) + ("#" + payload)) }

  function PrintWith(micros: nat, iface: string, canId: nat, payload: string): string {
    var d := TimeDigits(micros);
    "(" + (d[..|d| - 6] + ("." + (d[|d| - 6..] + (")" + PrintRest(iface, canId, payload)))))
  }

  function PrintLine(f: Frame, iface: string): string {
    PrintWith(f.micros, iface, f.canId, HexOf(f.data))
  }

  /** What a log is made of: printed frames, and lines the reader skips. */
  datatype Item = Sent(frame: Frame) | Other(line: string)

  function Text(items: seq<Item>, iface: string): string {
    if items == [] then ""
    else (match items[0] case Sent(f) => PrintLine(f, iface) case Other(line) => line) + "\n" + Text(items[1..], iface)
  }

  function AsRead(f: Frame): LogFrame { LogFrame(Decimal(f.micros, 6), f.canId, f.data) }

  function FramesOf(items: seq<Item>): seq<LogFrame> {
    if items == [] then [] else
      (match items[0] case Sent(f) => [AsRead(f)] case Other(_) => []) + FramesOf(items[1..])
  }

  predicate InterfaceName(iface: string) {
    iface != "" && forall i | 0 <= i < |iface| :: NotSpace(iface[i])
  }

  ghost predicate SkippedLine(line: string) {
    ReadLine(line) == Skipped && OneLine(line)
  }

  // ---------------------------------------------------------------- the text

  predicate IsUpperHex(c: char) { '0' <= c <= '9' || 'A' <= c <= 'F' }

  lemma UpperDigit(d: nat)
    requires d < 16
    ensures IsUpperHex(DigitChar(d)) && (DigitChar(d) == '0' <==> d == 0)
    ensures DigitChar(d) as int == if d < 10 then '0' as int + d else 'A' as int + d - 10
  {
    DigitCharValue(d);
  }

  lemma {:induction false} DigitsUpper(v: nat, base: nat, width: nat)
    requires Base(base)
    ensures forall i | 0 <= i < |Digits(v, base, width)| :: IsUpperHex(Digits(v, base, width)[i])
    decreases v, width
  {
    if v < base && width <= 1 {
      UpperDigit(v);
    } else {
      UpperDigit(Remainder(v, base));
      DigitsUpper(Quotient(v, base), base, if width == 0 then 0 else width - 1);
    }
  }

  /** Padded to the width and no further. */
  lemma {:induction false} NoLeadingZero(v: nat, base: nat, width: nat)
    requires Base(base) && |Digits(v, base, width)| > width && v > 0
    ensures Digits(v, base, width)[0] != '0'
    decreases v, width
  {
    if v < base {
      UpperDigit(v);
      if width > 1 {
        ZeroPadding(base, width - 1);
        assert false;
      }
    } else {
      assert Quotient(v, base) > 0;
      NoLeadingZero(Quotient(v, base), base, if width == 0 then 0 else width - 1);
    }
  }

  lemma {:induction false} ZeroPadding(base: nat, width: nat)
    requires Base(base) && width > 0
    ensures |Digits(0, base, width)| == width
    decreases width
  {
    if width > 1 {
      ZeroPadding(base, width - 1);
    }
  }

  /** Two upper-case digits for each byte, high half first. */
  lemma {:induction false} HexShape(data: seq<byte>)
    ensures |HexOf(data)| == 2 * |data|
    ensures forall i | 0 <= i < |data| ::
              HexOf(data)[2 * i] == DigitChar(data[i] / 16) && HexOf(data)[2 * i + 1] == DigitChar(data[i] % 16)
  {
    if data != [] {
      HexShape(data[1..]);
      forall i | 0 <= i < |data|
        ensures HexOf(data)[2 * i] == DigitChar(data[i] / 16) && HexOf(data)[2 * i + 1] == DigitChar(data[i] % 16)
      {
        if i > 0 {
          assert data[i] == data[1..][i - 1];
          assert HexOf(data)[2 * i] == HexOf(data[1..])[2 * (i - 1)];
          assert HexOf(data)[2 * i + 1] == HexOf(data[1..])[2 * (i - 1) + 1];
        }
      }
    }
  }

  lemma ExampleDigits()
    ensures Digits(1_234_567, 10, 7) == "1234567" && Digits(0x18A, 16, 3) == "18A"
  {
    assert Digits(1, 10, 1) == "1";
    assert Digits(12, 10, 2) == "12";
    assert Digits(123, 10, 3) == "123";
    assert Digits(1_234, 10, 4) == "1234";
    assert Digits(12_345, 10, 5) == "12345";
    assert Digits(123_456, 10, 6) == "123456";
    assert Digits(1, 16, 1) == "1";
    assert Digits(0x18, 16, 2) == "18";
  }

  lemma ExampleHex()
    ensures HexOf([0xAB, 0x05]) == "AB05"
  {
    var data: seq<byte> := [0xAB, 0x05];
    assert data[1..] == [0x05] && data[1..][1..] == [];
    assert HexOf(data[1..]) == "05";
  }

  /** The line: seconds and six decimals in parentheses, the interface, and identifier # payload. */
  lemma PrintedText(f: Frame, iface: string)
    ensures (var t := Digits(f.micros, 10, 7);
             var rest := " " + (iface + (" " + (Digits(f.canId, 16, 3) + ("#" + HexOf(f.data)))));
             PrintLine(f, iface) == "(" + (t[..|t| - 6] + ("." + (t[|t| - 6..] + (")" + rest)))))
  {
  }

  // --------------------------------------------------------------- round trip

  lemma MatchPrintedFrame(t: Decimal, canId: nat, hex: string, tail: string)
    requires AllDigits(16, hex) && (tail == "" || !IsHex(tail[0]))
    ensures MatchFrame(t, PrintFrame(canId, hex + tail))
         == if tail == "" || IsSpace(tail[0]) then Some(Entry(t, canId, hex)) else None
  {
    var id := Digits(canId, 16, 3);
    ValueOfDigits(canId, 16, 3);
    var r8 := "#" + (hex + tail);
    TokenOfRun(" ", id + r8, IsSpace);
    TokenOfRun(id, r8, IsHex);
    SpanOfRun(hex, tail, IsHex);
    assert r8[1..] == hex + tail;
  }

  lemma MatchPrintedRest(t: Decimal, iface: string, canId: nat, hex: string, tail: string)
    requires InterfaceName(iface) && AllDigits(16, hex) && (tail == "" || !IsHex(tail[0]))
    ensures MatchRest(t, PrintRest(iface, canId, hex + tail))
         == if tail == "" || IsSpace(tail[0]) then Some(Entry(t, canId, hex)) else None
  {
    var r6 := PrintFrame(canId, hex + tail);
    TokenOfRun(" ", iface + r6, IsSpace);
    TokenOfRun(iface, r6, NotSpace);
    MatchPrintedFrame(t, canId, hex, tail);
  }

  lemma MatchHead(seconds: string, fraction: string, rest: string)
    requires seconds != "" && fraction != "" && AllDigits(10, seconds) && AllDigits(10, fraction)
    ensures AllDigits(10, seconds + fraction)
    ensures MatchLine("(" + (seconds + ("." + (fraction + (")" + rest)))))
         == MatchRest(Decimal(ValueOf(seconds + fraction, 10), |fraction|), rest)
  {
    var r3 := ")" + rest;
    var r1 := "." + (fraction + r3);
    assert ("(" + (seconds + r1))[1..] == seconds + r1;
    TokenOfRun(seconds, r1, IsDigit);
    assert r1[1..] == fraction + r3;
    TokenOfRun(fraction, r3, IsDigit);
    assert r3[1..] == rest;
  }

  lemma MatchPrinted(micros: nat, iface: string, canId: nat, payload: string)
    ensures MatchLine(PrintWith(micros, iface, canId, payload))
         == MatchRest(Decimal(micros, 6), PrintRest(iface, canId, payload))
  {
    var d := TimeDigits(micros);
    ValueOfDigits(micros, 10, 7);
    var seconds, fraction := d[..|d| - 6], d[|d| - 6..];
    assert seconds + fraction == d;
    MatchHead(seconds, fraction, PrintRest(iface, canId, payload));
  }

  /** Nothing to strip: the line is matched as it is. */
  lemma PrintedRead(micros: nat, iface: string, canId: nat, payload: string)
    requires payload == "" || NotSpace(payload[|payload| - 1])
    ensures (var line := PrintWith(micros, iface, canId, payload); ReadLine(line) == ReadContent(MatchLine(line)))
  {
    PrintedEnds(micros, iface, canId, payload);
  }

  lemma PrintedEnds(micros: nat, iface: string, canId: nat, payload: string)
    requires payload == "" || NotSpace(payload[|payload| - 1])
    ensures (var line := PrintWith(micros, iface, canId, payload);
             line[0] == '(' && NotSpace(line[|line| - 1]) && Strip(line) == line)
  {
    var line := PrintWith(micros, iface, canId, payload);
    var rest := PrintRest(iface, canId, payload);
    assert line[|line| - 1] == rest[|rest| - 1];
    assert rest[|rest| - 1] == ("#" + payload)[|payload|];
    assert line[0] == '(';
  }

  lemma MatchPrintedLine(f: Frame, iface: string)
    requires InterfaceName(iface)
    ensures MatchLine(PrintLine(f, iface)) == Some(Entry(Decimal(f.micros, 6), f.canId, HexOf(f.data)))
  {
    var hex := HexOf(f.data);
    FromHexInverts(f.data);
    assert hex + "" == hex;
    MatchPrinted(f.micros, iface, f.canId, hex);
    MatchPrintedRest(Decimal(f.micros, 6), iface, f.canId, hex, "");
  }

  lemma ReadPrinted(f: Frame, iface: string)
    requires InterfaceName(iface)
    ensures ReadLine(PrintLine(f, iface)) == Parsed(AsRead(f))
  {
    FromHexInverts(f.data);
    PrintedRead(f.micros, iface, f.canId, HexOf(f.data));
    MatchPrintedLine(f, iface);
  }

  /** A remote frame is printed with an R where the payload would be; the reader skips it. */
  lemma RemoteFrameSkipped(micros: nat, iface: string, canId: nat, dlc: string)
    requires InterfaceName(iface) && (dlc == "" || NotSpace(dlc[|dlc| - 1]))
    ensures ReadLine(PrintWith(micros, iface, canId, "R" + dlc)) == Skipped
  {
    PrintedRead(micros, iface, canId, "R" + dlc);
    MatchPrinted(micros, iface, canId, "R" + dlc);
    MatchPrintedRest(Decimal(micros, 6), iface, canId, "", "R" + dlc);
    assert "" + ("R" + dlc) == "R" + dlc;
  }

  predicate OneLine(s: string) { forall i | 0 <= i < |s| :: NotNewline(s[i]) }

  lemma OneLineConcat(a: string, b: string)
    requires OneLine(a) && OneLine(b)
    ensures OneLine(a + b)
  {
  }

  lemma RestIsOneLine(iface: string, canId: nat, payload: string)
    requires InterfaceName(iface) && OneLine(payload)
    ensures OneLine(PrintRest(iface, canId, payload))
  {
    var id := Digits(canId, 16, 3);
    ValueOfDigits(canId, 16, 3);
    OneLineConcat("#", payload);
    OneLineConcat(id, "#" + payload);
    OneLineConcat(" ", id + ("#" + payload));
    OneLineConcat(iface, PrintFrame(canId, payload));
    OneLineConcat(" ", iface + PrintFrame(canId, payload));
  }

  lemma PrintedIsOneLine(micros: nat, iface: string, canId: nat, payload: string)
    requires InterfaceName(iface) && OneLine(payload)
    ensures OneLine(PrintWith(micros, iface, canId, payload))
  {
    var d := TimeDigits(micros);
    ValueOfDigits(micros, 10, 7);
    RestIsOneLine(iface, canId, payload);
    var (seconds, fraction, r3) := (d[..|d| - 6], d[|d| - 6..], ")" + PrintRest(iface, canId, payload));
    OneLineConcat(")", PrintRest(iface, canId, payload));
    OneLineConcat(fraction, r3);
    OneLineConcat(".", fraction + r3);
    OneLineConcat(seconds, "." + (fraction + r3));
    OneLineConcat("(", seconds + ("." + (fraction + r3)));
  }

  // ------------------------------------------------------------- skipped lines

  predicate AllSpaces(s: string) { forall i | 0 <= i < |s| :: IsSpace(s[i]) }

  predicate BlankLine(line: string) { OneLine(line) && AllSpaces(line) }

  /** A `#`, possibly indented. */
  ghost predicate CommentLine(line: string) {
    OneLine(line) && exists n :: 0 <= n < |line| && AllSpaces(line[..n]) && line[n] == '#'
  }

  /** A remote frame of any interface, with or without a length. */
  ghost predicate RemoteLine(line: string) {
    exists micros, iface, canId, dlc ::
      InterfaceName(iface) && AllDigits(10, dlc) && line == PrintWith(micros, iface, canId, "R" + dlc)
  }

  /** White space around a line does not matter. */
  lemma {:induction false} StripExact(left: string, s: string, right: string)
    requires AllSpaces(left) && AllSpaces(right)
    requires s == "" || (NotSpace(s[0]) && NotSpace(s[|s| - 1]))
    ensures Strip(left + (s + right)) == s
  {
    if s == "" {
      assert left + (s + right) == (left + right) + "";
      SpanOfRun(left + right, "", IsSpace);
    } else {
      SpanOfRun(left, s + right, IsSpace);
      assert (left + (s + right))[|left|..] == s + right;
      StripRightSpaces(s, right);
    }
  }

  lemma {:induction false} StripRightSpaces(s: string, right: string)
    requires s != "" && NotSpace(s[|s| - 1]) && AllSpaces(right)
    ensures StripRight(s + right) == s
    decreases |right|
  {
    if right == "" {
      assert s + right == s;
    } else {
      assert (s + right)[..|s + right| - 1] == s + right[..|right| - 1];
      StripRightSpaces(s, right[..|right| - 1]);
    }
  }

  lemma BlankSkipped(line: string)
    requires BlankLine(line)
    ensures SkippedLine(line)
  {
    assert line + "" == line;
    SpanOfRun(line, "", IsSpace);
  }

  lemma {:induction false} StripRightKeepsHead(s: string)
    requires s != "" && NotSpace(s[0])
    ensures StripRight(s) != "" && StripRight(s)[0] == s[0]
    decreases |s|
  {
    if IsSpace(s[|s| - 1]) {
      StripRightKeepsHead(s[..|s| - 1]);
    }
  }

  lemma CommentSkipped(line: string)
    requires CommentLine(line)
    ensures SkippedLine(line)
  {
    var n :| 0 <= n < |line| && AllSpaces(line[..n]) && line[n] == '#';
    assert line == line[..n] + line[n..];
    SpanOfRun(line[..n], line[n..], IsSpace);
    StripRightKeepsHead(line[n..]);
  }

  lemma RemoteSkipped(line: string)
    requires RemoteLine(line)
    ensures SkippedLine(line)
  {
    var micros, iface, canId, dlc :| InterfaceName(iface) && AllDigits(10, dlc)
                                     && line == PrintWith(micros, iface, canId, "R" + dlc);
    RemoteFrameSkipped(micros, iface, canId, dlc);
    OneLineConcat("R", dlc);
    PrintedIsOneLine(micros, iface, canId, "R" + dlc);
  }

  // ------------------------------------------------------------- whole files

  lemma FirstLine(line: string, rest: string)
    requires OneLine(line)
    ensures Lines(line + "\n" + rest) == [line] + Lines(rest)
  {
    var text := line + "\n" + rest;
    assert text == line + ("\n" + rest);
    SpanOfRun(line, "\n" + rest, NotNewline);
    assert text[..|line|] == line && text[|line| + 1..] == rest;
  }

  /** The last line need not be ended. */
  lemma LastLine(line: string)
    requires OneLine(line) && line != ""
    ensures Lines(line) == [line]
  {
    assert line + "" == line;
    SpanOfRun(line, "", NotNewline);
  }

  lemma ReadOneMore(line: string, rest: string)
    requires OneLine(line)
    ensures ReadCandump(line + "\n" + rest)
         == match ReadLine(line)
            case Malformed => None
            case Skipped => ReadCandump(rest)
            case Parsed(f) => Prepend([f], ReadCandump(rest))
  {
    FirstLine(line, rest);
    var lines := [line] + Lines(rest);
    assert lines[1..] == Lines(rest) && lines[0..] == lines;
    ReadLinesStep(lines, 0);
  }

  /** Reading what was written gives the same frames in order, whatever lines the reader skips stand
      between them. */
  lemma {:induction false} ReadAfterWrite(items: seq<Item>, iface: string)
    requires InterfaceName(iface)
    requires forall i | 0 <= i < |items| :: items[i].Other? ==> SkippedLine(items[i].line)
    ensures ReadCandump(Text(items, iface)) == Some(FramesOf(items))
  {
    if items != [] {
      ReadAfterWrite(items[1..], iface);
      var rest := Text(items[1..], iface);
      match items[0] {
        case Sent(f) =>
          FromHexInverts(f.data);
          PrintedIsOneLine(f.micros, iface, f.canId, HexOf(f.data));
          ReadOneMore(PrintLine(f, iface), rest);
          ReadPrinted(f, iface);
        case Other(line) =>
          ReadOneMore(line, rest);
          PrependNothing(Some(FramesOf(items[1..])));
      }
    }
  }

  /** Comments, blank lines and remote frames, inserted anywhere in what was written, change nothing. */
  lemma ReadAmongOtherLines(items: seq<Item>, iface: string)
    requires InterfaceName(iface)
    requires forall i | 0 <= i < |items| && items[i].Other? ::
               BlankLine(items[i].line) || CommentLine(items[i].line) || RemoteLine(items[i].line)
    ensures ReadCandump(Text(items, iface)) == Some(FramesOf(items))
  {
    forall i | 0 <= i < |items| && items[i].Other? ensures SkippedLine(items[i].line) {
      if BlankLine(items[i].line) {
        BlankSkipped(items[i].line);
      } else if CommentLine(items[i].line) {
        CommentSkipped(items[i].line);
      } else {
        RemoteSkipped(items[i].line);
      }
    }
    ReadAfterWrite(items, iface);
  }
}
