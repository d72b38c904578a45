/** The `# YYYYMM-N` title label of internal/parser/retro_metadata.go. */
module RetroLabels {
  import opened Options
  import opened Text
  import opened Decimal

  const MAX_INT32: nat := 0x7fff_ffff
  const BOM: string := "\U{FEFF}"

  datatype RetroLabel = RetroLabel(month: string, sequence: int)

  predicate IsTrailing(c: char) {
    c == ' ' || c == '\t' || c == '\r'
  }

  /** `strings.TrimRight(line, " \t\r")`. */
  function TrimTrailing(line: string): string {
    if line != [] && IsTrailing(line[|line| - 1]) then TrimTrailing(line[..|line| - 1]) else line
  }

  /** `^# ([0-9]{4})(0[1-9]|1[0-2])-([1-9][0-9]*)$` */
  predicate MatchesHeading(line: string) {
    && |line| >= 10
    && line[..2] == "# "
    && AllDigits(line[2..6])
    && ((line[6] == '0' && '1' <= line[7] <= '9') || (line[6] == '1' && '0' <= line[7] <= '2'))
    && line[8] == '-'
    && line[9] != '0' && AllDigits(line[9..])
  }

  /** The label of the first line that is not blank. */
  function LabelOfLine(line: string): Option<RetroLabel> {
    var text := TrimTrailing(line);
    if !MatchesHeading(text) || text[2..6] == "0000" then None
    else if Value(text[9..]) > MAX_INT32 then None
    else Some(RetroLabel(text[2..6] + "-" + text[6..8], Value(text[9..])))
  }

  function LabelOfLines(lines: seq<string>): Option<RetroLabel> {
    if lines == [] then None
    else if TrimSpace(lines[0]) == [] then LabelOfLines(lines[1..])
    else LabelOfLine(lines[0])
  }

  /** `strings.TrimPrefix` of the byte order mark. */
  function WithoutBOM(content: string): string {
    if |content| >= 1 && content[..1] == BOM then content[1..] else content
  }

  function Extracted(content: string): Option<RetroLabel> {
    LabelOfLines(Split(WithoutBOM(content), '\n'))
  }

  method ExtractRetroLabel(content: string) returns (found: Option<RetroLabel>)
    ensures found == Extracted(content)
  {
    var lines := Split(WithoutBOM(content), '\n');
    for i := 0 to |lines|
      invariant LabelOfLines(lines[i..]) == Extracted(content)
    {
      if TrimSpace(lines[i]) == "" {
        continue;
      }
      var text := TrimTrailing(lines[i]);
      if !MatchesHeading(text) || text[2..6] == "0000" {
        return None;
      }
      var sequence := Value(text[9..]);
      if sequence > MAX_INT32 {
        return None;
      }
      return Some(RetroLabel(text[2..6] + "-" + text[6..8], sequence));
    }
    found := None;
  }

  // ---------------------------------------------------------- the printed form

  function MonthString(year: nat, month: nat): string {
    Padded(year, 4) + "-" + Padded(month, 2)
  }

  predicate InRange(year: int, month: int, sequence: int) {
    1 <= year <= 9999 && 1 <= month <= 12 && 1 <= sequence <= 2_147_483_647
  }

  function LabelOf(year: nat, month: nat, sequence: nat): RetroLabel {
    RetroLabel(MonthString(year, month), sequence)
  }

  /** The title line of a label. */
  function Printed(year: nat, month: nat, sequence: nat): string {
    "# " + Padded(year, 4) + Padded(month, 2) + "-" + Numeral(sequence)
  }

  lemma MonthDigits(month: nat)
    requires 1 <= month <= 12
    ensures var m := Padded(month, 2);
            (m[0] == '0' && '1' <= m[1] <= '9') || (m[0] == '1' && '0' <= m[1] <= '2')
  {
    assert Padded(month, 2) == Padded(month / 10, 1) + [Digit(month % 10)];
    assert Padded(month / 10, 1) == [Digit(month / 10 % 10)];
  }

  lemma PrintedParts(year: nat, month: nat, sequence: nat)
    requires InRange(year, month, sequence)
    ensures var text := Printed(year, month, sequence);
            && MatchesHeading(text)
            && text[2..6] == Padded(year, 4) && text[6..8] == Padded(month, 2)
            && text[9..] == Numeral(sequence)
  {
    var text := Printed(year, month, sequence);
    var y, m, n := Padded(year, 4), Padded(month, 2), Numeral(sequence);
    assert Pow10(4) == 10000;
    ValuePadded(year, 4);
    MonthDigits(month);
    ValueNumeral(sequence);
    assert text[2..6] == y && text[6..8] == m && text[9..] == n;
    assert text[6] == text[6..8][0] && text[7] == text[6..8][1] && text[9] == text[9..][0];
  }

  /** What is cut are blanks, tabs and carriage returns only, and all of them. */
  lemma {:induction false} TrimTrailingSpec(line: string) returns (tail: string)
    ensures line == TrimTrailing(line) + tail
    ensures forall i :: 0 <= i < |tail| ==> tail[i] == ' ' || tail[i] == '\t' || tail[i] == '\r'
  {
    if line != [] && IsTrailing(line[|line| - 1]) {
      var init, last := line[..|line| - 1], line[|line| - 1];
      var rest := TrimTrailingSpec(init);
      tail := rest + [last];
      assert line == init + [last];
    } else {
      tail := [];
    }
  }

  lemma {:induction false} TrimTrailingSkips(text: string, tail: string)
    requires text != [] && !IsTrailing(text[|text| - 1])
    requires forall i :: 0 <= i < |tail| ==> IsTrailing(tail[i])
    ensures TrimTrailing(text + tail) == text
  {
    if tail == [] {
      assert text + tail == text;
    } else {
      assert (text + tail)[..|text + tail| - 1] == text + tail[..|tail| - 1];
      TrimTrailingSkips(text, tail[..|tail| - 1]);
    }
  }

  lemma LabelOfPrintedLine(year: nat, month: nat, sequence: nat, tail: string)
    requires InRange(year, month, sequence)
    requires forall i :: 0 <= i < |tail| ==> IsTrailing(tail[i])
    ensures LabelOfLine(Printed(year, month, sequence) + tail) == Some(LabelOf(year, month, sequence))
    ensures TrimSpace(Printed(year, month, sequence) + tail) != []
  {
    var text := Printed(year, month, sequence);
    PrintedParts(year, month, sequence);
    assert IsDigit(text[9..][|text| - 10]);
    TrimTrailingSkips(text, tail);
    ValueNumeral(sequence);
    assert Pow10(4) == 10000;
    PaddedOrder(year, 0, 4);
    ZeroYear();
    TrimSpaceBlank(text + tail);
    assert (text + tail)[0] == '#';
  }

  lemma ZeroYear()
    ensures Padded(0, 4) == "0000"
  {
    assert Padded(0, 1) == "0" && Padded(0, 2) == "00" && Padded(0, 3) == "000";
  }

  /** The lines before the title: each blank and on its own line. */
  function BlankLines(blanks: seq<string>): string {
    if blanks == [] then [] else blanks[0] + "\n" + BlankLines(blanks[1..])
  }

  lemma {:induction false} SkipBlankLines(blanks: seq<string>, text: string)
    requires forall i :: 0 <= i < |blanks| ==> Blank(blanks[i]) && '\n' !in blanks[i]
    ensures LabelOfLines(Split(BlankLines(blanks) + text, '\n')) == LabelOfLines(Split(text, '\n'))
  {
    if blanks == [] {
      assert BlankLines(blanks) + text == text;
    } else {
      var rest := BlankLines(blanks[1..]) + text;
      assert BlankLines(blanks) + text == blanks[0] + ['\n'] + rest;
      SplitAt(blanks[0], rest, '\n');
      SplitNone(blanks[0], '\n');
      TrimSpaceBlank(blanks[0]);
      assert ([blanks[0]] + Split(rest, '\n'))[1..] == Split(rest, '\n');
      SkipBlankLines(blanks[1..], text);
    }
  }

  /** A document titled with a label: optional BOM, blank lines, label, trailing blanks, any rest. */
  function Titled(bom: bool, blanks: seq<string>, title: string, tail: string, rest: Option<string>): string {
    (if bom then BOM else "") + (BlankLines(blanks) + Continued(title + tail, rest))
  }

  /** What a title line is followed by. */
  function Continued(line: string, rest: Option<string>): string {
    line + (if rest.Some? then "\n" + rest.value else "")
  }

  lemma LabelOfContinued(line: string, rest: Option<string>)
    requires '\n' !in line && TrimSpace(line) != []
    ensures LabelOfLines(Split(Continued(line, rest), '\n')) == LabelOfLine(line)
  {
    SplitNone(line, '\n');
    if rest.Some? {
      assert Continued(line, rest) == line + ['\n'] + rest.value;
      SplitAt(line, rest.value, '\n');
    } else {
      assert Continued(line, rest) == line;
    }
  }

  lemma StripBOM(bom: bool, text: string)
    requires text != [] && text[0] != BOM[0]
    ensures WithoutBOM((if bom then BOM else "") + text) == text
  {
    if bom {
      assert (BOM + text)[..1] == BOM && (BOM + text)[1..] == text;
    } else {
      assert "" + text == text;
      assert text[..1][0] == text[0];
    }
  }

  lemma FirstRune(blanks: seq<string>, text: string)
    requires text != [] && text[0] == '#'
    requires forall i :: 0 <= i < |blanks| ==> Blank(blanks[i])
    ensures var all := BlankLines(blanks) + text;
            all != [] && all[0] != BOM[0]
  {
    if blanks != [] {
      assert Blank(blanks[0]);
      assert BlankLines(blanks)[0] == (blanks[0] + "\n")[0];
    }
  }

  /** The title of a document decides its label, whatever surrounds it. */
  lemma ExtractTitled(bom: bool, blanks: seq<string>, title: string, tail: string, rest: Option<string>)
    requires title != [] && title[0] == '#'
    requires '\n' !in title + tail && TrimSpace(title + tail) != []
    requires forall i :: 0 <= i < |blanks| ==> Blank(blanks[i]) && '\n' !in blanks[i]
    ensures Extracted(Titled(bom, blanks, title, tail, rest)) == LabelOfLine(title + tail)
  {
    var line := title + tail;
    var text := BlankLines(blanks) + Continued(line, rest);
    FirstRune(blanks, Continued(line, rest));
    StripBOM(bom, text);
    SkipBlankLines(blanks, Continued(line, rest));
    LabelOfContinued(line, rest);
  }

  /** Extraction undoes printing. */
  lemma ExtractPrinted(year: nat, month: nat, sequence: nat,
                       bom: bool, blanks: seq<string>, tail: string, rest: Option<string>)
    requires InRange(year, month, sequence)
    requires forall i :: 0 <= i < |blanks| ==> Blank(blanks[i]) && '\n' !in blanks[i]
    requires forall i :: 0 <= i < |tail| ==> tail[i] == ' ' || tail[i] == '\t' || tail[i] == '\r'
    ensures Extracted(Titled(bom, blanks, Printed(year, month, sequence), tail, rest))
         == Some(LabelOf(year, month, sequence))
  {
    LabelOfPrintedLine(year, month, sequence, tail);
    PrintedNoNewline(year, month, sequence);
    ExtractTitled(bom, blanks, Printed(year, month, sequence), tail, rest);
  }

  lemma PrintedNoNewline(year: nat, month: nat, sequence: nat)
    requires InRange(year, month, sequence)
    ensures '\n' !in Printed(year, month, sequence)
  {
    var text := Printed(year, month, sequence);
    PrintedParts(year, month, sequence);
    forall i | 0 <= i < |text| ensures text[i] != '\n' {
      if 2 <= i < 6 { assert text[i] == text[2..6][i - 2]; }
      if 9 <= i { assert text[i] == text[9..][i - 9]; }
      if i < 2 { assert text[i] == text[..2][i]; }
    }
  }

  /** A document as Windows editors save it: byte order mark, label, blanks, CR LF, any rest. */
  lemma ExtractWindowsTitle(year: nat, month: nat, sequence: nat, rest: string)
    requires InRange(year, month, sequence)
    ensures Extracted("\U{FEFF}" + Printed(year, month, sequence) + " \t\r\n" + rest)
         == Some(LabelOf(year, month, sequence))
  {
    var title := Printed(year, month, sequence);
    ExtractPrinted(year, month, sequence, true, [], " \t\r", Some(rest));
    WindowsTitle(title, rest);
  }

  lemma WindowsTitle(title: string, rest: string)
    ensures Titled(true, [], title, " \t\r", Some(rest)) == "\U{FEFF}" + title + " \t\r\n" + rest
  {
    var line := title + " \t\r";
    assert BlankLines([]) + Continued(line, Some(rest)) == Continued(line, Some(rest));
    assert line + ("\n" + rest) == title + " \t\r\n" + rest;
    assert BOM + (title + " \t\r\n" + rest) == "\U{FEFF}" + title + " \t\r\n" + rest;
  }

  lemma LabelExample()
    ensures Printed(2026, 11, 2) == "# 202611-2" && LabelOf(2026, 11, 2) == RetroLabel("2026-11", 2)
  {
    YearExample();
    MonthExample();
  }

  lemma YearExample()
    ensures Padded(2026, 4) == "2026"
  {
    PaddedDigit(2026, 4);
    PaddedDigit(202, 3);
    PaddedDigit(20, 2);
    PaddedDigit(2, 1);
  }

  lemma MonthExample()
    ensures Padded(11, 2) == "11" && Numeral(2) == "2"
  {
    PaddedDigit(11, 2);
    PaddedDigit(1, 1);
  }

  lemma PaddedDigit(n: nat, w: nat)
    requires w > 0
    ensures Padded(n, w) == Padded(n / 10, w - 1) + [Digit(n % 10)]
  {
  }

  /** The first line that is not blank. */
  ghost predicate FirstNonBlank(lines: seq<string>, k: nat) {
    && k < |lines| && !Blank(lines[k])
    && forall i :: 0 <= i < k ==> Blank(lines[i])
  }

  lemma MonthFromDigits(m: string) returns (month: nat)
    requires |m| == 2
    requires (m[0] == '0' && '1' <= m[1] <= '9') || (m[0] == '1' && '0' <= m[1] <= '2')
    ensures 1 <= month <= 12 && Padded(month, 2) == m
  {
    assert AllDigits(m);
    month := Value(m);
    PaddedValue(m);
    assert m[..1] == [m[0]] && m[..1][..0] == [];
    assert Value(m[..1]) == (m[0] - '0') as nat;
  }

  lemma HeadingParts(text: string)
    requires MatchesHeading(text)
    ensures text == "# " + (text[2..6] + text[6..8]) + "-" + text[9..]
  {
    assert text == text[..2] + text[2..6] + text[6..8] + [text[8]] + text[9..];
  }

  /** A line that matches, with a year and a number in range, is a printed label. */
  lemma PrintedLine(text: string) returns (year: nat, month: nat, sequence: nat)
    requires MatchesHeading(text) && text[2..6] != "0000" && Value(text[9..]) <= MAX_INT32
    ensures InRange(year, month, sequence)
    ensures Padded(year, 4) == text[2..6] && Padded(month, 2) == text[6..8] && Numeral(sequence) == text[9..]
    ensures sequence == Value(text[9..])
  {
    year, sequence := Value(text[2..6]), Value(text[9..]);
    PaddedValue(text[2..6]);
    assert Pow10(4) == 10000;
    ZeroYear();
    NumeralValue(text[9..]);
    month := MonthFromDigits(text[6..8]);
  }

  lemma LabelOfLineConverse(line: string) returns (year: nat, month: nat, sequence: nat)
    requires LabelOfLine(line).Some?
    ensures InRange(year, month, sequence)
    ensures LabelOfLine(line) == Some(LabelOf(year, month, sequence))
    ensures TrimTrailing(line) == Printed(year, month, sequence)
  {
    var text := TrimTrailing(line);
    year, month, sequence := PrintedLine(text);
    HeadingParts(text);
  }

  lemma {:induction false} LabelOfLinesConverse(lines: seq<string>)
      returns (k: nat, year: nat, month: nat, sequence: nat)
    requires LabelOfLines(lines).Some?
    ensures FirstNonBlank(lines, k) && InRange(year, month, sequence)
    ensures LabelOfLines(lines) == Some(LabelOf(year, month, sequence))
    ensures TrimTrailing(lines[k]) == Printed(year, month, sequence)
  {
    TrimSpaceBlank(lines[0]);
    if TrimSpace(lines[0]) == [] {
      var j;
      j, year, month, sequence := LabelOfLinesConverse(lines[1..]);
      k := j + 1;
    } else {
      k := 0;
      year, month, sequence := LabelOfLineConverse(lines[0]);
    }
  }

  /** Printing undoes extraction: an extracted label prints to the trimmed first non-blank line. */
  lemma PrintExtracted(content: string)
      returns (k: nat, year: nat, month: nat, sequence: nat, tail: string)
    requires Extracted(content).Some?
    ensures InRange(year, month, sequence)
    ensures Extracted(content) == Some(LabelOf(year, month, sequence))
    ensures var lines := Split(if content != [] && content[0] == '\U{FEFF}' then content[1..] else content, '\n');
            FirstNonBlank(lines, k) && lines[k] == Printed(year, month, sequence) + tail
    ensures forall i :: 0 <= i < |tail| ==> tail[i] == ' ' || tail[i] == '\t' || tail[i] == '\r'
  {
    var lines := Split(WithoutBOM(content), '\n');
    k, year, month, sequence := LabelOfLinesConverse(lines);
    tail := TrimTrailingSpec(lines[k]);
  }

  /** The string order of months is chronological. */
  lemma MonthOrder(y1: nat, m1: nat, y2: nat, m2: nat)
    requires y1 <= 9999 && y2 <= 9999 && m1 <= 12 && m2 <= 12
    ensures LexLess(MonthString(y1, m1), MonthString(y2, m2)) <==> y1 < y2 || (y1 == y2 && m1 < m2)
    ensures MonthString(y1, m1) == MonthString(y2, m2) <==> y1 == y2 && m1 == m2
  {
    assert Pow10(2) == 100 && Pow10(4) == 10000;
    PaddedOrder(y1, y2, 4);
    PaddedOrder(m1, m2, 2);
    var a, b := Padded(y1, 4), Padded(y2, 4);
    var u, v := Padded(m1, 2), Padded(m2, 2);
    assert MonthString(y1, m1) == a + ("-" + u) && MonthString(y2, m2) == b + ("-" + v);
    LexPrefix(a, "-" + u, b, "-" + v);
    LexPrefix("-", u, "-", v);
    LexIrreflexive("-");
    assert MonthString(y1, m1)[..4] == a && MonthString(y2, m2)[..4] == b;
    assert MonthString(y1, m1)[5..] == u && MonthString(y2, m2)[5..] == v;
  }
}
