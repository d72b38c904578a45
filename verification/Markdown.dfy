/** The heading-based Markdown chunker of internal/parser/md.go. */
module Markdown {
  import opened Text

  const DEFAULT_MAX_CHUNK_CHARS := 4000

  // -------------------------------------------------------------- the pieces

  /** Length of the run of `#` at position p of s. */
  function Hashes(s: string, p: nat): nat
    decreases |s| - p
  {
    if p < |s| && s[p] == '#' then 1 + Hashes(s, p + 1) else 0
  }

  /** One or more `#` followed by a blank, at position p of s. */
  predicate HeadingAt(s: string, p: nat) {
    var end := p + Hashes(s, p);
    p < end < |s| && s[end] == ' '
  }

  predicate Heading(line: string) {
    HeadingAt(line, 0)
  }

  /** `strings.ReplaceAll(s, "\r\n", "\n")`. */
  function ReplaceCRLF(s: string): string {
    if |s| >= 2 && s[0] == '\r' && s[1] == '\n' then ['\n'] + ReplaceCRLF(s[2..])
    else if s == [] then []
    else [s[0]] + ReplaceCRLF(s[1..])
  }

  predicate HasCRLF(s: string) {
    exists i :: 0 <= i < |s| - 1 && s[i] == '\r' && s[i + 1] == '\n'
  }

  /** The line groups the section loop forms: every heading but one on line 0 opens a group. */
  function Groups(lines: seq<string>): (groups: seq<seq<string>>)
    requires lines != []
    ensures groups != []
  {
    if |lines| == 1 then [lines]
    else
      var before := Groups(lines[..|lines| - 1]);
      var line := lines[|lines| - 1];
      if Heading(line) then before + [[line]]
      else before[..|before| - 1] + [before[|before| - 1] + [line]]
  }

  /** The section a group yields: none when it is blank. */
  function Rendered(group: seq<string>): seq<string> {
    var section := TrimSpace(Join(group, "\n"));
    if section != [] then [section] else []
  }

  function RenderAll(groups: seq<seq<string>>): seq<string> {
    if groups == [] then []
    else RenderAll(groups[..|groups| - 1]) + Rendered(groups[|groups| - 1])
  }

  function Lines(content: string): (lines: seq<string>)
    ensures lines != []
  {
    Split(ReplaceCRLF(content), '\n')
  }

  function Sections(content: string): seq<string> {
    RenderAll(Groups(Lines(content)))
  }

  /** A text cut after every `max` runes. */
  function Pieces(content: string, max: nat): seq<string>
    requires max > 0
  {
    if |content| <= max then [content]
    else [content[..max]] + Pieces(content[max..], max)
  }

  function PiecesOf(sections: seq<string>): seq<string> {
    if sections == [] then []
    else PiecesOf(sections[..|sections| - 1]) + Pieces(sections[|sections| - 1], DEFAULT_MAX_CHUNK_CHARS)
  }

  /** The chunks of a Markdown document. */
  function Chunks(content: string): seq<string> {
    PiecesOf(Sections(content))
  }

  // ------------------------------------------------------------- the parser

  method IsHeading(line: string) returns (heading: bool)
    ensures heading <==> Heading(line)
  {
    if |line| == 0 || line[0] != '#' {
      return false;
    }
    var level := 0;
    while level < |line| && line[level] == '#'
      invariant 0 <= level <= |line|
      invariant level + Hashes(line, level) == Hashes(line, 0)
    {
      level := level + 1;
    }
    heading := level < |line| && line[level] == ' ';
  }

  /** Groups, one line further. */
  function Extended(groups: seq<seq<string>>, line: string, opens: bool): seq<seq<string>>
    requires groups != []
  {
    if opens then groups + [[line]] else groups[..|groups| - 1] + [groups[|groups| - 1] + [line]]
  }

  lemma GroupsSnoc(lines: seq<string>, line: string)
    requires lines != []
    ensures Groups(lines + [line]) == Extended(Groups(lines), line, Heading(line))
  {
    var all := lines + [line];
    assert all[..|all| - 1] == lines && all[|all| - 1] == line;
  }

  /** The section loop's state: the open group, and the sections of the groups before it. */
  ghost predicate Accumulated(lines: seq<string>, sections: seq<string>, current: seq<string>) {
    if lines == [] then sections == [] && current == []
    else
      var gs := Groups(lines);
      current != [] && current == gs[|gs| - 1] && sections == RenderAll(gs[..|gs| - 1])
  }

  lemma FirstLine(line: string)
    ensures Accumulated([line], [], [line])
  {
  }

  /** A heading closes the open group. */
  lemma HeadingLine(lines: seq<string>, line: string, sections: seq<string>, current: seq<string>)
    requires lines != [] && Accumulated(lines, sections, current) && Heading(line)
    ensures Accumulated(lines + [line], sections + Rendered(current), [line])
  {
    GroupsSnoc(lines, line);
    var gs := Groups(lines);
    assert (gs + [[line]])[..|gs|] == gs;
  }

  /** Any other line joins it. */
  lemma PlainLine(lines: seq<string>, line: string, sections: seq<string>, current: seq<string>)
    requires lines != [] && Accumulated(lines, sections, current) && !Heading(line)
    ensures Accumulated(lines + [line], sections, current + [line])
  {
    GroupsSnoc(lines, line);
    var gs := Groups(lines);
    assert (gs[..|gs| - 1] + [current + [line]])[..|gs| - 1] == gs[..|gs| - 1];
  }

  /** The loop's step. */
  lemma NextLine(lines: seq<string>, line: string, sections: seq<string>, current: seq<string>)
    requires Accumulated(lines, sections, current)
    ensures if Heading(line) && |current| > 0 then Accumulated(lines + [line], sections + Rendered(current), [line])
            else Accumulated(lines + [line], sections, current + [line])
  {
    if lines == [] {
      assert lines + [line] == [line] && current + [line] == [line];
      FirstLine(line);
    } else if Heading(line) {
      HeadingLine(lines, line, sections, current);
    } else {
      PlainLine(lines, line, sections, current);
    }
  }

  predicate Closes(line: string, current: seq<string>) {
    Heading(line) && |current| > 0
  }

  lemma NextLineOf(lines: seq<string>, i: nat, sections: seq<string>, current: seq<string>)
    requires i < |lines| && Accumulated(lines[..i], sections, current)
    ensures Closes(lines[i], current) ==> Accumulated(lines[..i + 1], sections + Rendered(current), [] + [lines[i]])
    ensures !Closes(lines[i], current) ==> Accumulated(lines[..i + 1], sections, current + [lines[i]])
  {
    NextLine(lines[..i], lines[i], sections, current);
    assert lines[..i + 1] == lines[..i] + [lines[i]];
    assert [] + [lines[i]] == [lines[i]];
  }

  /** After the last line the open group is closed. */
  lemma LastLine(lines: seq<string>, sections: seq<string>, current: seq<string>)
    requires lines != [] && Accumulated(lines[..|lines|], sections, current)
    ensures sections + Rendered(current) == RenderAll(Groups(lines))
  {
    assert lines[..|lines|] == lines;
  }

  /** Closing a group, which the loop and its end both do. */
  method CloseGroup(sections: seq<string>, current: seq<string>) returns (more: seq<string>)
    ensures more == sections + Rendered(current)
  {
    more := sections;
    var section := TrimSpace(Join(current, "\n"));
    if section != "" {
      more := more + [section];
    }
  }

  method SplitMarkdownSections(content: string) returns (sections: seq<string>)
    ensures sections == Sections(content)
  {
    var lines := Split(ReplaceCRLF(content), '\n');
    sections := [];
    var current: seq<string> := [];
    for i := 0 to |lines|
      invariant Accumulated(lines[..i], sections, current)
    {
      NextLineOf(lines, i, sections, current);
      var heading := IsHeading(lines[i]);
      if heading && |current| > 0 {
        sections := CloseGroup(sections, current);
        current := [];
      }
      current := current + [lines[i]];
    }
    LastLine(lines, sections, current);
    sections := CloseGroup(sections, current);
  }

  /** The pieces from a position on. */
  function PiecesFrom(content: string, start: nat, max: nat): seq<string>
    requires max > 0
  {
    if start < |content| then Pieces(content[start..], max) else []
  }

  function PieceEnd(content: string, start: nat, max: nat): (end: nat) {
    if start + max > |content| then |content| else start + max
  }

  method SplitLongChunk(content: string, maxChars: nat) returns (chunks: seq<string>)
    requires maxChars > 0
    ensures chunks == Pieces(content, maxChars)
  {
    if |content| <= maxChars {
      return [content];
    }
    chunks := [];
    var start := 0;
    assert content[0..] == content;
    while start < |content|
      invariant chunks + PiecesFrom(content, start, maxChars) == Pieces(content, maxChars)
    {
      var end := start + maxChars;
      if end > |content| {
        end := |content|;
      }
      NextPiece(content, start, maxChars, chunks);
      chunks := chunks + [content[start..end]];
      start := start + maxChars;
    }
  }

  /** The cutting loop's step. */
  lemma NextPiece(content: string, start: nat, max: nat, chunks: seq<string>)
    requires max > 0 && start < |content|
    ensures chunks + [content[start..PieceEnd(content, start, max)]] + PiecesFrom(content, start + max, max)
            == chunks + PiecesFrom(content, start, max)
  {
    var piece, later := content[start..PieceEnd(content, start, max)], PiecesFrom(content, start + max, max);
    PieceAt(content, start, max);
    assert chunks + [piece] + later == chunks + ([piece] + later);
  }

  lemma PieceAt(content: string, start: nat, max: nat)
    requires max > 0 && start < |content|
    ensures PiecesFrom(content, start, max)
            == [content[start..PieceEnd(content, start, max)]] + PiecesFrom(content, start + max, max)
  {
    var rest, end := content[start..], PieceEnd(content, start, max);
    PieceStep(rest, max);
    assert rest[..end - start] == content[start..end] && rest[end - start..] == content[end..];
  }

  lemma PieceStep(content: string, max: nat)
    requires max > 0 && content != []
    ensures var end := if max > |content| then |content| else max;
            Pieces(content, max)
            == [content[..end]] + (if max < |content| then Pieces(content[end..], max) else [])
  {
    if |content| <= max {
      assert content[..|content|] == content;
    }
  }

  method Parse(content: string) returns (chunks: seq<string>)
    ensures chunks == Chunks(content)
  {
    var sections := SplitMarkdownSections(content);
    chunks := [];
    for i := 0 to |sections|
      invariant chunks == PiecesOf(sections[..i])
    {
      var pieces := SplitLongChunk(sections[i], DEFAULT_MAX_CHUNK_CHARS);
      assert sections[..i + 1][..i] == sections[..i];
      chunks := chunks + pieces;
    }
    assert sections[..|sections|] == sections;
  }

  // ------------------------------------------------- cutting a long section

  lemma PiecesCons(content: string, max: nat)
    requires max > 0 && |content| > max
    ensures var ps := Pieces(content, max);
            |ps| >= 1 && ps[0] == content[..max] && ps[1..] == Pieces(content[max..], max)
    ensures content[..max] + content[max..] == content
  {
    HeadAndTail(content[..max], Pieces(content[max..], max));
    TakeAndDrop(content, max);
  }

  lemma HeadAndTail(piece: string, rest: seq<string>)
    ensures ([piece] + rest)[0] == piece && ([piece] + rest)[1..] == rest
  {
  }

  lemma TakeAndDrop(content: string, n: nat)
    requires n <= |content|
    ensures content[..n] + content[n..] == content
  {
  }

  lemma {:induction false} PiecesConcat(content: string, max: nat)
    requires max > 0
    ensures Concat(Pieces(content, max)) == content
  {
    if |content| <= max {
      ConcatOne(content);
    } else {
      PiecesCons(content, max);
      PiecesConcat(content[max..], max);
    }
  }

  lemma OneMoreMultiple(count: nat, max: nat, length: int)
    requires (count - 1) * max < length - max <= count * max
    ensures count * max < length <= (count + 1) * max
  {
  }

  lemma {:induction false} PiecesCount(content: string, max: nat)
    requires max > 0 && content != []
    ensures (|Pieces(content, max)| - 1) * max < |content| <= |Pieces(content, max)| * max
  {
    if |content| > max {
      PiecesCons(content, max);
      PiecesCount(content[max..], max);
      OneMoreMultiple(|Pieces(content[max..], max)|, max, |content|);
    }
  }

  lemma {:induction false} PiecesSizes(content: string, max: nat)
    requires max > 0
    ensures var ps := Pieces(content, max);
            && ps != [] && (forall k :: 0 <= k < |ps| - 1 ==> |ps[k]| == max) && |ps[|ps| - 1]| <= max
            && (if content == [] then ps == [[]] else forall k :: 0 <= k < |ps| ==> ps[k] != [])
  {
    if |content| > max {
      var ps, rest := Pieces(content, max), Pieces(content[max..], max);
      PiecesCons(content, max);
      PiecesSizes(content[max..], max);
      assert forall k :: 0 < k < |ps| ==> ps[k] == rest[k - 1];
    }
  }

  /**
   * Cutting after every max runes keeps the text. A non-empty section gives
   * ceil(n / max) non-empty pieces, all but the last of exactly max runes; the
   * empty section, which Parse never passes, gives one empty piece.
   */
  lemma PiecesSpec(content: string, max: nat)
    requires max > 0
    ensures var ps := Pieces(content, max);
            && Concat(ps) == content
            && (content != [] ==> (|ps| - 1) * max < |content| <= |ps| * max)
            && (forall k :: 0 <= k < |ps| - 1 ==> |ps[k]| == max)
            && |ps| > 0 && |ps[|ps| - 1]| <= max
            && (if content == [] then ps == [[]] else forall k :: 0 <= k < |ps| ==> ps[k] != [])
  {
    PiecesConcat(content, max);
    PiecesSizes(content, max);
    if content != [] {
      PiecesCount(content, max);
    }
  }

  /** The limit is 4000 runes: up to it a section is one chunk, beyond it no piece is longer. */
  lemma ChunkLimit(section: string)
    ensures |section| <= 4000 ==> Pieces(section, DEFAULT_MAX_CHUNK_CHARS) == [section]
    ensures |section| > 4000 ==> Pieces(section, DEFAULT_MAX_CHUNK_CHARS)[0] == section[..4000]
  {
  }

  // ------------------------------------------------------------ line ends

  lemma BreakAhead(s: string, t: string)
    requires s == ['\r', '\n'] + t
    ensures ReplaceCRLF(s) == ['\n'] + ReplaceCRLF(t)
  {
    assert s[2..] == t;
  }

  lemma RuneAhead(s: string, c: char, t: string)
    requires s == [c] + t && !(c == '\r' && t != [] && t[0] == '\n')
    ensures ReplaceCRLF(s) == [c] + ReplaceCRLF(t)
  {
    assert s[1..] == t;
  }

  lemma Reassociate<T>(first: T, left: seq<T>, right: seq<T>)
    ensures ([first] + left) + right == [first] + (left + right)
  {
  }

  lemma BreakBefore(a: string, x: string)
    requires |a| >= 2 && a[0] == '\r' && a[1] == '\n'
    ensures a == ['\r', '\n'] + a[2..] && a + x == ['\r', '\n'] + (a[2..] + x)
  {
  }

  lemma RuneBefore(a: string, x: string)
    requires a != [] && x != [] && x[0] == '\r' && !(|a| >= 2 && a[0] == '\r' && a[1] == '\n')
    ensures a == [a[0]] + a[1..] && a + x == [a[0]] + (a[1..] + x)
    ensures (a[1..] + x)[0] == (if |a| >= 2 then a[1] else '\r')
  {
  }

  /** A CR LF becomes one line feed, wherever it stands. */
  lemma {:induction false} ReplaceAt(a: string, b: string)
    ensures ReplaceCRLF(a + ("\r\n" + b)) == ReplaceCRLF(a) + ("\n" + ReplaceCRLF(b))
  {
    var x, y := "\r\n" + b, "\n" + ReplaceCRLF(b);
    if a == [] {
      assert a + x == x;
      BreakAhead(x, b);
      assert ReplaceCRLF(a) == [];
    } else if |a| >= 2 && a[0] == '\r' && a[1] == '\n' {
      ReplaceAt(a[2..], b);
      BreakBefore(a, x);
      BreakAhead(a, a[2..]);
      BreakAhead(a + x, a[2..] + x);
      Reassociate('\n', ReplaceCRLF(a[2..]), y);
    } else {
      ReplaceAt(a[1..], b);
      RuneBefore(a, x);
      RuneAhead(a, a[0], a[1..]);
      RuneAhead(a + x, a[0], a[1..] + x);
      Reassociate(a[0], ReplaceCRLF(a[1..]), y);
    }
  }

  /** Every line feed written as CR LF. */
  function WithCRLF(s: string): string {
    if s == [] then [] else (if s[0] == '\n' then "\r\n" else [s[0]]) + WithCRLF(s[1..])
  }

  lemma ReplaceOther(c: char, t: string)
    requires c != '\r'
    ensures ReplaceCRLF([c] + t) == [c] + ReplaceCRLF(t)
  {
    assert ([c] + t)[1..] == t;
  }

  lemma {:induction false} ReplaceUndoes(s: string)
    requires '\r' !in s
    ensures ReplaceCRLF(WithCRLF(s)) == s
  {
    if s != [] {
      assert s[0] in s && forall c :: c in s[1..] ==> c in s;
      assert s == [s[0]] + s[1..];
      ReplaceUndoes(s[1..]);
      var rest := WithCRLF(s[1..]);
      if s[0] == '\n' {
        ReplaceAt([], rest);
        assert [] + ("\r\n" + rest) == "\r\n" + rest;
        assert ReplaceCRLF([]) == [];
      } else {
        ReplaceOther(s[0], rest);
      }
    }
  }

  lemma {:induction false} ReplaceKeeps(s: string)
    requires '\r' !in s
    ensures ReplaceCRLF(s) == s
  {
    if s != [] {
      assert s[0] in s && forall c :: c in s[1..] ==> c in s;
      ReplaceKeeps(s[1..]);
      assert s == [s[0]] + s[1..];
    }
  }

  /** A document has the same chunks with line feeds and with CR LF line ends. */
  lemma ChunksOfWindowsText(content: string)
    requires '\r' !in content
    ensures Chunks(WithCRLF(content)) == Chunks(content)
  {
    ReplaceUndoes(content);
    ReplaceKeeps(content);
  }

  // ------------------------------------------------------ content is conserved

  lemma {:induction false} SqueezeCRLF(s: string)
    ensures Squeeze(ReplaceCRLF(s)) == Squeeze(s)
  {
    if |s| >= 2 && s[0] == '\r' && s[1] == '\n' {
      SqueezeCRLF(s[2..]);
      assert s[1..][1..] == s[2..];
      assert (['\n'] + ReplaceCRLF(s[2..]))[1..] == ReplaceCRLF(s[2..]);
    } else if s != [] {
      SqueezeCRLF(s[1..]);
      assert ([s[0]] + ReplaceCRLF(s[1..]))[1..] == ReplaceCRLF(s[1..]);
    }
  }

  function Flatten(groups: seq<seq<string>>): seq<string> {
    if groups == [] then [] else Flatten(groups[..|groups| - 1]) + groups[|groups| - 1]
  }

  /** A group opens with its only heading, unless it is the first group. */
  predicate WellCut(groups: seq<seq<string>>, g: nat)
    requires g < |groups|
  {
    && groups[g] != []
    && (g > 0 ==> Heading(groups[g][0]))
    && forall i :: 0 < i < |groups[g]| ==> !Heading(groups[g][i])
  }

  lemma FlattenExtended(groups: seq<seq<string>>, line: string, opens: bool)
    requires groups != []
    ensures Flatten(Extended(groups, line, opens)) == Flatten(groups) + [line]
  {
    var next := Extended(groups, line, opens);
    if opens {
      assert next[..|next| - 1] == groups;
    } else {
      var init, last := groups[..|groups| - 1], groups[|groups| - 1];
      assert next[..|next| - 1] == init;
      assert Flatten(init) + (last + [line]) == Flatten(init) + last + [line];
    }
  }

  /** Groups is a partition of the lines cut exactly before the headings after line 0. */
  lemma {:induction false} GroupsPartition(lines: seq<string>)
    requires lines != []
    ensures Flatten(Groups(lines)) == lines
    ensures forall g :: 0 <= g < |Groups(lines)| ==> WellCut(Groups(lines), g)
  {
    if |lines| == 1 {
      assert Flatten([lines]) == Flatten([lines][..0]) + lines;
    } else {
      var before, line := lines[..|lines| - 1], lines[|lines| - 1];
      var bs, opens := Groups(before), Heading(line);
      assert before + [line] == lines;
      GroupsPartition(before);
      GroupsSnoc(before, line);
      FlattenExtended(bs, line, opens);
      forall g | 0 <= g < |Groups(lines)| ensures WellCut(Groups(lines), g) {
        WellCutExtended(bs, line, g);
      }
    }
  }

  lemma WellCutExtended(groups: seq<seq<string>>, line: string, g: nat)
    requires groups != [] && forall i :: 0 <= i < |groups| ==> WellCut(groups, i)
    requires g < |Extended(groups, line, Heading(line))|
    ensures WellCut(Extended(groups, line, Heading(line)), g)
  {
    if g < |groups| {
      assert WellCut(groups, g);
    }
  }

  lemma {:induction false} SqueezeRenderAll(groups: seq<seq<string>>)
    ensures Squeeze(Concat(RenderAll(groups))) == Squeeze(Concat(Flatten(groups)))
  {
    if groups != [] {
      var init, last := groups[..|groups| - 1], groups[|groups| - 1];
      SqueezeRenderAll(init);
      ConcatAppend(RenderAll(init), Rendered(last));
      SqueezeConcat(Concat(RenderAll(init)), Concat(Rendered(last)));
      ConcatAppend(Flatten(init), last);
      SqueezeConcat(Concat(Flatten(init)), Concat(last));
      var text := Join(last, "\n");
      SqueezeTrimSpace(text);
      SqueezeJoin(last, "\n");
      ConcatOne(TrimSpace(text));
    }
  }

  lemma ConcatOne(s: string)
    ensures Concat([s]) == s
  {
    assert [s][1..] == [];
  }

  lemma {:induction false} ConcatPiecesOf(sections: seq<string>)
    ensures Concat(PiecesOf(sections)) == Concat(sections)
  {
    if sections != [] {
      var init, last := sections[..|sections| - 1], sections[|sections| - 1];
      ConcatPiecesOf(init);
      PiecesSpec(last, DEFAULT_MAX_CHUNK_CHARS);
      ConcatAppend(PiecesOf(init), Pieces(last, DEFAULT_MAX_CHUNK_CHARS));
      assert init + [last] == sections;
      ConcatAppend(init, [last]);
      ConcatOne(last);
    }
  }

  /** The chunker drops and adds white space only, and keeps the order of everything else. */
  lemma ChunksConserveContent(content: string)
    ensures Squeeze(Concat(Chunks(content))) == Squeeze(content)
  {
    var lines := Lines(content);
    ConcatPiecesOf(Sections(content));
    SqueezeRenderAll(Groups(lines));
    GroupsPartition(lines);
    JoinSplit(ReplaceCRLF(content), '\n');
    SqueezeJoin(lines, "\n");
    SqueezeCRLF(content);
  }

  lemma {:induction false} RenderAllTrimmed(groups: seq<seq<string>>)
    ensures forall k :: 0 <= k < |RenderAll(groups)| ==> Trimmed(RenderAll(groups)[k])
  {
    if groups != [] {
      RenderAllTrimmed(groups[..|groups| - 1]);
      var _, _ := TrimSpaceSpec(Join(groups[|groups| - 1], "\n"));
    }
  }

  /** A document has no chunk exactly when it is all white space. */
  lemma ChunksEmpty(content: string)
    ensures Chunks(content) == [] <==> Blank(content)
  {
    ChunksConserveContent(content);
    SqueezeBlank(content);
    var sections := Sections(content);
    ConcatPiecesOf(sections);
    if sections != [] {
      RenderAllTrimmed(Groups(Lines(content)));
      SqueezeConcat(sections[0], Concat(sections[1..]));
      SqueezeBlank(sections[0]);
      assert Trimmed(sections[0]);
    }
  }

  // ----------------------------------------------------------- normal form

  /** The end of the run that makes a heading, and back. */
  lemma {:induction false} HashRun(s: string, p: nat)
    requires p <= |s|
    ensures p + Hashes(s, p) <= |s|
    ensures forall i :: p <= i < p + Hashes(s, p) ==> s[i] == '#'
    ensures p + Hashes(s, p) < |s| ==> s[p + Hashes(s, p)] != '#'
    decreases |s| - p
  {
    if p < |s| && s[p] == '#' {
      HashRun(s, p + 1);
    }
  }

  lemma HeadingEnd(s: string, p: nat, end: nat)
    requires p < end < |s| && s[end] == ' ' && forall i :: p <= i < end ==> s[i] == '#'
    ensures HeadingAt(s, p)
  {
    HashRun(s, p);
  }

  /** A heading is one or more `#`, then a blank, whatever follows. */
  lemma HeadingForm(line: string)
    ensures Heading(line) <==>
              exists n :: 0 < n < |line| && line[n] == ' ' && forall i :: 0 <= i < n ==> line[i] == '#'
  {
    HashRun(line, 0);
    if n :| 0 < n < |line| && line[n] == ' ' && forall i :: 0 <= i < n ==> line[i] == '#' {
      HeadingEnd(line, 0, n);
    }
  }

  /** No line of s after its first is a heading. */
  predicate NoInnerHeading(s: string) {
    forall p :: 0 < p < |s| && s[p - 1] == '\n' ==> !HeadingAt(s, p)
  }

  lemma HeadingAtSubstring(s: string, from: nat, to: nat, p: nat)
    requires from <= to <= |s|
    ensures HeadingAt(s[from..to], p) ==> HeadingAt(s, from + p)
  {
    var t := s[from..to];
    if HeadingAt(t, p) {
      HashRun(t, p);
      var n := p + Hashes(t, p);
      assert s[from + n] == ' ';
      assert forall i :: from + p <= i < from + n ==> s[i] == t[i - from];
      HeadingEnd(s, from + p, from + n);
    }
  }

  lemma NoInnerHeadingSubstring(s: string, from: nat, to: nat)
    requires from <= to <= |s| && NoInnerHeading(s)
    ensures NoInnerHeading(s[from..to])
  {
    var t := s[from..to];
    forall p | 0 < p < |t| && t[p - 1] == '\n' ensures !HeadingAt(t, p) {
      HeadingAtSubstring(s, from, to, p);
      assert s[from + p - 1] == '\n';
    }
  }

  lemma HeadingAtSuffix(a: string, b: string, p: nat)
    ensures HeadingAt(a + b, |a| + p) <==> HeadingAt(b, p)
  {
    var s := a + b;
    if HeadingAt(b, p) {
      HashRun(b, p);
      var n := p + Hashes(b, p);
      assert s[|a| + n] == ' ';
      assert forall i :: |a| + p <= i < |a| + n ==> s[i] == b[i - |a|];
      HeadingEnd(s, |a| + p, |a| + n);
    }
    if HeadingAt(s, |a| + p) {
      HashRun(s, |a| + p);
      var n := |a| + p + Hashes(s, |a| + p);
      assert b[n - |a|] == ' ';
      assert forall i :: p <= i < n - |a| ==> b[i] == s[|a| + i];
      HeadingEnd(b, p, n - |a|);
    }
  }

  /** A heading opening a line decides itself inside that line. */
  lemma HeadingAtPrefix(a: string, b: string)
    requires b == [] || b[0] == '\n'
    ensures HeadingAt(a + b, 0) <==> HeadingAt(a, 0)
  {
    var s := a + b;
    assert b != [] ==> s[|a|] == '\n';
    if HeadingAt(a, 0) {
      HashRun(a, 0);
      var n := 0 + Hashes(a, 0);
      assert s[n] == ' ' && forall i :: 0 <= i < n ==> s[i] == a[i];
      HeadingEnd(s, 0, n);
    }
    if HeadingAt(s, 0) {
      HashRun(s, 0);
      var n := 0 + Hashes(s, 0);
      assert n < |a|;
      assert a[n] == ' ' && forall i :: 0 <= i < n ==> a[i] == s[i];
      HeadingEnd(a, 0, n);
    }
  }

  /** NoInnerHeading of a text after its first line. */
  lemma NoInnerHeadingAfter(a: string, b: string)
    requires '\n' !in a
    ensures NoInnerHeading(a + ['\n'] + b) <==> !HeadingAt(b, 0) && NoInnerHeading(b)
  {
    var s, q := a + ['\n'] + b, |a|;
    forall p: nat ensures HeadingAt(s, q + 1 + p) <==> HeadingAt(b, p) {
      HeadingAtSuffix(a + ['\n'], b, p);
    }
    forall j | 0 <= j < q ensures s[j] != '\n' {
      assert s[j] == a[j] && a[j] in a;
    }
    assert s[q + 1 - 1] == '\n';
    if NoInnerHeading(s) {
      assert b != [] ==> !HeadingAt(s, q + 1 + 0);
      forall p | 0 < p < |b| && b[p - 1] == '\n' ensures !HeadingAt(b, p) {
        assert s[q + 1 + p - 1] == '\n';
        assert HeadingAt(s, q + 1 + p) <==> HeadingAt(b, p);
      }
    }
    if !HeadingAt(b, 0) && NoInnerHeading(b) {
      forall p | 0 < p < |s| && s[p - 1] == '\n' ensures !HeadingAt(s, p) {
        assert p >= q + 1;
        var m := p - (q + 1);
        assert HeadingAt(s, q + 1 + m) <==> HeadingAt(b, m);
        if m > 0 { assert b[m - 1] == '\n'; }
      }
    }
  }

  /** NoInnerHeading, line by line. */
  lemma {:induction false} NoInnerHeadingLines(s: string)
    ensures NoInnerHeading(s) <==> forall i :: 0 < i < |Split(s, '\n')| ==> !Heading(Split(s, '\n')[i])
  {
    if '\n' in s {
      var q := FirstNewline(s);
      var a, b := s[..q], s[q + 1..];
      assert s == a + ['\n'] + b;
      SplitNone(a, '\n');
      SplitAt(a, b, '\n');
      NoInnerHeadingAfter(a, b);
      NoInnerHeadingLines(b);
      FirstLineHeading(b);
      var bs := Split(b, '\n');
      assert Split(s, '\n') == [a] + bs;
      assert forall i :: 0 < i < |[a] + bs| ==> ([a] + bs)[i] == bs[i - 1];
      assert forall i :: 0 <= i < |bs| ==> bs[i] == ([a] + bs)[i + 1];
    } else {
      SplitNone(s, '\n');
      forall p | 0 <= p < |s| ensures s[p] != '\n' {
        assert s[p] in s;
      }
    }
  }

  lemma {:induction false} FirstNewline(s: string) returns (q: nat)
    requires '\n' in s
    ensures q < |s| && s[q] == '\n' && '\n' !in s[..q]
  {
    q := 0;
    while s[q] != '\n'
      invariant q < |s| && '\n' !in s[..q] && '\n' in s[q..]
      decreases |s| - q
    {
      assert s[q..] == [s[q]] + s[q + 1..];
      assert s[..q + 1] == s[..q] + [s[q]];
      q := q + 1;
    }
  }

  /** A text opens with a heading exactly when its first line is one. */
  lemma FirstLineHeading(s: string)
    ensures HeadingAt(s, 0) <==> Heading(Split(s, '\n')[0])
  {
    if '\n' in s {
      var q := FirstNewline(s);
      var a, b := s[..q], s[q + 1..];
      assert s == a + ['\n'] + b == a + (['\n'] + b);
      SplitNone(a, '\n');
      SplitAt(a, b, '\n');
      HeadingAtPrefix(a, ['\n'] + b);
    } else {
      SplitNone(s, '\n');
    }
  }

  lemma {:induction false} SplitJoin(lines: seq<string>)
    requires lines != [] && forall i :: 0 <= i < |lines| ==> '\n' !in lines[i]
    ensures Split(Join(lines, "\n"), '\n') == lines
  {
    if |lines| == 1 {
      SplitNone(lines[0], '\n');
    } else {
      SplitJoin(lines[1..]);
      SplitAt(lines[0], Join(lines[1..], "\n"), '\n');
      SplitNone(lines[0], '\n');
      assert [lines[0]] + lines[1..] == lines;
    }
  }

  /** Every section is a trimmed text without inner headings. */
  ghost predicate IsSection(s: string) {
    Trimmed(s) && NoInnerHeading(s)
  }

  lemma {:induction false} RenderAllSections(groups: seq<seq<string>>)
    requires forall g :: 0 <= g < |groups| ==> WellCut(groups, g)
    requires forall g, i :: 0 <= g < |groups| && 0 <= i < |groups[g]| ==> '\n' !in groups[g][i]
    ensures forall k :: 0 <= k < |RenderAll(groups)| ==> IsSection(RenderAll(groups)[k])
  {
    if groups != [] {
      var init := groups[..|groups| - 1];
      forall g | 0 <= g < |init| ensures WellCut(init, g) {
        assert WellCut(groups, g);
      }
      RenderAllSections(init);
      assert WellCut(groups, |groups| - 1);
      var last := groups[|groups| - 1];
      var text := Join(last, "\n");
      SplitJoin(last);
      NoInnerHeadingLines(text);
      var left, right := TrimSpaceSpec(text);
      NoInnerHeadingSubstring(text, |left|, |text| - |right|);
      assert text[|left|..|text| - |right|] == TrimSpace(text);
    }
  }

  lemma {:induction false} FlattenMember(groups: seq<seq<string>>, g: nat, i: nat)
    requires g < |groups| && i < |groups[g]|
    ensures groups[g][i] in Flatten(groups)
  {
    if g < |groups| - 1 {
      FlattenMember(groups[..|groups| - 1], g, i);
    }
  }

  lemma SectionsAreSections(content: string)
    ensures forall k :: 0 <= k < |Sections(content)| ==> IsSection(Sections(content)[k])
  {
    var lines := Lines(content);
    var gs := Groups(lines);
    GroupsPartition(lines);
    SplitParts(ReplaceCRLF(content), '\n');
    forall g, i | 0 <= g < |gs| && 0 <= i < |gs[g]| ensures '\n' !in gs[g][i] {
      FlattenMember(gs, g, i);
    }
    RenderAllSections(gs);
  }

  lemma {:induction false} PiecesNormal(content: string, max: nat)
    requires max > 0 && NoInnerHeading(content)
    ensures forall k :: 0 <= k < |Pieces(content, max)| ==> NoInnerHeading(Pieces(content, max)[k])
  {
    if |content| > max {
      NoInnerHeadingSubstring(content, 0, max);
      NoInnerHeadingSubstring(content, max, |content|);
      assert content[max..|content|] == content[max..];
      PiecesNormal(content[max..], max);
      var rest := Pieces(content[max..], max);
      forall k | 0 <= k < |rest| + 1 ensures NoInnerHeading(([content[..max]] + rest)[k]) {
        if k > 0 { assert ([content[..max]] + rest)[k] == rest[k - 1]; }
      }
    }
  }

  lemma {:induction false} PiecesOfNormal(sections: seq<string>)
    requires forall k :: 0 <= k < |sections| ==> IsSection(sections[k])
    ensures forall k :: 0 <= k < |PiecesOf(sections)| ==> NoInnerHeading(PiecesOf(sections)[k])
  {
    if sections != [] {
      PiecesOfNormal(sections[..|sections| - 1]);
      assert IsSection(sections[|sections| - 1]);
      PiecesNormal(sections[|sections| - 1], DEFAULT_MAX_CHUNK_CHARS);
    }
  }

  /** No chunk has a heading on any line but its first, also when a long section was cut mid-line. */
  lemma ChunksHaveNoInnerHeading(content: string)
    ensures forall k, i :: 0 <= k < |Chunks(content)| && 0 < i < |Split(Chunks(content)[k], '\n')|
                           ==> !Heading(Split(Chunks(content)[k], '\n')[i])
  {
    SectionsAreSections(content);
    PiecesOfNormal(Sections(content));
    forall k | 0 <= k < |Chunks(content)|
      ensures forall i :: 0 < i < |Split(Chunks(content)[k], '\n')| ==> !Heading(Split(Chunks(content)[k], '\n')[i])
    {
      NoInnerHeadingLines(Chunks(content)[k]);
    }
  }
}
