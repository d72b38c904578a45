/**
 * Parsing the document that `retro_documents` (iac/silver_gold.tf) aggregates from the
 * chunks of a file: when the chunker gives the same chunks again.
 */
module RoundTrip {
  import opened Text
  import opened Markdown

  // ---------------------------------------------------------- groups of lines

  lemma {:induction false} GroupsAppendHeading(xs: seq<string>, ys: seq<string>)
    requires xs != [] && ys != [] && Heading(ys[0])
    ensures Groups(xs + ys) == Groups(xs) + Groups(ys)
  {
    var init, last := ys[..|ys| - 1], ys[|ys| - 1];
    assert xs + ys == (xs + init) + [last] && ys == init + [last];
    GroupsSnoc(xs + init, last);
    if init == [] {
      assert xs + init == xs;
    } else {
      GroupsAppendHeading(xs, init);
      GroupsSnoc(init, last);
      ExtendedRight(Groups(xs), Groups(init), last, Heading(last));
    }
  }

  lemma ExtendedRight(a: seq<seq<string>>, b: seq<seq<string>>, line: string, opens: bool)
    requires b != []
    ensures Extended(a + b, line, opens) == a + Extended(b, line, opens)
  {
    if !opens {
      assert (a + b)[..|a + b| - 1] == a + b[..|b| - 1];
    }
  }

  lemma ExtendedLast(front: seq<seq<string>>, group: seq<string>, line: string)
    ensures Extended(front + [group], line, false) == front + [group + [line]]
  {
    var gs := front + [group];
    assert gs[..|gs| - 1] == front && gs[|gs| - 1] == group;
  }

  lemma {:induction false} GroupsAppendPlain(xs: seq<string>, ys: seq<string>)
    requires xs != [] && forall i :: 0 <= i < |ys| ==> !Heading(ys[i])
    ensures var gs := Groups(xs);
            Groups(xs + ys) == gs[..|gs| - 1] + [gs[|gs| - 1] + ys]
  {
    var gs := Groups(xs);
    var front, group := gs[..|gs| - 1], gs[|gs| - 1];
    if ys == [] {
      assert xs + ys == xs && group + ys == group && gs == front + [group];
    } else {
      var init, last := ys[..|ys| - 1], ys[|ys| - 1];
      assert xs + ys == (xs + init) + [last];
      assert group + ys == (group + init) + [last];
      GroupsSnoc(xs + init, last);
      GroupsAppendPlain(xs, init);
      ExtendedLast(front, group + init, last);
    }
  }

  /** No line after the first is a heading. */
  ghost predicate PlainTail(lines: seq<string>) {
    forall i :: 0 < i < |lines| ==> !Heading(lines[i])
  }

  lemma GroupsPlainTail(xs: seq<string>)
    requires xs != [] && PlainTail(xs)
    ensures Groups(xs) == [xs]
  {
    GroupsAppendPlain(xs[..1], xs[1..]);
    assert xs[..1] + xs[1..] == xs;
  }

  lemma {:induction false} RenderAllAppend(a: seq<seq<string>>, b: seq<seq<string>>)
    ensures RenderAll(a + b) == RenderAll(a) + RenderAll(b)
  {
    if b == [] {
      assert a + b == a;
    } else {
      assert (a + b)[..|a + b| - 1] == a + b[..|b| - 1];
      RenderAllAppend(a, b[..|b| - 1]);
    }
  }

  /** The first group holds the opening lines of the document up to the next heading. */
  lemma {:induction false} FirstGroup(xs: seq<string>, ys: seq<string>)
    requires xs != [] && PlainTail(xs)
    ensures xs <= Groups(xs + ys)[0]
  {
    if ys == [] {
      assert xs + ys == xs;
      GroupsPlainTail(xs);
    } else {
      var init, last := ys[..|ys| - 1], ys[|ys| - 1];
      assert xs + ys == (xs + init) + [last];
      FirstGroup(xs, init);
      GroupsSnoc(xs + init, last);
    }
  }

  lemma {:induction false} FlattenFirst(groups: seq<seq<string>>)
    requires groups != []
    ensures groups[0] <= Flatten(groups)
  {
    if |groups| == 1 {
      assert Flatten(groups) == Flatten(groups[..0]) + groups[0];
    } else {
      FlattenFirst(groups[..|groups| - 1]);
    }
  }

  /** A blank line at the end of a document adds nothing to its sections. */
  lemma PaddedGroup(lines: seq<string>)
    requires lines != []
    ensures RenderAll(Groups(lines + [""])) == RenderAll(Groups(lines))
  {
    var gs := Groups(lines);
    var front, last := gs[..|gs| - 1], gs[|gs| - 1];
    assert !Heading("");
    GroupsAppendPlain(lines, [""]);
    GroupsPartition(lines);
    assert WellCut(gs, |gs| - 1);
    RenderedPadded(last);
    RenderAllAppend(front, [last]);
    RenderAllAppend(front, [last + [""]]);
    assert gs == front + [last];
  }

  lemma RenderedPadded(group: seq<string>)
    requires group != []
    ensures RenderAll([group + [""]]) == RenderAll([group])
  {
    JoinAppend(group, [""], "\n");
    assert Join(group + [""], "\n") == Join(group, "\n") + "\n";
    TrimSpaceSuffix(Join(group, "\n"), "\n");
    assert [group + [""]][..0] == [] && [group][..0] == [];
  }

  lemma RenderAllOne(group: seq<string>)
    ensures RenderAll([group]) == Rendered(group)
  {
    assert [group][..0] == [];
  }

  lemma {:induction false} PiecesOfAppend(a: seq<string>, b: seq<string>)
    ensures PiecesOf(a + b) == PiecesOf(a) + PiecesOf(b)
  {
    if b == [] {
      assert a + b == a;
    } else {
      assert (a + b)[..|a + b| - 1] == a + b[..|b| - 1];
      PiecesOfAppend(a, b[..|b| - 1]);
    }
  }

  lemma PiecesOfOne(section: string)
    ensures PiecesOf([section]) == Pieces(section, DEFAULT_MAX_CHUNK_CHARS)
  {
    assert [section][..0] == [];
  }

  // ------------------------------------------------------ what a chunk is

  /** Not empty, not too long, and without a heading on a line after its first. */
  ghost predicate IsChunk(c: string) {
    c != [] && |c| <= DEFAULT_MAX_CHUNK_CHARS && NoInnerHeading(c)
  }

  /** The chunks of a document: the first one starts with text. */
  ghost predicate AreChunks(cs: seq<string>) {
    && (forall k :: 0 <= k < |cs| ==> IsChunk(cs[k]))
    && (cs != [] ==> IsChunk(cs[0]) && !IsSpace(cs[0][0]))
  }

  lemma PiecesAreChunks(section: string)
    requires IsSection(section)
    ensures AreChunks(Pieces(section, DEFAULT_MAX_CHUNK_CHARS))
  {
    var pieces := Pieces(section, DEFAULT_MAX_CHUNK_CHARS);
    PiecesNormal(section, DEFAULT_MAX_CHUNK_CHARS);
    PiecesSpec(section, DEFAULT_MAX_CHUNK_CHARS);
    forall k | 0 <= k < |pieces| ensures IsChunk(pieces[k]) {
      assert |pieces[k]| <= DEFAULT_MAX_CHUNK_CHARS;
    }
    assert pieces[0] <= section && pieces[0][0] == section[0];
  }

  lemma MoreChunks(a: seq<string>, b: seq<string>)
    requires AreChunks(a) && AreChunks(b)
    ensures AreChunks(a + b)
  {
    assert forall k :: |a| <= k < |a + b| ==> (a + b)[k] == b[k - |a|];
  }

  lemma {:induction false} PiecesOfAreChunks(sections: seq<string>)
    requires forall k :: 0 <= k < |sections| ==> IsSection(sections[k])
    ensures AreChunks(PiecesOf(sections))
  {
    if sections != [] {
      var init, last := sections[..|sections| - 1], sections[|sections| - 1];
      PiecesOfAreChunks(init);
      assert IsSection(last);
      PiecesAreChunks(last);
      MoreChunks(PiecesOf(init), Pieces(last, DEFAULT_MAX_CHUNK_CHARS));
    }
  }

  // ------------------------------------------------- the aggregate, cut again

  lemma SplitTwice(front: string, last: string)
    ensures Split(front + "\n\n" + last, '\n') == Split(front, '\n') + [""] + Split(last, '\n')
  {
    var tail := ['\n'] + last;
    assert front + "\n\n" + last == front + ['\n'] + tail;
    SplitAt(front, tail, '\n');
    assert tail == [] + ['\n'] + last;
    SplitAt([], last, '\n');
  }

  /** The aggregate of some chunks. */
  function Aggregate(cs: seq<string>): string {
    Join(cs, "\n\n")
  }

  function AggregateLines(cs: seq<string>): (lines: seq<string>)
    ensures lines != []
  {
    Split(Aggregate(cs), '\n')
  }

  /** The chunks of the aggregate, its line ends left alone. */
  function Rechunked(cs: seq<string>): seq<string> {
    PiecesOf(RenderAll(Groups(AggregateLines(cs))))
  }

  lemma AggregateCons(c: string, rest: seq<string>)
    requires rest != []
    ensures Aggregate([c] + rest) == c + "\n\n" + Aggregate(rest)
    ensures AggregateLines([c] + rest) == Split(c, '\n') + [""] + AggregateLines(rest)
  {
    JoinAppend([c], rest, "\n\n");
    SplitTwice(c, Aggregate(rest));
  }

  lemma ChunkLines(c: string)
    requires IsChunk(c)
    ensures PlainTail(Split(c, '\n'))
    ensures Groups(Split(c, '\n')) == [Split(c, '\n')]
  {
    NoInnerHeadingLines(c);
    assert PlainTail(Split(c, '\n'));
    GroupsPlainTail(Split(c, '\n'));
  }

  /** The lines of a chunk form one group, and that group is rendered as the trimmed chunk. */
  lemma ChunkGroup(c: string)
    requires IsChunk(c) && !IsSpace(c[0])
    ensures Groups(Split(c, '\n')) == [Split(c, '\n')]
    ensures PiecesOf(RenderAll(Groups(Split(c, '\n')))) == [TrimSpace(c)]
  {
    var lines := Split(c, '\n');
    ChunkLines(c);
    RenderAllOne(lines);
    JoinSplit(c, '\n');
    TrimSpaceBlank(c);
    var _, _ := TrimSpaceSpec(c);
    PiecesOfOne(TrimSpace(c));
  }

  lemma TrimSpaceFixed(c: string)
    requires c != [] && !IsSpace(c[0])
    ensures TrimSpace(c) == c <==> Trimmed(c)
  {
    TrimSpaceBlank(c);
    var _, _ := TrimSpaceSpec(c);
    if Trimmed(c) {
      TrimSpaceUnique([], c, []);
      assert [] + c + [] == c;
    }
  }

  lemma AggregateOpens(cs: seq<string>)
    requires cs != []
    ensures HeadingAt(Aggregate(cs), 0) <==> HeadingAt(cs[0], 0)
  {
    if |cs| > 1 {
      assert Aggregate(cs) == cs[0] + ("\n\n" + Join(cs[1..], "\n\n"));
      HeadingAtPrefix(cs[0], "\n\n" + Join(cs[1..], "\n\n"));
    }
  }

  /** Before a chunk that opens with a heading the aggregate is cut as it was. */
  lemma RechunkOpener(c: string, rest: seq<string>)
    requires IsChunk(c) && !IsSpace(c[0]) && rest != [] && HeadingAt(rest[0], 0)
    ensures Rechunked([c] + rest) == [TrimSpace(c)] + Rechunked(rest)
  {
    var xs, ys := Split(c, '\n') + [""], AggregateLines(rest);
    AggregateCons(c, rest);
    AggregateOpens(rest);
    FirstLineHeading(Aggregate(rest));
    GroupsAppendHeading(xs, ys);
    PaddedGroup(Split(c, '\n'));
    ChunkGroup(c);
    RenderAllAppend(Groups(xs), Groups(ys));
    PiecesOfAppend(RenderAll(Groups(xs)), RenderAll(Groups(ys)));
  }

  // ------------------------------------------- a chunk that opens no section

  /** Number of leading blanks. */
  function Lead(s: string): (n: nat)
    ensures n <= |s|
  {
    if s != [] && IsSpace(s[0]) then 1 + Lead(s[1..]) else 0
  }

  lemma {:induction false} LeadAppend(a: string, b: string)
    ensures Lead(a + b) == if Blank(a) then |a| + Lead(b) else Lead(a)
  {
    if a == [] {
      assert a + b == b;
    } else {
      assert (a + b)[1..] == a[1..] + b;
      LeadAppend(a[1..], b);
      if Blank(a[1..]) && IsSpace(a[0]) {
        forall i | 0 <= i < |a| ensures IsSpace(a[i]) {
          if i > 0 { assert a[i] == a[1..][i - 1]; }
        }
      }
    }
  }

  lemma LeadBreak(s: string)
    ensures Lead("\n\n" + s) == 2 + Lead(s)
  {
    LeadAppend("\n\n", s);
  }

  /** Joining chunks by empty lines only pushes their first text back. */
  lemma {:induction false} LeadAggregate(cs: seq<string>)
    ensures Lead(Aggregate(cs)) >= Lead(Concat(cs))
  {
    if |cs| == 1 {
      ConcatOne(cs[0]);
    } else if |cs| > 1 {
      var c, rest := cs[0], cs[1..];
      LeadAggregate(rest);
      LeadAppend(c, Concat(rest));
      assert Aggregate(cs) == c + ("\n\n" + Aggregate(rest));
      LeadAppend(c, "\n\n" + Aggregate(rest));
      LeadBreak(Aggregate(rest));
    }
  }

  /** Sections after the first start with `#`. */
  lemma {:induction false} HeadedSections(groups: seq<seq<string>>)
    requires forall g :: 0 <= g < |groups| ==> groups[g] != [] && Heading(groups[g][0])
    ensures Concat(RenderAll(groups)) == [] || Concat(RenderAll(groups))[0] == '#'
  {
    if groups != [] {
      var init, last := groups[..|groups| - 1], groups[|groups| - 1];
      HeadedSections(init);
      ConcatAppend(RenderAll(init), Rendered(last));
      HeadedSection(last);
    }
  }

  lemma HeadedSection(group: seq<string>)
    requires group != [] && Heading(group[0])
    ensures Concat(Rendered(group)) != [] && Concat(Rendered(group))[0] == '#'
  {
    var text := Join(group, "\n");
    assert group[0] <= text;
    assert text[0] == '#';
    var _ := StartsWithText(text);
    ConcatOne(TrimSpace(text));
  }

  /** Trimming a text that starts with no blank only cuts its end. */
  lemma StartsWithText(s: string) returns (cut: string)
    requires s != [] && !IsSpace(s[0])
    ensures TrimSpace(s) != [] && s == TrimSpace(s) + cut && Blank(cut) && Trimmed(TrimSpace(s))
  {
    assert TrimSpace(s) == TrimRight(s);
    cut := TrimRightSpec(s);
    TrimSpaceBlank(s);
  }

  lemma {:induction false} JoinPrefix(a: seq<string>, b: seq<string>)
    requires a != [] && a <= b
    ensures Join(a, "\n") <= Join(b, "\n")
  {
    var tail := b[|a|..];
    assert b == a + tail;
    if tail == [] {
      assert b == a;
    } else {
      JoinAppend(a, tail, "\n");
      assert Join(b, "\n") == Join(a, "\n") + ("\n" + Join(tail, "\n"));
    }
  }

  /** The first group's text, between the first two chunks and the whole aggregate. */
  lemma FirstText(c: string, rest: seq<string>)
    requires IsChunk(c) && rest != [] && IsChunk(rest[0]) && !HeadingAt(rest[0], 0)
    ensures c + "\n\n" + rest[0] <= Join(Groups(AggregateLines([c] + rest))[0], "\n") <= Aggregate([c] + rest)
  {
    var lines := AggregateLines([c] + rest);
    var group := Groups(lines)[0];
    OpeningLines(c, rest);
    TwoChunksJoined(c, rest[0]);
    JoinPrefix(TwoChunks(c, rest[0]), group);
    GroupsPartition(lines);
    FlattenFirst(Groups(lines));
    JoinPrefix(group, lines);
    JoinSplit(Aggregate([c] + rest), '\n');
  }

  /** The sections of some lines: the first group's, and headed ones. */
  lemma FirstRendered(lines: seq<string>)
    requires lines != []
    ensures RenderAll(Groups(lines)) == Rendered(Groups(lines)[0]) + RenderAll(Groups(lines)[1..])
    ensures var later := Concat(RenderAll(Groups(lines)[1..]));
            later == [] || later[0] == '#'
  {
    GroupsPartition(lines);
    LaterHeaded(Groups(lines));
    RenderFirst(Groups(lines));
  }

  lemma LaterHeaded(gs: seq<seq<string>>)
    requires gs != [] && forall g :: 0 <= g < |gs| ==> WellCut(gs, g)
    ensures var later := Concat(RenderAll(gs[1..]));
            later == [] || later[0] == '#'
  {
    forall g | 0 <= g < |gs[1..]| ensures gs[1..][g] != [] && Heading(gs[1..][g][0]) {
      assert WellCut(gs, g + 1);
    }
    HeadedSections(gs[1..]);
  }

  lemma RenderFirst(gs: seq<seq<string>>)
    requires gs != []
    ensures RenderAll(gs) == Rendered(gs[0]) + RenderAll(gs[1..])
  {
    assert gs == [gs[0]] + gs[1..];
    RenderAllAppend([gs[0]], gs[1..]);
    RenderAllOne(gs[0]);
  }

  /** The first section of an aggregate whose second chunk opens no section: it swallows that chunk. */
  lemma FirstSection(c: string, rest: seq<string>) returns (text: string, others: seq<seq<string>>)
    requires IsChunk(c) && !IsSpace(c[0]) && rest != [] && IsChunk(rest[0]) && !HeadingAt(rest[0], 0)
    ensures c + "\n\n" + rest[0] <= text <= Aggregate([c] + rest)
    ensures RenderAll(Groups(AggregateLines([c] + rest))) == [TrimSpace(text)] + RenderAll(others)
    ensures Concat(RenderAll(others)) == [] || Concat(RenderAll(others))[0] == '#'
  {
    var gs := Groups(AggregateLines([c] + rest));
    text, others := Join(gs[0], "\n"), gs[1..];
    FirstText(c, rest);
    FirstRendered(AggregateLines([c] + rest));
    assert text[0] == c[0];
    var _ := StartsWithText(text);
  }

  /** The lines of two chunks with the empty line between them. */
  function TwoChunks(c: string, d: string): seq<string> {
    Split(c, '\n') + [""] + Split(d, '\n')
  }

  lemma TwoChunksJoined(c: string, d: string)
    ensures Join(TwoChunks(c, d), "\n") == c + "\n\n" + d
  {
    SplitTwice(c, d);
    JoinSplit(c + "\n\n" + d, '\n');
  }

  lemma AggregateStarts(c: string, rest: seq<string>) returns (others: seq<string>)
    requires rest != []
    ensures AggregateLines([c] + rest) == TwoChunks(c, rest[0]) + others
  {
    AggregateCons(c, rest);
    others := FirstLines(rest);
  }

  /** The lines of the first two chunks are in the first group. */
  lemma OpeningLines(c: string, rest: seq<string>)
    requires IsChunk(c) && rest != [] && IsChunk(rest[0]) && !HeadingAt(rest[0], 0)
    ensures TwoChunks(c, rest[0]) <= Groups(AggregateLines([c] + rest))[0]
  {
    var others := AggregateStarts(c, rest);
    PlainLines(c, rest[0]);
    FirstGroup(TwoChunks(c, rest[0]), others);
  }

  /** Two chunks, the second of which opens no section, hold no heading after the first line. */
  lemma PlainLines(c: string, d: string)
    requires IsChunk(c) && IsChunk(d) && !HeadingAt(d, 0)
    ensures PlainTail(TwoChunks(c, d))
  {
    ChunkLines(c);
    ChunkLines(d);
    FirstLineHeading(d);
    PlainAppend(Split(c, '\n'), [""]);
    PlainAppend(Split(c, '\n') + [""], Split(d, '\n'));
  }

  lemma PlainAppend(xs: seq<string>, ys: seq<string>)
    requires xs != [] && ys != [] && PlainTail(xs) && PlainTail(ys) && !Heading(ys[0])
    ensures PlainTail(xs + ys)
  {
    forall i | 0 < i < |xs + ys| ensures !Heading((xs + ys)[i]) {
      if i >= |xs| { assert (xs + ys)[i] == ys[i - |xs|]; }
    }
  }

  lemma FirstLines(cs: seq<string>) returns (others: seq<string>)
    requires cs != []
    ensures AggregateLines(cs) == Split(cs[0], '\n') + others
  {
    if |cs| == 1 {
      others := [];
    } else {
      AggregateCons(cs[0], cs[1..]);
      assert cs == [cs[0]] + cs[1..];
      others := [""] + AggregateLines(cs[1..]);
    }
  }

  /** Such an aggregate is cut differently: the swallowed chunk would have to start further back. */
  lemma RechunkMerged(c: string, rest: seq<string>)
    requires IsChunk(c) && !IsSpace(c[0]) && rest != [] && IsChunk(rest[0]) && !HeadingAt(rest[0], 0)
    ensures Rechunked([c] + rest) != [c] + rest
  {
    if Rechunked([c] + rest) == [c] + rest {
      var text, others := FirstSection(c, rest);
      var section, z := TrimSpace(text), Concat(RenderAll(others));
      var cut := StartsWithText(text);
      SectionSplits(c, rest, section, RenderAll(others));
      AggregateCons(c, rest);
      Swallowed(c, rest, text, section, cut, z);
    }
  }

  lemma Swallowed(c: string, rest: seq<string>, text: string, section: string, cut: string, z: string)
    requires rest != [] && rest[0] != [] && c + "\n\n" + rest[0] <= text <= c + "\n\n" + Aggregate(rest)
    requires text == section + cut && Blank(cut) && Trimmed(section) && c <= section
    requires z == [] || z[0] == '#'
    ensures Concat(rest) != section[|c|..] + z
  {
    var x := section[|c|..];
    assert section == c + x;
    if x == [] {
      assert section == c;
      SwallowedText(c, rest, text, cut);
    } else {
      assert x[|x| - 1] == section[|section| - 1];
      PrefixDrop(c, x, cut, "\n\n" + Aggregate(rest));
      SwallowedLead(c, rest, x, z);
    }
  }

  lemma PrefixDrop(c: string, x: string, cut: string, y: string)
    requires c + x + cut <= c + y
    ensures x <= y
  {
    assert |x| <= |y|;
    forall i | 0 <= i < |x| ensures x[i] == y[i] {
      assert (c + x + cut)[|c| + i] == (c + y)[|c| + i];
    }
  }

  /** The rest of the first section and the later sections spell the rest of the chunks. */
  lemma SectionSplits(c: string, rest: seq<string>, section: string, later: seq<string>)
    requires section != [] && PiecesOf([section] + later) == [c] + rest
    ensures c <= section && Concat(rest) == section[|c|..] + Concat(later)
  {
    FirstPiece(c, rest, section, later);
    ConcatPiecesOf([section] + later);
    ConcatCons(c, rest);
    ConcatCons(section, later);
    SamePrefix(c, Concat(rest), section, Concat(later));
  }

  lemma FirstPiece(c: string, rest: seq<string>, section: string, later: seq<string>)
    requires section != [] && PiecesOf([section] + later) == [c] + rest
    ensures c <= section
  {
    PiecesOfAppend([section], later);
    PiecesOfOne(section);
    var pieces := Pieces(section, DEFAULT_MAX_CHUNK_CHARS);
    assert (pieces + PiecesOf(later))[0] == pieces[0];
    assert pieces[0] == ([c] + rest)[0] == c;
  }

  lemma ConcatCons(a: string, rest: seq<string>)
    ensures Concat([a] + rest) == a + Concat(rest)
  {
    assert ([a] + rest)[1..] == rest;
  }

  lemma SamePrefix(c: string, x: string, section: string, y: string)
    requires c <= section && c + x == section + y
    ensures x == section[|c|..] + y
  {
    assert section == c + section[|c|..];
    assert c + x == c + (section[|c|..] + y);
    assert x == (c + x)[|c|..];
  }

  /** The first section is the first chunk alone: but the second one is text in it. */
  lemma SwallowedText(c: string, rest: seq<string>, text: string, cut: string)
    requires rest != [] && rest[0] != [] && c + "\n\n" + rest[0] <= text
    requires text == c + cut && Blank(cut)
    ensures Concat(rest) != [] && Concat(rest)[0] != '#'
  {
    assert cut[2] == text[|c| + 2] == rest[0][0];
  }

  /** The first section goes on: then its next text is two runes further back than it was. */
  lemma SwallowedLead(c: string, rest: seq<string>, x: string, z: string)
    requires x != [] && !IsSpace(x[|x| - 1]) && x <= "\n\n" + Aggregate(rest)
    ensures Concat(rest) != x + z
  {
    var y := "\n\n" + Aggregate(rest);
    assert !Blank(x);
    LeadAppend(x, z);
    LeadAppend(x, y[|x|..]);
    assert x + y[|x|..] == y;
    LeadBreak(Aggregate(rest));
    LeadAggregate(rest);
  }

  // --------------------------------------------------------- carriage returns

  function Returns(s: string): nat {
    if s == [] then 0 else (if s[0] == '\r' then 1 else 0) + Returns(s[1..])
  }

  lemma {:induction false} ReturnsAppend(a: string, b: string)
    ensures Returns(a + b) == Returns(a) + Returns(b)
  {
    if a == [] {
      assert a + b == b;
    } else {
      assert (a + b)[1..] == a[1..] + b;
      ReturnsAppend(a[1..], b);
    }
  }

  lemma {:induction false} ReturnsReplaced(s: string)
    ensures Returns(ReplaceCRLF(s)) <= Returns(s)
    ensures HasCRLF(s) ==> Returns(ReplaceCRLF(s)) < Returns(s)
  {
    if |s| >= 2 && s[0] == '\r' && s[1] == '\n' {
      ReturnsReplaced(s[2..]);
      assert s[1..][1..] == s[2..];
      assert (['\n'] + ReplaceCRLF(s[2..]))[1..] == ReplaceCRLF(s[2..]);
    } else if s != [] {
      ReturnsReplaced(s[1..]);
      assert ([s[0]] + ReplaceCRLF(s[1..]))[1..] == ReplaceCRLF(s[1..]);
      if i :| 0 <= i < |s| - 1 && s[i] == '\r' && s[i + 1] == '\n' {
        assert s[1..][i - 1] == '\r' && s[1..][i - 1 + 1] == '\n';
      }
    }
  }

  lemma {:induction false} ReturnsJoin(parts: seq<string>, sep: string)
    requires Returns(sep) == 0
    ensures Returns(Join(parts, sep)) == Returns(Concat(parts))
  {
    if |parts| == 1 {
      ConcatOne(parts[0]);
    } else if |parts| > 1 {
      ReturnsJoin(parts[1..], sep);
      ReturnsAppend(parts[0], Concat(parts[1..]));
      ReturnsAppend(parts[0] + sep, Join(parts[1..], sep));
      ReturnsAppend(parts[0], sep);
    }
  }

  lemma {:induction false} ReturnsRendered(groups: seq<seq<string>>)
    ensures Returns(Concat(RenderAll(groups))) <= Returns(Concat(Flatten(groups)))
  {
    if groups != [] {
      var init, last := groups[..|groups| - 1], groups[|groups| - 1];
      ReturnsRendered(init);
      ConcatAppend(RenderAll(init), Rendered(last));
      ReturnsAppend(Concat(RenderAll(init)), Concat(Rendered(last)));
      ConcatAppend(Flatten(init), last);
      ReturnsAppend(Concat(Flatten(init)), Concat(last));
      ReturnsSection(last);
    }
  }

  lemma ReturnsSection(group: seq<string>)
    ensures Returns(Concat(Rendered(group))) <= Returns(Concat(group))
  {
    var text := Join(group, "\n");
    ReturnsJoin(group, "\n");
    var left, right := TrimSpaceSpec(text);
    ReturnsAppend(left + TrimSpace(text), right);
    ReturnsAppend(left, TrimSpace(text));
    ConcatOne(TrimSpace(text));
  }

  /** The chunker never adds a carriage return, and drops one of every CR LF. */
  lemma ReturnsOfChunks(content: string)
    ensures Returns(Concat(Chunks(content))) <= Returns(content)
    ensures HasCRLF(content) ==> Returns(Concat(Chunks(content))) < Returns(content)
  {
    var lines := Lines(content);
    ConcatPiecesOf(Sections(content));
    ReturnsRendered(Groups(lines));
    GroupsPartition(lines);
    ReturnsJoin(lines, "\n");
    JoinSplit(ReplaceCRLF(content), '\n');
    ReturnsReplaced(content);
  }

  lemma {:induction false} NoCRLFUnchanged(s: string)
    requires !HasCRLF(s)
    ensures ReplaceCRLF(s) == s
  {
    if s != [] {
      if |s| >= 2 {
        assert !(s[0] == '\r' && s[0 + 1] == '\n');
      }
      forall i | 0 <= i < |s[1..]| - 1 ensures !(s[1..][i] == '\r' && s[1..][i + 1] == '\n') {
        assert !(s[i + 1] == '\r' && s[i + 1 + 1] == '\n');
      }
      NoCRLFUnchanged(s[1..]);
    }
  }

  // -------------------------------------------------------------- main results

  /** Every chunk is trimmed, and every chunk after the first opens with a heading. */
  ghost predicate Reopens(cs: seq<string>) {
    && (forall k :: 0 <= k < |cs| ==> Trimmed(cs[k]))
    && (forall k :: 0 < k < |cs| ==> HeadingAt(cs[k], 0))
  }

  lemma ReopensCons(c: string, rest: seq<string>)
    requires rest != []
    ensures Reopens([c] + rest) <==> Trimmed(c) && HeadingAt(rest[0], 0) && Reopens(rest)
  {
    if Reopens([c] + rest) { ReopensTail(c, rest); }
    if Trimmed(c) && HeadingAt(rest[0], 0) && Reopens(rest) { ReopensMore(c, rest); }
  }

  lemma ReopensTail(c: string, rest: seq<string>)
    requires rest != [] && Reopens([c] + rest)
    ensures Trimmed(c) && HeadingAt(rest[0], 0) && Reopens(rest)
  {
    var cs := [c] + rest;
    assert cs[0] == c && cs[1] == rest[0];
    assert forall k :: 0 <= k < |rest| ==> rest[k] == cs[k + 1];
  }

  lemma ReopensMore(c: string, rest: seq<string>)
    requires rest != [] && Trimmed(c) && HeadingAt(rest[0], 0) && Reopens(rest)
    ensures Reopens([c] + rest)
  {
    var cs := [c] + rest;
    forall k | 0 < k < |cs| ensures Trimmed(cs[k]) && HeadingAt(cs[k], 0) {
      assert cs[k] == rest[k - 1];
    }
  }

  lemma ReopensOne(c: string)
    ensures Reopens([c]) <==> Trimmed(c)
  {
    assert [c][0] == c;
  }

  lemma RechunkedOne(c: string)
    requires IsChunk(c) && !IsSpace(c[0])
    ensures Rechunked([c]) == [c] <==> Trimmed(c)
  {
    ChunkGroup(c);
    TrimSpaceFixed(c);
  }

  /** One chunk fewer. */
  lemma RechunkedCons(c: string, rest: seq<string>)
    requires IsChunk(c) && !IsSpace(c[0]) && rest != [] && IsChunk(rest[0])
    ensures Rechunked([c] + rest) == [c] + rest
            <==> Trimmed(c) && HeadingAt(rest[0], 0) && Rechunked(rest) == rest
  {
    if HeadingAt(rest[0], 0) {
      RechunkOpener(c, rest);
      TrimSpaceFixed(c);
      SameCons(TrimSpace(c), Rechunked(rest), c, rest);
    } else {
      RechunkMerged(c, rest);
    }
  }

  lemma SameCons(a: string, x: seq<string>, b: string, y: seq<string>)
    ensures [a] + x == [b] + y <==> a == b && x == y
  {
    assert ([a] + x)[0] == a && ([b] + y)[0] == b;
    assert ([a] + x)[1..] == x && ([b] + y)[1..] == y;
  }

  lemma ChunksCons(cs: seq<string>)
    requires AreChunks(cs) && |cs| > 1
    ensures IsChunk(cs[0]) && !IsSpace(cs[0][0]) && IsChunk(cs[1..][0])
    ensures HeadingAt(cs[1..][0], 0) ==> AreChunks(cs[1..])
  {
    var rest := cs[1..];
    assert rest[0] == cs[1] && forall k :: 0 <= k < |rest| ==> rest[k] == cs[k + 1];
  }

  lemma {:induction false} RechunkedSame(cs: seq<string>)
    requires cs != [] && AreChunks(cs)
    ensures Rechunked(cs) == cs <==> Reopens(cs)
  {
    var c, rest := cs[0], cs[1..];
    assert cs == [c] + rest;
    if rest == [] {
      assert cs == [c];
      RechunkedOne(c);
      ReopensOne(c);
    } else {
      ChunksCons(cs);
      RechunkedCons(c, rest);
      ReopensCons(c, rest);
      if HeadingAt(rest[0], 0) {
        RechunkedSame(rest);
      }
    }
  }

  /**
   * `retro_documents` joins the chunks of a file with an empty line. For every document,
   * parsing that aggregate again gives the same chunks if and only if it holds no CR LF,
   * every chunk is trimmed (a cut inside a long section may leave one that is not), and
   * every chunk after the first opens with a heading.
   */
  lemma AggregateRoundTrip(content: string)
    ensures var cs := Chunks(content);
            Chunks(Aggregate(cs)) == cs <==> !HasCRLF(Aggregate(cs)) && Reopens(cs)
  {
    var cs := Chunks(content);
    var document := Aggregate(cs);
    if HasCRLF(document) {
      ReturnsOfChunks(document);
      ReturnsJoin(cs, "\n\n");
    } else {
      NoCRLFUnchanged(document);
      SectionsAreSections(content);
      PiecesOfAreChunks(Sections(content));
      if cs == [] {
        ChunksEmpty(document);
      } else {
        RechunkedSame(cs);
      }
    }
  }

  lemma {:induction false} NoReturns(s: string)
    requires '\r' !in s
    ensures Returns(s) == 0
  {
    if s != [] {
      assert forall c :: c in s[1..] ==> c in s;
      NoReturns(s[1..]);
    }
  }

  lemma {:induction false} ShortSectionsAreChunks(sections: seq<string>)
    requires forall k :: 0 <= k < |sections| ==> |sections[k]| <= DEFAULT_MAX_CHUNK_CHARS
    ensures PiecesOf(sections) == sections
  {
    if sections != [] {
      ShortSectionsAreChunks(sections[..|sections| - 1]);
    }
  }

  lemma SectionsReopen(sections: seq<string>)
    requires forall k :: 0 <= k < |sections| ==> IsSection(sections[k])
    ensures Reopens(sections) <==> forall k :: 0 < k < |sections| ==> HeadingAt(sections[k], 0)
  {
    forall k | 0 <= k < |sections| ensures Trimmed(sections[k]) {
      assert IsSection(sections[k]);
    }
  }

  lemma NoReturnsLeft(content: string)
    requires '\r' !in content
    ensures !HasCRLF(Aggregate(Chunks(content)))
  {
    var cs := Chunks(content);
    NoReturns(content);
    ReturnsOfChunks(content);
    ReturnsJoin(cs, "\n\n");
    ReturnsReplaced(Aggregate(cs));
  }

  /**
   * The same in terms of the document: without carriage returns and long sections, it
   * comes back if and only if every section after the first opens with a heading.
   */
  lemma ShortDocumentRoundTrip(content: string)
    requires '\r' !in content
    requires forall k :: 0 <= k < |Sections(content)| ==> |Sections(content)[k]| <= DEFAULT_MAX_CHUNK_CHARS
    ensures Chunks(Aggregate(Chunks(content))) == Chunks(content)
            <==> forall k :: 0 < k < |Sections(content)| ==> HeadingAt(Sections(content)[k], 0)
  {
    ShortSectionsAreChunks(Sections(content));
    SectionsAreSections(content);
    SectionsReopen(Sections(content));
    NoReturnsLeft(content);
    AggregateRoundTrip(content);
  }

  const BARE_HEADING := "a\n# "

  /** A bare heading does not survive: its section is trimmed to `#`, which is no heading. */
  lemma BareHeadingLost()
    ensures Chunks(BARE_HEADING) == ["a", "#"]
    ensures Chunks(Aggregate(Chunks(BARE_HEADING))) != Chunks(BARE_HEADING)
  {
    BareHeadingChunks();
    AggregateRoundTrip(BARE_HEADING);
    assert Chunks(BARE_HEADING)[1] == "#";
  }

  lemma BareHeadingLines()
    ensures Lines(BARE_HEADING) == ["a", "# "]
  {
    NoCRLFUnchanged(BARE_HEADING);
    SplitNone("a", '\n');
    SplitNone("# ", '\n');
    assert BARE_HEADING == "a" + ['\n'] + "# ";
    SplitAt("a", "# ", '\n');
  }

  lemma BareHeadingGroups()
    ensures Groups(["a", "# "]) == [["a"], ["# "]]
  {
    HeadingEnd("# ", 0, 1);
    GroupsPlainTail(["a"]);
    GroupsPlainTail(["# "]);
    GroupsAppendHeading(["a"], ["# "]);
    assert ["a"] + ["# "] == ["a", "# "];
  }

  lemma BareHeadingSections()
    ensures RenderAll([["a"], ["# "]]) == ["a", "#"]
  {
    RenderedLine("a", "");
    RenderedLine("#", " ");
    assert "a" + "" == "a" && "#" + " " == "# ";
    RenderAllTwo(["a"], ["# "]);
  }

  lemma RenderAllTwo(a: seq<string>, b: seq<string>)
    ensures RenderAll([a, b]) == Rendered(a) + Rendered(b)
  {
    assert [a, b] == [a] + [b];
    RenderAllAppend([a], [b]);
    RenderAllOne(a);
    RenderAllOne(b);
  }

  lemma RenderedLine(text: string, tail: string)
    requires Trimmed(text) && Blank(tail)
    ensures Rendered([text + tail]) == [text]
  {
    TrimSpaceUnique([], text, tail);
    assert [] + text + tail == text + tail;
  }

  lemma BareHeadingChunks()
    ensures Chunks(BARE_HEADING) == ["a", "#"]
  {
    BareHeadingLines();
    BareHeadingGroups();
    BareHeadingSections();
    assert ["a", "#"] == ["a"] + ["#"];
    PiecesOfAppend(["a"], ["#"]);
    PiecesOfOne("a");
    PiecesOfOne("#");
  }
}
