/** The markdown chunker of the retrieval index: a file cut at its first and second level headers. */
module MarkdownChunks {
  import opened Text
  import opened TextLemmas

  datatype Chunk = Chunk(file: string, section: string, start: nat, end: nat, body: string)

  const INTRO := "<intro>"

  // ----- header lines

  /** A space to the header pattern, which knows the five ASCII ones only. */
  predicate IsPatternSpace(c: char) {
    c == '\t' || c == '\n' || c == '\U{0C}' || c == '\r' || c == ' '
  }

  /** Position of the first character from i on that is no pattern space. */
  function SkipSpaces(line: string, i: nat): nat
    requires i <= |line|
    decreases |line| - i
  {
    if i < |line| && IsPatternSpace(line[i]) then SkipSpaces(line, i + 1) else i
  }

  /** One or two number signs, some space, and then something. */
  predicate IsHeaderLine(line: string) {
    && |line| > 0 && line[0] == '#'
    && var i := if |line| > 1 && line[1] == '#' then 2 else 1;
       i < SkipSpaces(line, i) < |line|
  }

  function StripMarks(line: string): string {
    if line != "" && (line[0] == '#' || line[0] == ' ') then StripMarks(line[1..]) else line
  }

  function TitleOf(line: string): string {
    TrimSpace(StripMarks(line))
  }

  // ----- blank lines

  lemma {:induction false} TrimLeftEmpty(s: string)
    ensures TrimLeft(s) == "" <==> Blank(s)
  {
    hide IsSpace;
    if s != "" {
      TrimLeftEmpty(s[1..]);
      if Blank(s[1..]) && IsSpace(s[0]) {
        assert forall i :: 0 < i < |s| ==> s[i] == s[1..][i - 1];
      }
    }
  }

  lemma TrimSpaceEmpty(s: string)
    ensures TrimSpace(s) == "" <==> Blank(s)
  {
    hide IsSpace;
    TrimLeftEmpty(s);
    TrimLeftFacts(s);
    var l := TrimLeft(s);
    if l != "" {
      TrimRightKeeps(l);
    }
  }

  lemma {:induction false} TrimRightKeeps(l: string)
    requires l != "" && !IsSpace(l[0])
    ensures TrimRight(l) != ""
  {
    hide IsSpace;
    if |l| > 1 {
      TrimRightKeeps(l[..|l| - 1]);
    }
  }

  ghost predicate AllBlank(lines: seq<string>) {
    forall i :: 0 <= i < |lines| ==> Blank(lines[i])
  }

  lemma BlankConcat(a: string, b: string)
    ensures Blank(a + "\n" + b) <==> Blank(a) && Blank(b)
  {
    NewlineIsSpace();
    hide IsSpace;
    var s := a + "\n" + b;
    assert forall i :: 0 <= i < |a| ==> s[i] == a[i];
    assert forall i :: 0 <= i < |b| ==> s[|a| + 1 + i] == b[i];
  }

  lemma NewlineIsSpace()
    ensures IsSpace('\n') && !IsSpace('#')
  {
  }

  lemma {:induction false} JoinBlank(lines: seq<string>)
    ensures Blank(Join(lines, "\n")) <==> AllBlank(lines)
  {
    hide Blank;
    if lines == [] {
      EmptyIsBlank();
    } else if |lines| > 1 {
      JoinBlank(lines[1..]);
      BlankConcat(lines[0], Join(lines[1..], "\n"));
      assert forall i :: 0 < i < |lines| ==> lines[i] == lines[1..][i - 1];
      assert forall i :: 0 <= i < |lines[1..]| ==> lines[1..][i] == lines[i + 1];
    }
  }

  lemma EmptyIsBlank()
    ensures Blank("")
  {
  }

  function BodyOf(lines: seq<string>): string {
    TrimSpace(Join(lines, "\n"))
  }

  lemma BodyEmpty(lines: seq<string>)
    ensures BodyOf(lines) == "" <==> AllBlank(lines)
  {
    hide TrimSpace, Blank, Join;
    TrimSpaceEmpty(Join(lines, "\n"));
    JoinBlank(lines);
  }

  // ----- the partition

  ghost predicate NoHeader(lines: seq<string>, lo: nat, hi: nat)
    requires hi <= |lines|
  {
    forall i :: lo <= i < hi ==> !IsHeaderLine(lines[i])
  }

  /** The section that runs over lines[lo..hi], lines counted from 0: it starts at a header, which names it,
      or at the top of the file, and holds no other header. */
  ghost predicate Section(lines: seq<string>, lo: nat, hi: nat, title: string)
    requires lo <= hi <= |lines|
  {
    || (lo < hi && IsHeaderLine(lines[lo]) && title == TitleOf(lines[lo]) && NoHeader(lines, lo + 1, hi))
    || (lo == 0 && title == INTRO && NoHeader(lines, 0, hi))
  }

  /** The chunk is the section over its line range, and its body the trimmed text of that range. */
  ghost predicate Faithful(lines: seq<string>, file: string, c: Chunk) {
    && 1 <= c.start <= c.end <= |lines|
    && c.file == file
    && Section(lines, c.start - 1, c.end, c.section)
    && c.body == BodyOf(lines[c.start - 1..c.end]) && c.body != ""
  }

  /** The chunks cut up the first n lines: each is faithful; each begins on the line after the one before;
      the last ends at line n; what comes before the first is blank. */
  ghost predicate Partition(lines: seq<string>, file: string, chunks: seq<Chunk>, n: nat)
    requires n <= |lines|
  {
    && (forall k :: 0 <= k < |chunks| ==> Faithful(lines, file, chunks[k]))
    && (forall j, k :: 0 <= j < k < |chunks| && k == j + 1 ==> chunks[j].end + 1 == chunks[k].start)
    && if chunks == [] then AllBlank(lines[..n])
       else chunks[|chunks| - 1].end == n && AllBlank(lines[..chunks[0].start - 1]) && NoHeader(lines, 0, chunks[0].start - 1)
  }

  /** Closes the section over lines[lo..hi]. */
  method Flush(ghost lines: seq<string>, file: string, chunks: seq<Chunk>, current: seq<string>, section: string,
               sectionStart: nat, endLine: nat)
    returns (r: seq<Chunk>)
    requires 1 <= sectionStart <= endLine + 1 <= |lines| + 1 && current == lines[sectionStart - 1..endLine]
    requires Partition(lines, file, chunks, sectionStart - 1)
    requires Section(lines, sectionStart - 1, endLine, section)
    requires chunks == [] ==> NoHeader(lines, 0, sectionStart - 1)
    ensures Partition(lines, file, r, endLine)
    ensures r == [] ==> NoHeader(lines, 0, endLine)
  {
    hide BodyOf, IsHeaderLine, TitleOf, Partition, Section, NoHeader;
    r := chunks;
    if |current| == 0 {
      return;
    }
    var body := BodyOf(current);
    if body == "" {
      BlankSection(lines, file, chunks, section, sectionStart, endLine);
      return;
    }
    AddSection(lines, file, chunks, section, sectionStart, endLine);
    r := chunks + [Chunk(file, section, sectionStart, endLine, body)];
  }

  /** A blank section is the introduction: nothing was cut before it. */
  lemma BlankSection(lines: seq<string>, file: string, chunks: seq<Chunk>, section: string, sectionStart: nat, endLine: nat)
    requires 1 <= sectionStart <= endLine <= |lines|
    requires Partition(lines, file, chunks, sectionStart - 1) && Section(lines, sectionStart - 1, endLine, section)
    requires BodyOf(lines[sectionStart - 1..endLine]) == ""
    ensures chunks == [] && Partition(lines, file, chunks, endLine) && NoHeader(lines, 0, endLine)
  {
    hide BodyOf, IsHeaderLine, TitleOf, Blank;
    var current := lines[sectionStart - 1..endLine];
    BodyEmpty(current);
    BlankHasNoHeader(current);
    assert !IsHeaderLine(current[0]) && current[0] == lines[sectionStart - 1];
    assert sectionStart == 1 && current == lines[..endLine];
  }

  lemma AddSection(lines: seq<string>, file: string, chunks: seq<Chunk>, section: string, sectionStart: nat, endLine: nat)
    requires 1 <= sectionStart <= endLine <= |lines|
    requires Partition(lines, file, chunks, sectionStart - 1) && Section(lines, sectionStart - 1, endLine, section)
    requires chunks == [] ==> NoHeader(lines, 0, sectionStart - 1)
    requires BodyOf(lines[sectionStart - 1..endLine]) != ""
    ensures var c := Chunk(file, section, sectionStart, endLine, BodyOf(lines[sectionStart - 1..endLine]));
            Partition(lines, file, chunks + [c], endLine)
  {
    hide BodyOf, IsHeaderLine, TitleOf, Section, AllBlank, NoHeader;
    var c := Chunk(file, section, sectionStart, endLine, BodyOf(lines[sectionStart - 1..endLine]));
    assert Faithful(lines, file, c);
    hide Faithful;
  }

  lemma HeaderIsNotBlank(line: string)
    requires IsHeaderLine(line)
    ensures !Blank(line)
  {
    NewlineIsSpace();
    hide IsSpace;
  }

  lemma BlankHasNoHeader(lines: seq<string>)
    requires AllBlank(lines)
    ensures NoHeader(lines, 0, |lines|)
  {
    forall i | 0 <= i < |lines|
      ensures !IsHeaderLine(lines[i])
    {
      if IsHeaderLine(lines[i]) {
        HeaderIsNotBlank(lines[i]);
      }
    }
  }

  /** chunkMarkdown: the chunks cut the file up, in order, with nothing left out but blank lines before
      the first of them. */
  method ChunkMarkdown(content: string, file: string) returns (chunks: seq<Chunk>)
    ensures var lines := Split(content, '\n'); Partition(lines, file, chunks, |lines|)
  {
    hide Partition, Split, TitleOf, IsHeaderLine, Section, NoHeader;
    var lines := Split(content, '\n');
    chunks := [];
    var current: seq<string> := [];
    var section, sectionStart := INTRO, 1;
    PartitionNothing(lines, file);
    for i := 0 to |lines|
      invariant 1 <= sectionStart <= i + 1
      invariant current == lines[sectionStart - 1..i]
      invariant Partition(lines, file, chunks, sectionStart - 1)
      invariant Section(lines, sectionStart - 1, i, section)
      invariant chunks == [] ==> NoHeader(lines, 0, sectionStart - 1)
    {
      var line := lines[i];
      if IsHeaderLine(line) {
        chunks := Flush(lines, file, chunks, current, section, sectionStart, i);
        current := [];
        section := TitleOf(line);
        sectionStart := i + 1;
        SectionStarts(lines, i);
      } else {
        SectionGrows(lines, sectionStart - 1, i, section);
      }
      TakeOneMore(lines, sectionStart - 1, i);
      current := current + [line];
    }
    chunks := Flush(lines, file, chunks, current, section, sectionStart, |lines|);
  }

  lemma TakeOneMore(lines: seq<string>, lo: nat, i: nat)
    requires lo <= i < |lines|
    ensures lines[lo..i] + [lines[i]] == lines[lo..i + 1] && lines[i..i] == []
  {
  }

  lemma PartitionNothing(lines: seq<string>, file: string)
    ensures Partition(lines, file, [], 0) && Section(lines, 0, 0, INTRO) && NoHeader(lines, 0, 0)
  {
  }

  lemma SectionStarts(lines: seq<string>, i: nat)
    requires i < |lines| && IsHeaderLine(lines[i])
    ensures Section(lines, i, i + 1, TitleOf(lines[i]))
  {
    hide IsHeaderLine, TitleOf;
  }

  lemma SectionGrows(lines: seq<string>, lo: nat, i: nat, title: string)
    requires lo <= i < |lines| && Section(lines, lo, i, title) && !IsHeaderLine(lines[i])
    ensures Section(lines, lo, i + 1, title)
  {
    hide IsHeaderLine, TitleOf;
  }

  // ----- what the partition means

  ghost predicate Covers(c: Chunk, i: nat) {
    c.start - 1 <= i < c.end
  }

  lemma {:induction false} RangesIncrease(lines: seq<string>, file: string, chunks: seq<Chunk>, n: nat, j: nat, k: nat)
    requires n <= |lines| && Partition(lines, file, chunks, n) && j < k < |chunks|
    ensures chunks[j].end < chunks[k].start
    decreases k
  {
    hide Section, BodyOf, AllBlank, NoHeader;
    assert chunks[k - 1].end + 1 == chunks[k].start;
    if j < k - 1 {
      RangesIncrease(lines, file, chunks, n, j, k - 1);
      assert Faithful(lines, file, chunks[k - 1]);
    }
  }

  /** The chunk that covers a line from the first chunk's start on. */
  lemma {:induction false} FindCover(lines: seq<string>, file: string, chunks: seq<Chunk>, n: nat, i: nat, k: nat) returns (j: nat)
    requires n <= |lines| && Partition(lines, file, chunks, n)
    requires k < |chunks| && chunks[0].start - 1 <= i < chunks[k].end
    ensures j <= k && Covers(chunks[j], i)
    decreases k
  {
    hide Section, BodyOf, AllBlank, NoHeader;
    if chunks[k].start - 1 <= i {
      j := k;
    } else {
      assert chunks[k - 1].end + 1 == chunks[k].start;
      j := FindCover(lines, file, chunks, n, i, k - 1);
    }
  }

  /** Every line that is not blank lies in exactly one chunk's range. */
  lemma CoveredOnce(lines: seq<string>, file: string, chunks: seq<Chunk>, i: nat)
    requires Partition(lines, file, chunks, |lines|) && i < |lines| && !Blank(lines[i])
    ensures exists k :: 0 <= k < |chunks| && Covers(chunks[k], i)
    ensures forall j, k :: 0 <= j < |chunks| && 0 <= k < |chunks| && Covers(chunks[j], i) && Covers(chunks[k], i) ==> j == k
  {
    hide Section, BodyOf, NoHeader, Blank;
    if chunks != [] {
      var _ := FindCover(lines, file, chunks, |lines|, i, |chunks| - 1);
    }
    forall j, k | 0 <= j < k < |chunks|
      ensures chunks[j].end < chunks[k].start
    {
      RangesIncrease(lines, file, chunks, |lines|, j, k);
    }
  }

  /** Every header line starts a chunk, and names it. */
  lemma StartsAtHeaders(lines: seq<string>, file: string, chunks: seq<Chunk>, i: nat)
    requires Partition(lines, file, chunks, |lines|) && i < |lines| && IsHeaderLine(lines[i])
    ensures exists k :: 0 <= k < |chunks| && chunks[k].start == i + 1 && chunks[k].section == TitleOf(lines[i])
  {
    HeaderIsNotBlank(lines[i]);
    CoveredOnce(lines, file, chunks, i);
    hide BodyOf, TitleOf, IsHeaderLine;
    var k :| 0 <= k < |chunks| && Covers(chunks[k], i);
    assert Faithful(lines, file, chunks[k]);
  }

  /** Only the first chunk can be an introduction; every other begins at a header. */
  lemma OnlyFirstIsIntro(lines: seq<string>, file: string, chunks: seq<Chunk>, k: nat)
    requires Partition(lines, file, chunks, |lines|) && 0 < k < |chunks|
    ensures IsHeaderLine(lines[chunks[k].start - 1]) && chunks[k].section == TitleOf(lines[chunks[k].start - 1])
  {
    hide BodyOf, TitleOf, IsHeaderLine;
    RangesIncrease(lines, file, chunks, |lines|, 0, k);
    assert Faithful(lines, file, chunks[0]);
    assert Faithful(lines, file, chunks[k]);
  }

  /** Without its last chunk a partition cuts up the lines before that chunk. */
  lemma PartitionFront(lines: seq<string>, file: string, a: seq<Chunk>, n: nat)
    requires n <= |lines| && Partition(lines, file, a, n) && a != []
    ensures var k := |a| - 1;
            && 1 <= a[k].start <= a[k].end == n && Partition(lines, file, a[..k], a[k].start - 1)
            && Faithful(lines, file, a[k])
  {
    hide Section, BodyOf, AllBlank, NoHeader;
    var k := |a| - 1;
    assert Faithful(lines, file, a[k]);
    if k > 0 {
      assert a[k - 1].end + 1 == a[k].start;
    }
  }

  lemma SectionStart(lines: seq<string>, lo: nat, hi: nat, title: string, lo': nat, title': string)
    requires lo <= lo' < hi <= |lines| && Section(lines, lo, hi, title) && Section(lines, lo', hi, title')
    ensures lo == lo' && title == title'
  {
    hide IsHeaderLine, TitleOf;
  }

  lemma SameLast(lines: seq<string>, file: string, x: Chunk, y: Chunk)
    requires Faithful(lines, file, x) && Faithful(lines, file, y) && x.end == y.end && x.start <= y.start
    ensures x == y
  {
    hide Section, BodyOf;
    SectionStart(lines, x.start - 1, x.end, x.section, y.start - 1, y.section);
  }

  lemma BlankHasNoChunk(lines: seq<string>, file: string, a: seq<Chunk>, n: nat)
    requires n <= |lines| && Partition(lines, file, a, n) && AllBlank(lines[..n])
    ensures a == []
  {
    hide Section, BodyOf, Blank, NoHeader;
    if a != [] {
      PartitionFront(lines, file, a, n);
      var c := a[|a| - 1];
      assert Faithful(lines, file, c);
      BodyEmpty(lines[c.start - 1..c.end]);
    }
  }

  lemma NoChunkIsBlank(lines: seq<string>, file: string, n: nat)
    requires n <= |lines|
    ensures Partition(lines, file, [], n) ==> AllBlank(lines[..n])
  {
  }

  /** The partition leaves no choice: two lists of chunks that cut up the same file are the same. */
  lemma {:induction false} PartitionIsUnique(lines: seq<string>, file: string, a: seq<Chunk>, b: seq<Chunk>, n: nat)
    requires n <= |lines| && Partition(lines, file, a, n) && Partition(lines, file, b, n)
    ensures a == b
    decreases n
  {
    hide Partition, Faithful;
    NoChunkIsBlank(lines, file, n);
    if a == [] {
      BlankHasNoChunk(lines, file, b, n);
    } else if b == [] {
      BlankHasNoChunk(lines, file, a, n);
    } else {
      var x, y := a[|a| - 1], b[|b| - 1];
      PartitionFront(lines, file, a, n);
      PartitionFront(lines, file, b, n);
      if x.start <= y.start {
        SameLast(lines, file, x, y);
      } else {
        SameLast(lines, file, y, x);
      }
      PartitionIsUnique(lines, file, a[..|a| - 1], b[..|b| - 1], x.start - 1);
      assert a == a[..|a| - 1] + [x] && b == b[..|b| - 1] + [y];
    }
  }

  // ----- header lines, written out

  /** n number signs, then pattern spaces up to place m, and there something else. */
  ghost predicate HeaderOf(line: string, n: nat, m: nat) {
    && 1 <= n <= 2 && n < m < |line|
    && (forall i :: 0 <= i < n ==> line[i] == '#')
    && (forall i :: n <= i < m ==> IsPatternSpace(line[i]))
    && !IsPatternSpace(line[m])
  }

  lemma {:induction false} SkipFacts(line: string, i: nat)
    requires i <= |line|
    ensures var m := SkipSpaces(line, i);
            i <= m <= |line| && (forall k :: i <= k < m ==> IsPatternSpace(line[k])) && (m < |line| ==> !IsPatternSpace(line[m]))
    decreases |line| - i
  {
    if i < |line| && IsPatternSpace(line[i]) {
      SkipFacts(line, i + 1);
    }
  }

  /** A header is one or two number signs, one of the pattern's spaces or more, and then something else. */
  lemma HeaderExactly(line: string)
    ensures IsHeaderLine(line) <==> exists n: nat, m: nat :: HeaderOf(line, n, m)
  {
    hide SkipSpaces;
    if |line| > 0 && line[0] == '#' {
      var i := if |line| > 1 && line[1] == '#' then 2 else 1;
      SkipFacts(line, i);
      var e := SkipSpaces(line, i);
      if i < e < |line| {
        assert HeaderOf(line, i, e);
      }
      if n: nat, m: nat :| HeaderOf(line, n, m) {
        assert IsPatternSpace(line[n]);
        assert n == i;
        assert e == m;
      }
    }
  }

  /** Its title is the text after the number signs and spaces it begins with, trimmed. */
  lemma {:induction false} TitleExactly(marks: string, rest: string)
    requires forall i :: 0 <= i < |marks| ==> marks[i] == '#' || marks[i] == ' '
    requires rest == "" || (rest[0] != '#' && rest[0] != ' ')
    ensures TitleOf(marks + rest) == TrimSpace(rest)
  {
    hide TrimSpace;
    if marks == "" {
      assert marks + rest == rest;
    } else {
      TitleExactly(marks[1..], rest);
      assert (marks + rest)[1..] == marks[1..] + rest;
    }
  }

  /** A chunk that does not begin at a header is called the introduction, and begins at the top of the file. */
  lemma IntroIsFirst(lines: seq<string>, file: string, chunks: seq<Chunk>, k: nat)
    requires Partition(lines, file, chunks, |lines|) && k < |chunks| && !IsHeaderLine(lines[chunks[k].start - 1])
    ensures k == 0 && chunks[0].start == 1 && chunks[0].section == "<intro>"
  {
    hide IsHeaderLine, TitleOf, BodyOf;
    assert Faithful(lines, file, chunks[k]);
    if k > 0 {
      OnlyFirstIsIntro(lines, file, chunks, k);
    }
  }
}
