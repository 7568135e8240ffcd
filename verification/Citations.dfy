/** The body of a citations block. */
module Citations {
  import opened Basics
  import opened Text
  import opened TextLemmas
  import opened Fields

  datatype Citation = Citation(file: string, section: string, lines: string)

  const ITEM := "- "
  const FILE := "file:"

  /** The file a list item starts an entry for. */
  function ItemOf(line: string): Option<string> {
    var l := TrimSpace(line);
    if HasPrefix(l, ITEM) then
      var rest := TrimSpace(TrimPrefix(l, ITEM));
      Some(if HasPrefix(rest, FILE) then TrimSpace(TrimPrefix(rest, FILE)) else rest)
    else None
  }

  datatype Field = Field(key: string, value: string)

  function SplitField(line: string): Option<Field> {
    var i := Index(line, ":");
    if i == |line| then None else Some(Field(TrimSpace(line[..i]), TrimSpace(line[i + 1..])))
  }

  function Updated(c: Citation, line: string): Citation {
    match SplitField(TrimSpace(line))
    case None => c
    case Some(f) =>
      if f.key == "file" then c.(file := f.value)
      else if f.key == "section" then c.(section := f.value)
      else if f.key == "lines" then c.(lines := f.value)
      else c
  }

  /** The entries of the lines: each item starts one, and the lines that follow fill it in. */
  function Entries(lines: seq<string>): seq<Citation> {
    if lines == [] then []
    else
      var n := |lines| - 1;
      var front, line := Entries(lines[..n]), lines[n];
      if TrimSpace(line) == "" then front
      else if ItemOf(line).Some? then front + [Citation(ItemOf(line).value, "", "")]
      else if front == [] then front
      else front[..|front| - 1] + [Updated(front[|front| - 1], line)]
  }

  /** Nothing when there is no entry. */
  function CitationsOf(body: string): (r: Option<seq<Citation>>)
    ensures r.Some? ==> r.value != []
  {
    var entries := Entries(Split(TrimSpace(body), '\n'));
    if entries == [] then None else Some(entries)
  }

  method ParseCitationsBody(body: string) returns (r: Option<seq<Citation>>)
    ensures r == CitationsOf(body)
  {
    hide TrimSpace, Split, ItemOf, SplitField, Updated;
    var cits: seq<Citation> := [];
    var cur: Option<Citation> := None;
    var lines := Split(TrimSpace(body), '\n');
    for i := 0 to |lines|
      invariant cur.None? ==> cits == []
      invariant Entries(lines[..i]) == cits + if cur.Some? then [cur.value] else []
    {
      assert lines[..i + 1][..i] == lines[..i];
      if TrimSpace(lines[i]) != "" {
        var item := ItemOf(lines[i]);
        if item.Some? {
          if cur.Some? {
            cits := cits + [cur.value];
          }
          cur := Some(Citation(item.value, "", ""));
        } else if cur.Some? {
          cur := Some(Updated(cur.value, lines[i]));
        }
      }
    }
    assert lines[..|lines|] == lines;
    if cur.Some? {
      cits := cits + [cur.value];
    }
    return if |cits| == 0 then None else Some(cits);
  }

  // ----- round trip

  const SECTION := "section:"
  const LINES := "lines:"
  const INDENT := "    "

  predicate WellFormed(c: Citation) {
    c.file != "" && OneLine(c.file) && OneLine(c.section) && OneLine(c.lines)
  }

  function FieldLines(key: string, value: string): seq<string> {
    if value == "" then [] else [INDENT + (key + " " + value)]
  }

  /** An entry as the expert is told to write it; empty fields are left out. */
  function RenderCitation(c: Citation): seq<string> {
    [ITEM + (FILE + " " + c.file)] + FieldLines(SECTION, c.section) + FieldLines(LINES, c.lines)
  }

  function RenderAll(cits: seq<Citation>): seq<string> {
    if cits == [] then [] else RenderAll(cits[..|cits| - 1]) + RenderCitation(cits[|cits| - 1])
  }

  lemma EntriesSnoc(lines: seq<string>, line: string)
    ensures Entries(lines + [line]) ==
            var front := Entries(lines);
            if TrimSpace(line) == "" then front
            else if ItemOf(line).Some? then front + [Citation(ItemOf(line).value, "", "")]
            else if front == [] then front
            else front[..|front| - 1] + [Updated(front[|front| - 1], line)]
  {
    hide TrimSpace, ItemOf, Updated;
    assert (lines + [line])[..|lines|] == lines;
  }

  lemma ItemReads(file: string)
    requires file != "" && OneLine(file)
    ensures var line := ITEM + (FILE + " " + file);
            TrimSpace(line) != "" && ItemOf(line) == Some(file)
  {
    hide IsSpace, TrimSpace, Trimmed, Blank;
    CitationKeys();
    var rest := FILE + " " + file;
    var line := ITEM + rest;
    FieldIsTrimmed(FILE, file);
    ItemIsTrimmed(rest);
    TrimSpaceSame(line);
    TrimSpaceSame(rest);
    assert TrimPrefix(line, ITEM) == rest;
    assert TrimPrefix(rest, FILE) == " " + file;
    BlankOne();
    TrimSpaceOf(" ", file, "");
    assert " " + file + "" == " " + file;
  }

  lemma ItemIsTrimmed(rest: string)
    requires Solid(rest)
    ensures Trimmed(ITEM + rest)
  {
    assert !IsSpace('-');
    hide IsSpace;
  }

  lemma CitationKeys()
    ensures Solid(FILE) && Solid(SECTION) && Solid(LINES) && Blank(INDENT)
    ensures FILE == "file" + ":" && SECTION == "section" + ":" && LINES == "lines" + ":"
    ensures ':' !in "section" && ':' !in "lines" && Trimmed("section") && Trimmed("lines")
  {
  }

  lemma ColonFirst(name: string, rest: string)
    requires ':' !in name
    ensures Index(name + ":" + rest, ":") == |name|
  {
    var s := name + ":" + rest;
    IndexFacts(s, ":");
    assert At(s, |name|, ":");
    forall j | 0 <= j < |name|
      ensures !At(s, j, ":")
    {
      assert s[j..j + 1][0] == name[j];
    }
  }

  /** A rendered field line reads as its key and value. */
  lemma FieldLineReads(name: string, value: string)
    requires name != "" && Trimmed(name) && ':' !in name && value != "" && OneLine(value) && Solid(name + ":") && name[0] != '-'
    ensures var line := INDENT + ((name + ":") + " " + value);
            TrimSpace(line) != "" && ItemOf(line) == None && SplitField(TrimSpace(line)) == Some(Field(name, value))
  {
    hide IsSpace, TrimSpace, Trimmed, Blank, Index;
    CitationKeys();
    var core := (name + ":") + " " + value;
    FieldIsTrimmed(name + ":", value);
    BlankOne();
    TrimSpaceOf(INDENT, core, "");
    assert INDENT + core + "" == INDENT + core;
    assert core[0] == name[0];
    assert core == name + ":" + (" " + value);
    ColonFirst(name, " " + value);
    assert core[..|name|] == name && core[|name| + 1..] == " " + value;
    TrimSpaceSame(name);
    TrimSpaceOf(" ", value, "");
    assert " " + value + "" == " " + value;
  }

  lemma FieldFills(lines: seq<string>, name: string, value: string, front: seq<Citation>, c: Citation)
    requires (name == "section" || name == "lines") && OneLine(value)
    requires Entries(lines) == front + [c]
    requires (if name == "section" then c.section else c.lines) == ""
    ensures Entries(lines + FieldLines(name + ":", value)) ==
            front + [if name == "section" then c.(section := value) else c.(lines := value)]
  {
    hide Entries, IsSpace, TrimSpace, Trimmed, ItemOf, SplitField;
    if value == "" {
      assert lines + [] == lines;
    } else {
      var line := INDENT + ((name + ":") + " " + value);
      CitationKeys();
      FieldLineReads(name, value);
      EntriesSnoc(lines, line);
      assert Entries(lines)[..|front|] == front;
    }
  }

  lemma CitationAdds(lines: seq<string>, c: Citation)
    requires WellFormed(c)
    ensures Entries(lines + RenderCitation(c)) == Entries(lines) + [c]
  {
    hide Entries, ItemOf, TrimSpace, FieldLines, Trimmed;
    CitationKeys();
    var line := ITEM + (FILE + " " + c.file);
    ItemReads(c.file);
    EntriesSnoc(lines, line);
    var front := Entries(lines);
    var one := lines + [line];
    FieldFills(one, "section", c.section, front, Citation(c.file, "", ""));
    var two := one + FieldLines(SECTION, c.section);
    FieldFills(two, "lines", c.lines, front, Citation(c.file, c.section, ""));
    assert two + FieldLines(LINES, c.lines) == lines + RenderCitation(c);
  }

  /** Every entry is read back, field for field, from its lines. */
  lemma {:induction false} EntriesOfRendered(cits: seq<Citation>)
    requires forall i :: 0 <= i < |cits| ==> WellFormed(cits[i])
    ensures Entries(RenderAll(cits)) == cits
  {
    hide RenderCitation, WellFormed;
    if cits == [] {
      assert Entries([]) == [];
    } else {
      hide Entries, RenderAll;
      var n := |cits| - 1;
      var front, c := cits[..n], cits[n];
      assert cits == front + [c];
      EntriesOfRendered(front);
      CitationAdds(RenderAll(front), c);
    }
  }

  // ----- the body

  function RenderBody(cits: seq<Citation>): string {
    "\n" + Join(RenderAll(cits), "\n") + "\n"
  }

  /** Lines of a body: none holds a newline, and the first and the last end in no space. */
  ghost predicate Printable(lines: seq<string>) {
    && lines != []
    && (forall i :: 0 <= i < |lines| ==> '\n' !in lines[i])
    && lines[0] != "" && !IsSpace(lines[0][0])
    && lines[|lines| - 1] != "" && !IsSpace(lines[|lines| - 1][|lines[|lines| - 1]| - 1])
  }

  lemma FieldLinesPrint(lines: seq<string>, key: string, value: string)
    requires Printable(lines) && OneLine(value) && '\n' !in key
    ensures Printable(lines + FieldLines(key, value))
  {
    hide IsSpace;
    if value == "" {
      assert lines + [] == lines;
    } else {
      assert '\n' !in INDENT + (key + " " + value);
    }
  }

  lemma CitationPrints(lines: seq<string>, c: Citation)
    requires (lines == [] || Printable(lines)) && WellFormed(c)
    ensures Printable(lines + RenderCitation(c))
  {
    hide IsSpace, FieldLines;
    var line := ITEM + (FILE + " " + c.file);
    var one := lines + [line];
    assert Printable(one) by {
      assert '\n' !in line && line[0] == '-' && !IsSpace('-') by {
        DashIsNoSpace();
      }
      assert line[|line| - 1] == c.file[|c.file| - 1];
    }
    hide Printable;
    FieldLinesPrint(one, SECTION, c.section);
    FieldLinesPrint(one + FieldLines(SECTION, c.section), LINES, c.lines);
    assert one + FieldLines(SECTION, c.section) + FieldLines(LINES, c.lines) == lines + RenderCitation(c);
  }

  lemma DashIsNoSpace()
    ensures !IsSpace('-')
  {
  }

  lemma {:induction false} RenderedPrints(cits: seq<Citation>)
    requires cits != [] && forall i :: 0 <= i < |cits| ==> WellFormed(cits[i])
    ensures Printable(RenderAll(cits))
  {
    hide Printable, RenderCitation, WellFormed;
    var n := |cits| - 1;
    if n > 0 {
      RenderedPrints(cits[..n]);
    }
    CitationPrints(RenderAll(cits[..n]), cits[n]);
  }

  lemma {:induction false} JoinIsTrimmed(lines: seq<string>)
    requires lines != [] && lines[|lines| - 1] != "" && !IsSpace(lines[|lines| - 1][|lines[|lines| - 1]| - 1])
    ensures var s := Join(lines, "\n");
            s != "" && !IsSpace(s[|s| - 1]) && lines[0] <= s
  {
    hide IsSpace;
    if |lines| > 1 {
      JoinIsTrimmed(lines[1..]);
      var rest := Join(lines[1..], "\n");
      assert Join(lines, "\n") == lines[0] + ("\n" + rest);
    }
  }

  /** Reading rendered citations gives them back. */
  lemma CitationsRoundTrip(cits: seq<Citation>)
    requires cits != [] && forall i :: 0 <= i < |cits| ==> WellFormed(cits[i])
    ensures CitationsOf(RenderBody(cits)) == Some(cits)
  {
    hide RenderAll, WellFormed, TrimSpace, Split, IsSpace, Blank, Join;
    RenderedPrints(cits);
    EntriesOfRendered(cits);
    var lines := RenderAll(cits);
    JoinIsTrimmed(lines);
    var core := Join(lines, "\n");
    assert Trimmed(core);
    BlankOne();
    TrimSpaceOf("\n", core, "\n");
    SplitJoin(lines);
  }

  // ----- other forms

  /** An item may be a bare path. */
  lemma PlainItemReads(path: string)
    requires path != "" && OneLine(path) && !HasPrefix(path, "file:")
    ensures ItemOf("- " + path) == Some(path)
  {
    hide IsSpace, TrimSpace;
    ItemIsTrimmed(path);
    hide Trimmed;
    TrimSpaceSame("- " + path);
    TrimSpaceSame(path);
    assert TrimPrefix("- " + path, ITEM) == path;
  }

  /** A later file line replaces the file of the entry, and one with an unknown key changes nothing. */
  lemma FieldReplaces(c: Citation, name: string, value: string)
    requires name != "" && Trimmed(name) && ':' !in name && value != "" && OneLine(value) && Solid(name + ":") && name[0] != '-'
    ensures Updated(c, INDENT + ((name + ":") + " " + value)) ==
            if name == "file" then Citation(value, c.section, c.lines)
            else if name == "section" then Citation(c.file, value, c.lines)
            else if name == "lines" then Citation(c.file, c.section, value)
            else c
  {
    hide IsSpace, TrimSpace, SplitField, ItemOf, Trimmed;
    FieldLineReads(name, value);
  }
}
