/** ParseStream: the tool calls and the citations in an expert's answer, and the text without them. */
module ChatParser {
  import opened Basics
  import opened Text
  import opened TextLemmas
  import opened Fields
  import opened TagParser
  import opened ToolCalls
  import opened Citations

  const TOOL_CALL := Tags("<tool-call>", "</tool-call>")
  const CITATIONS := Tags("<citations>", "</citations>")

  datatype Parsed = Parsed(text: string, toolCalls: seq<ToolCall>, citations: seq<Citation>)

  function Concat<T>(groups: seq<seq<T>>): seq<T> {
    if groups == [] then [] else Concat(groups[..|groups| - 1]) + groups[|groups| - 1]
  }

  /** The text between the two passes. */
  function WithoutToolCalls(stream: string): string {
    Kept(Scan(stream, TOOL_CALL), TOOL_CALL, ToolCallOf)
  }

  method ParseStream(stream: string) returns (r: Parsed)
    ensures r.text == Kept(Scan(WithoutToolCalls(stream), CITATIONS), CITATIONS, CitationsOf)
    ensures r.toolCalls == Values(Scan(stream, TOOL_CALL), ToolCallOf)
    ensures r.citations == Concat(Values(Scan(WithoutToolCalls(stream), CITATIONS), CitationsOf))
  {
    hide Scan, Kept, Values, ToolCallOf, CitationsOf;
    var text, calls := ExtractBlocks(stream, TOOL_CALL, ToolCallOf);
    var rest, groups := ExtractBlocks(text, CITATIONS, CitationsOf);
    var citations: seq<Citation> := [];
    for i := 0 to |groups|
      invariant citations == Concat(groups[..i])
    {
      assert groups[..i + 1][..i] == groups[..i];
      citations := citations + groups[i];
    }
    assert groups[..|groups|] == groups;
    return Parsed(rest, calls, citations);
  }

  /** The blocks of either kind removed from a text, each with the place it was taken from. */
  function Taken<T>(s: string, t: Tags, parser: string -> Option<T>): seq<(nat, string)>
    requires Usable(t)
  {
    Removed(Scan(s, t), t, parser, 0)
  }

  /** Nothing is lost: putting the citation blocks and then the tool-call blocks back, each at its
      place, rebuilds the stream. */
  lemma StreamIsRebuilt(stream: string)
    ensures var text := WithoutToolCalls(stream);
            var citations, calls := Taken(text, CITATIONS, CitationsOf), Taken(stream, TOOL_CALL, ToolCallOf);
            var shown := Kept(Scan(text, CITATIONS), CITATIONS, CitationsOf);
            Reinsert(Reinsert(shown, 0, citations, CITATIONS), 0, calls, TOOL_CALL) == stream
  {
    hide Scan, Kept, Removed, Reinsert, ToolCallOf, CitationsOf;
    var text := WithoutToolCalls(stream);
    ScanRebuilds(stream, TOOL_CALL);
    ReinsertRebuilds(Scan(stream, TOOL_CALL), TOOL_CALL, ToolCallOf, 0);
    ScanRebuilds(text, CITATIONS);
    ReinsertRebuilds(Scan(text, CITATIONS), CITATIONS, CitationsOf, 0);
  }

  // ----- round trip

  /** A piece of text and the tool call after it. */
  datatype Piece = Piece(text: string, call: ToolCall)

  function Answer(pieces: seq<Piece>, end: string): Doc {
    if pieces == [] then Tail(end)
    else Gap(pieces[0].text, RenderToolCall(pieces[0].call), Answer(pieces[1..], end))
  }

  function Texts(pieces: seq<Piece>): string {
    if pieces == [] then "" else pieces[0].text + Texts(pieces[1..])
  }

  function Calls(pieces: seq<Piece>): seq<ToolCall> {
    if pieces == [] then [] else [pieces[0].call] + Calls(pieces[1..])
  }

  /** The text holds no opening tag; the call is a verb and arguments on a line each, and holds no closing tag. */
  predicate Plain(p: Piece) {
    && !Contains(p.text, TOOL_CALL.open)
    && p.call.verb != "" && OneLine(p.call.verb) && OneLine(p.call.args)
    && !Contains(RenderToolCall(p.call), TOOL_CALL.close)
  }

  lemma {:induction false} AnswerIsProper(pieces: seq<Piece>, end: string)
    requires (forall i :: 0 <= i < |pieces| ==> Plain(pieces[i])) && !Contains(end, TOOL_CALL.open)
    ensures Proper(Answer(pieces, end), TOOL_CALL)
  {
    hide FirstAtEnd, Index, RenderToolCall;
    if pieces != [] {
      assert Plain(pieces[0]);
      NoOverlap(pieces[0].text, TOOL_CALL.open);
      NoOverlap(RenderToolCall(pieces[0].call), TOOL_CALL.close);
      AnswerIsProper(pieces[1..], end);
    }
  }

  lemma {:induction false} AnswerParts(pieces: seq<Piece>, end: string)
    requires forall i :: 0 <= i < |pieces| ==> Plain(pieces[i])
    ensures Kept(Answer(pieces, end), TOOL_CALL, ToolCallOf) == Texts(pieces) + end
    ensures Values(Answer(pieces, end), ToolCallOf) == Calls(pieces)
  {
    hide ToolCallOf, RenderToolCall, Contains, OneLine;
    if pieces == [] {
      assert "" + end == end;
    } else {
      var p, rest := pieces[0], pieces[1..];
      assert Plain(p);
      ToolCallRoundTrip(p.call);
      AnswerParts(rest, end);
      assert p.text + "" + (Texts(rest) + end) == p.text + Texts(rest) + end;
    }
  }

  /** Extracting from texts interleaved with rendered tool calls gives back the texts and the calls. */
  lemma ExtractInvertsRender(pieces: seq<Piece>, end: string)
    requires (forall i :: 0 <= i < |pieces| ==> Plain(pieces[i])) && !Contains(end, TOOL_CALL.open)
    ensures var stream := Whole(Answer(pieces, end), TOOL_CALL);
            && WithoutToolCalls(stream) == Texts(pieces) + end
            && Values(Scan(stream, TOOL_CALL), ToolCallOf) == Calls(pieces)
  {
    hide Plain, Answer, Whole, Scan, Kept, Values, ToolCallOf, Proper;
    AnswerIsProper(pieces, end);
    AnswerParts(pieces, end);
    ScanFindsBlocks(Answer(pieces, end), TOOL_CALL);
  }

  // ----- an answer with a tool call and citations, written out

  /** The body of a tool call, as the expert is told to write it. */
  lemma ToolCallIsWritten(c: ToolCall)
    ensures RenderToolCall(c) == "\nverb: " + c.verb + "\nargs: " + c.args + "\n"
  {
    assert VERB + " " == "verb: " && ARGS + " " == "args: ";
    assert RenderToolCall(c) == "\n" + ("verb: " + c.verb) + "\n" + ("args: " + c.args) + "\n";
  }

  /** The lines of a citation. */
  lemma CitationIsWritten(c: Citation)
    ensures RenderCitation(c) ==
            ["- file: " + c.file]
            + (if c.section == "" then [] else ["    section: " + c.section])
            + (if c.lines == "" then [] else ["    lines: " + c.lines])
  {
    assert ITEM + (FILE + " " + c.file) == "- file: " + c.file;
    assert INDENT + (SECTION + " " + c.section) == "    section: " + c.section;
    assert INDENT + (LINES + " " + c.lines) == "    lines: " + c.lines;
  }

  /** A text with one citations block. */
  lemma CitedTextReads(before: string, cits: seq<Citation>, after: string)
    requires cits != [] && forall i :: 0 <= i < |cits| ==> WellFormed(cits[i])
    requires !Contains(before, "<citations>") && !Contains(after, "<citations>") && !Contains(RenderBody(cits), "</citations>")
    ensures var d := Scan(before + "<citations>" + RenderBody(cits) + "</citations>" + after, CITATIONS);
            Kept(d, CITATIONS, CitationsOf) == before + after && Values(d, CitationsOf) == [cits]
  {
    hide WellFormed, RenderBody, CitationsOf, Contains, Scan, Kept, Values;
    CitationsRoundTrip(cits);
    var body := RenderBody(cits);
    BlockIsFound(before, body, after, CITATIONS);
    BlockParts(before, body, after, CITATIONS, CitationsOf);
    assert before + CITATIONS.open + body + CITATIONS.close + after
        == before + "<citations>" + body + "</citations>" + after;
  }

  lemma BlockIsFound(before: string, body: string, after: string, t: Tags)
    requires Usable(t) && t.open[0] !in t.open[1..] && t.close[0] !in t.close[1..]
    requires !Contains(before, t.open) && !Contains(body, t.close) && !Contains(after, t.open)
    ensures Scan(before + t.open + body + t.close + after, t) == Gap(before, body, Tail(after))
  {
    hide Contains, FirstAtEnd, Scan, NoBlock;
    NoOverlap(before, t.open);
    NoOverlap(body, t.close);
    NoTag(after, t);
    ScanFindsBlocks(Gap(before, body, Tail(after)), t);
    assert before + Block(body, t) + after == before + t.open + body + t.close + after;
  }

  lemma BlockParts<T>(before: string, body: string, after: string, t: Tags, parser: string -> Option<T>)
    requires parser(body).Some?
    ensures Kept(Gap(before, body, Tail(after)), t, parser) == before + after
    ensures Values(Gap(before, body, Tail(after)), parser) == [parser(body).value]
  {
    assert before + "" + after == before + after;
    assert [parser(body).value] + [] == [parser(body).value];
  }

  lemma NoTag(s: string, t: Tags)
    requires Usable(t) && !Contains(s, t.open)
    ensures Proper(Tail(s), t)
  {
    hide Index;
  }

  /** An answer of text, a tool call, text, citations and text: what the parser gives back is the text, the
      call and the citations. */
  lemma AnswerReads(t0: string, c: ToolCall, t1: string, cits: seq<Citation>, t2: string)
    requires cits != [] && forall i :: 0 <= i < |cits| ==> WellFormed(cits[i])
    requires c.verb != "" && OneLine(c.verb) && OneLine(c.args) && !Contains(RenderToolCall(c), "</tool-call>")
    requires !Contains(RenderBody(cits), "</citations>")
    requires !Contains(t0, "<tool-call>") && !Contains(t1 + "<citations>" + RenderBody(cits) + "</citations>" + t2, "<tool-call>")
    requires !Contains(t0 + t1, "<citations>") && !Contains(t2, "<citations>")
    ensures var stream := t0 + "<tool-call>" + "\nverb: " + c.verb + "\nargs: " + c.args + "\n" + "</tool-call>"
                          + t1 + "<citations>" + RenderBody(cits) + "</citations>" + t2;
            var text := WithoutToolCalls(stream);
            && Values(Scan(stream, TOOL_CALL), ToolCallOf) == [c]
            && Kept(Scan(text, CITATIONS), CITATIONS, CitationsOf) == t0 + t1 + t2
            && Concat(Values(Scan(text, CITATIONS), CitationsOf)) == cits
  {
    hide WellFormed, RenderBody, RenderToolCall, CitationsOf, ToolCallOf, Contains, OneLine, Scan, Kept, Values, WithoutToolCalls, Answer, Whole, Concat;
    var end := t1 + "<citations>" + RenderBody(cits) + "</citations>" + t2;
    var pieces := [Piece(t0, c)];
    OnePiece(t0, c, end);
    StreamIsWritten(t0, c, t1, RenderBody(cits), t2);
    ExtractInvertsRender(pieces, end);
    CitedTextReads(t0 + t1, cits, t2);
    ConcatOne(cits);
  }

  lemma StreamIsWritten(t0: string, c: ToolCall, t1: string, body: string, t2: string)
    ensures var end := t1 + "<citations>" + body + "</citations>" + t2;
            && t0 + "<tool-call>" + "\nverb: " + c.verb + "\nargs: " + c.args + "\n" + "</tool-call>"
                + t1 + "<citations>" + body + "</citations>" + t2
               == t0 + ("<tool-call>" + RenderToolCall(c) + "</tool-call>") + end
            && t0 + end == (t0 + t1) + "<citations>" + body + "</citations>" + t2
  {
    hide RenderToolCall;
    ToolCallIsWritten(c);
    var r := RenderToolCall(c);
    var end := t1 + "<citations>" + body + "</citations>" + t2;
    assert t0 + "<tool-call>" + "\nverb: " + c.verb + "\nargs: " + c.args + "\n" == t0 + "<tool-call>" + r;
    Regrouped(t0 + "<tool-call>" + r + "</tool-call>", t1, "<citations>" , body, "</citations>" + t2);
  }

  lemma Regrouped(a: string, b: string, c: string, d: string, e: string)
    ensures a + b + c + d + e == a + (b + c + d + e)
  {
  }

  lemma OnePiece(text: string, c: ToolCall, end: string)
    ensures var pieces := [Piece(text, c)];
            && Texts(pieces) == text && Calls(pieces) == [c]
            && Whole(Answer(pieces, end), TOOL_CALL) == text + ("<tool-call>" + RenderToolCall(c) + "</tool-call>") + end
  {
    hide RenderToolCall;
    var pieces := [Piece(text, c)];
    assert pieces[1..] == [];
    assert text + "" == text && [c] + [] == [c];
  }

  lemma ConcatOne<T>(group: seq<T>)
    ensures Concat([group]) == group
  {
    assert [group][..0] == [];
    assert [] + group == group;
  }
}
