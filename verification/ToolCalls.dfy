/** The body of a tool-call block. */
module ToolCalls {
  import opened Basics
  import opened Text
  import opened TextLemmas
  import opened Fields

  datatype ToolCall = ToolCall(verb: string, args: string)

  const VERB := "verb:"
  const ARGS := "args:"

  /** The values of the lines with the key, in order. */
  function ValuesOf(key: string, lines: seq<string>): seq<string> {
    if lines == [] then []
    else
      var n := |lines| - 1;
      ValuesOf(key, lines[..n]) + if ValueOf(key, lines[n]).Some? then [ValueOf(key, lines[n]).value] else []
  }

  function LastOf(values: seq<string>): string {
    if values == [] then "" else values[|values| - 1]
  }

  /** The last verb, and the arguments of every "args:" line; nothing without a verb. */
  function ToolCallOf(body: string): (r: Option<ToolCall>)
    ensures r.Some? ==> r.value.verb != ""
  {
    var lines := Split(TrimSpace(body), '\n');
    var verb := LastOf(ValuesOf(VERB, lines));
    if verb == "" then None else Some(ToolCall(verb, Join(ValuesOf(ARGS, lines), " ")))
  }

  lemma OneKeyOnly(line: string)
    ensures ValueOf(VERB, line).None? || ValueOf(ARGS, line).None?
  {
    hide TrimSpace;
    assert VERB[0] != ARGS[0];
  }

  method ParseToolCallBody(body: string) returns (r: Option<ToolCall>)
    ensures r == ToolCallOf(body)
  {
    hide TrimSpace, Split, ValueOf, Join;
    var verb := "";
    var args: seq<string> := [];
    var lines := Split(TrimSpace(body), '\n');
    for i := 0 to |lines|
      invariant verb == LastOf(ValuesOf(VERB, lines[..i]))
      invariant args == ValuesOf(ARGS, lines[..i])
    {
      assert lines[..i + 1][..i] == lines[..i];
      OneKeyOnly(lines[i]);
      var v, a := ValueOf(VERB, lines[i]), ValueOf(ARGS, lines[i]);
      if v.Some? {
        verb := v.value;
      } else if a.Some? {
        args := args + [a.value];
      }
    }
    assert lines[..|lines|] == lines;
    if verb == "" {
      return None;
    }
    return Some(ToolCall(verb, Join(args, " ")));
  }

  /** The body of a tool call as the expert is told to write it. */
  function RenderToolCall(c: ToolCall): string {
    "\n" + (VERB + " " + c.verb) + "\n" + (ARGS + " " + c.args) + "\n"
  }

  lemma Keys()
    ensures Solid(VERB) && Solid(ARGS) && OneLine(VERB) && OneLine(ARGS) && VERB[0] != ARGS[0]
  {
  }

  /** Reading a rendered tool call gives the call back. */
  lemma ToolCallRoundTrip(c: ToolCall)
    requires c.verb != "" && OneLine(c.verb) && OneLine(c.args)
    ensures ToolCallOf(RenderToolCall(c)) == Some(c)
  {
    Keys();
    hide IsSpace, TrimSpace, ValueOf, Split, Blank, Join;
    var v, a := FieldLine(VERB, c.verb), FieldLine(ARGS, c.args);
    FieldLineFacts(VERB, c.verb);
    FieldLineFacts(ARGS, c.args);
    hide Trimmed;
    var lines := [v, a];
    TrimRendered(c);
    JoinTwo(v, a);
    SplitJoin(lines);
    OtherField(VERB, a);
    OtherField(ARGS, v);
    TwoFields(v, a, c);
  }

  lemma JoinTwo(v: string, a: string)
    ensures Join([v, a], "\n") == v + "\n" + a
  {
    assert [v, a][1..] == [a];
  }

  lemma TwoFields(v: string, a: string, c: ToolCall)
    requires ValueOf(VERB, v) == Some(c.verb) && ValueOf(VERB, a) == None
    requires ValueOf(ARGS, a) == Some(c.args) && ValueOf(ARGS, v) == None
    ensures ValuesOf(VERB, [v, a]) == [c.verb] && ValuesOf(ARGS, [v, a]) == [c.args]
    ensures Join([c.args], " ") == c.args
  {
    hide ValueOf;
    assert [v, a][..1] == [v] && [v][..0] == [];
    assert ValuesOf(VERB, [v]) == [c.verb] && ValuesOf(ARGS, [v]) == [];
  }

  lemma TrimRendered(c: ToolCall)
    requires c.verb != "" && OneLine(c.verb) && OneLine(c.args)
    ensures TrimSpace(RenderToolCall(c)) == FieldLine(VERB, c.verb) + "\n" + FieldLine(ARGS, c.args)
  {
    Keys();
    BlankOne();
    hide IsSpace, TrimSpace, Blank;
    var v, a := FieldLine(VERB, c.verb), FieldLine(ARGS, c.args);
    var blank := if c.args == "" then " \n" else "\n";
    assert ARGS + " " + c.args + "\n" == a + blank;
    var core := v + "\n" + a;
    assert RenderToolCall(c) == "\n" + core + blank;
    assert Trimmed(core) by {
      FieldLineFacts(VERB, c.verb);
      FieldLineFacts(ARGS, c.args);
    }
    TrimSpaceOf("\n", core, blank);
  }

  // ----- several fields

  datatype FieldText = IsVerb(value: string) | IsArgs(value: string)

  function WriteField(f: FieldText): string {
    match f
    case IsVerb(v) => "verb: " + v
    case IsArgs(a) => "args: " + a
  }

  function WriteFields(fields: seq<FieldText>): seq<string> {
    seq(|fields|, i requires 0 <= i < |fields| => WriteField(fields[i]))
  }

  function Verbs(fields: seq<FieldText>): seq<string> {
    if fields == [] then []
    else Verbs(fields[..|fields| - 1]) + if fields[|fields| - 1].IsVerb? then [fields[|fields| - 1].value] else []
  }

  function Args(fields: seq<FieldText>): seq<string> {
    if fields == [] then []
    else Args(fields[..|fields| - 1]) + if fields[|fields| - 1].IsArgs? then [fields[|fields| - 1].value] else []
  }

  lemma FieldIsOne(f: FieldText)
    requires Trimmed(f.value)
    ensures ValueOf(VERB, WriteField(f)) == (if f.IsVerb? then Some(f.value) else None)
    ensures ValueOf(ARGS, WriteField(f)) == if f.IsArgs? then Some(f.value) else None
  {
    hide ValueOf, Trimmed;
    Keys();
    assert "verb: " + f.value == VERB + " " + f.value && "args: " + f.value == ARGS + " " + f.value;
    OneKeyOnly(WriteField(f));
    FieldReads(if f.IsVerb? then VERB else ARGS, f.value);
  }

  lemma {:induction false} FieldsAre(fields: seq<FieldText>)
    requires forall i :: 0 <= i < |fields| ==> Trimmed(fields[i].value)
    ensures ValuesOf(VERB, WriteFields(fields)) == Verbs(fields) && ValuesOf(ARGS, WriteFields(fields)) == Args(fields)
  {
    hide ValueOf, Trimmed, WriteField;
    if fields != [] {
      var n := |fields| - 1;
      FieldsAre(fields[..n]);
      FieldIsOne(fields[n]);
      assert WriteFields(fields)[..n] == WriteFields(fields[..n]);
    }
  }

  /** Of several verb lines the last counts, and the arguments of all the args lines are joined, wherever they
      stand. */
  lemma LastVerbCounts(fields: seq<FieldText>)
    requires forall i :: 0 <= i < |fields| ==> Trimmed(fields[i].value) && '\n' !in fields[i].value
    requires fields != [] && fields[|fields| - 1].value != ""
    ensures ToolCallOf(Join(WriteFields(fields), "\n")) ==
            if Verbs(fields) == [] || Verbs(fields)[|Verbs(fields)| - 1] == "" then None
            else Some(ToolCall(Verbs(fields)[|Verbs(fields)| - 1], Join(Args(fields), " ")))
  {
    hide ValueOf, Trimmed, WriteField, TrimSpace, Split, Join, IsSpace;
    FieldsAre(fields);
    var lines := WriteFields(fields);
    forall i | 0 <= i < |lines|
      ensures '\n' !in lines[i]
    {
      FieldLineEnds(fields[i]);
    }
    FieldLineEnds(fields[|fields| - 1]);
    FieldLineEnds(fields[0]);
    SplitJoin(lines);
    JoinedTrimmed(lines);
    TrimSpaceSame(Join(lines, "\n"));
  }

  lemma FieldLineEnds(f: FieldText)
    requires Trimmed(f.value) && '\n' !in f.value
    ensures var l := WriteField(f);
            '\n' !in l && l != "" && !IsSpace(l[0]) && (f.value != "" ==> !IsSpace(l[|l| - 1]))
  {
    assert !IsSpace('v') && !IsSpace('a');
    hide IsSpace;
    var l := WriteField(f);
    assert f.value != "" ==> l[|l| - 1] == f.value[|f.value| - 1];
  }

  lemma {:induction false} JoinedEnds(lines: seq<string>)
    requires lines != [] && lines[|lines| - 1] != ""
    ensures var s := Join(lines, "\n"); var last := lines[|lines| - 1];
            s != "" && s[|s| - 1] == last[|last| - 1] && lines[0] <= s
  {
    if |lines| > 1 {
      JoinedEnds(lines[1..]);
      assert Join(lines, "\n") == lines[0] + ("\n" + Join(lines[1..], "\n"));
    }
  }

  lemma JoinedTrimmed(lines: seq<string>)
    requires lines != [] && lines[0] != "" && !IsSpace(lines[0][0])
    requires lines[|lines| - 1] != "" && !IsSpace(lines[|lines| - 1][|lines[|lines| - 1]| - 1])
    ensures Trimmed(Join(lines, "\n"))
  {
    hide IsSpace, Join;
    JoinedEnds(lines);
  }
}
