/** The command line that an operation really runs with: not the text that was matched, because the verb
    is cut off first.  When the two have one class, for one command and in every run. */
module ExecutedCommands {
  import opened Basics
  import opened Text
  import opened TextLemmas
  import opened Argv
  import opened ArgvLine
  import opened Allowlist
  import opened Proposals
  import opened ProposalTheorems

  /** The class of a command line; nothing when no entry allows it. */
  function ClassOf(line: string): Option<Class> {
    var e := Lookup(TrimSpace(line));
    if e.None? then None else Some(Entry(e.value).kind)
  }

  /** What is split into arguments. */
  function Tail(entry: nat, cmd: string): string
    requires entry < COUNT
  {
    var v := Entry(entry);
    TrimSpace(if v.signalStyle then cmd else TrimPrefix(TrimSpace(cmd), v.verb))
  }

  lemma TailIsSplit(entry: nat, cmd: string)
    requires entry < COUNT
    ensures Line(ArgsOf(entry, cmd)) == Collapsed(Tail(entry, cmd))
    ensures ArgsOf(entry, cmd) == [] <==> Collapsed(Tail(entry, cmd)) == ""
  {
    hide Entry, TrimSpace, Argv.Arguments, Line, Collapsed;
    var v := Entry(entry);
    ArgumentsCollapse(if v.signalStyle then cmd else TrimPrefix(TrimSpace(cmd), v.verb));
  }

  lemma ClassIsOfEntry(line: string, kind: Class)
    ensures ClassOf(line) == Some(kind) <==>
              exists j :: 0 <= j < COUNT && Matches(j, TrimSpace(line)) && Entry(j).kind == kind
  {
    hide Entry, TrimSpace, Matches, Trimmed;
    var c := TrimSpace(line);
    LookupFinds(c, COUNT);
    TrimIsTrimmed(line);
    if j :| 0 <= j < COUNT && Matches(j, c) && Entry(j).kind == kind {
      AtMostOneMatch(j, Lookup(c).value, c);
    }
  }

  /** Some entry of the class allows what is left of the command, its quotes dropped and blanks collapsed. */
  ghost predicate TailAllowed(entry: nat, cmd: string, kind: Class)
    requires entry < COUNT
  {
    exists j :: 0 <= j < COUNT && Matches(j, TrimSpace(Collapsed(Tail(entry, cmd)))) && Entry(j).kind == kind
  }

  /** The command line that runs has the class of the entry that allowed the command exactly when some
      entry of that class allows what is left of the command once a verb has been cut off. */
  lemma ClassKeptExactlyWhen(entry: nat, cmd: string)
    requires entry < COUNT
    ensures ClassOf(Line(ArgsOf(entry, cmd))) == Some(Entry(entry).kind) <==> TailAllowed(entry, cmd, Entry(entry).kind)
  {
    hide Entry, TrimSpace, Matches, ArgsOf, Line, Collapsed, ClassOf;
    TailIsSplit(entry, cmd);
    ClassIsOfEntry(Line(ArgsOf(entry, cmd)), Entry(entry).kind);
  }

  /** A verb followed by plain text runs the text without the verb, whose class is its own. */
  lemma VerbIsCutOff(entry: nat, rest: string)
    requires entry < COUNT && !Entry(entry).signalStyle
    requires rest != "" && Single(rest) && Trimmed(rest)
    ensures var cmd := Entry(entry).verb + " " + rest;
            && TrimSpace(cmd) == cmd && Lookup(cmd) == Some(entry)
            && Line(ArgsOf(entry, cmd)) == rest
  {
    hide TrimSpace, IsSpace, Collapsed, ArgsOf, Line, Matches;
    var v := Entry(entry).verb;
    var cmd := v + " " + rest;
    VerbTrimmed(entry);
    hide Entry;
    assert v + " " <= cmd;
    AllowedAsIs(cmd, entry);
    assert cmd[|v|..] == " " + rest;
    BlanksAreSpaces(' ');
    TrimSpaceOf(" ", rest, "");
    assert " " + rest + "" == " " + rest;
    TailIsSplit(entry, cmd);
    PlainLineStays(rest);
  }

  /** A bare verb is left with no argument at all. */
  lemma BareVerbRunsNothing(entry: nat)
    requires entry < COUNT && !Entry(entry).signalStyle
    ensures ArgsOf(entry, Entry(entry).verb) == []
  {
    hide TrimSpace, IsSpace;
    var v := Entry(entry).verb;
    VerbTrimmed(entry);
    hide Entry;
    TrimSpaceSame(v);
    TrimSpaceSame("");
    assert v[|v|..] == "";
    assert Tail(entry, v) == "";
    TailIsSplit(entry, v);
  }

  lemma VerbTrimmed(entry: nat)
    requires entry < COUNT
    ensures Trimmed(Entry(entry).verb) && Entry(entry).verb != ""
  {
    hide IsSpace;
    hide Entry;
    VerbLetters(entry);
    var v := Entry(entry).verb;
    LettersAreNoSpaces(v[0]);
    LettersAreNoSpaces(v[|v| - 1]);
  }

  lemma VerbLetters(entry: nat)
    requires entry < COUNT
    ensures Lettered(Entry(entry).verb)
  {
    hide Entry, Lettered;
    if entry < 7 {
      LettersTo7(entry);
    } else if entry < 14 {
      LettersTo14(entry);
    } else {
      LettersRest(entry);
    }
  }

  /** Begins and ends with a small letter. */
  predicate Lettered(v: string) {
    v != "" && 'a' <= v[0] <= 'z' && 'a' <= v[|v| - 1] <= 'z'
  }

  lemma LettersTo7(entry: nat)
    requires entry < 7
    ensures Lettered(Entry(entry).verb)
  {
  }

  lemma LettersTo14(entry: nat)
    requires 7 <= entry < 14
    ensures Lettered(Entry(entry).verb)
  {
  }

  lemma LettersRest(entry: nat)
    requires 14 <= entry < COUNT
    ensures Lettered(Entry(entry).verb)
  {
  }

  /** Matched as a listing of stages, which is read-only, and run as a stage run, which is mutating. */
  lemma ReadOnlyRunsMutating()
    ensures var cmd := "stages run-stage f1 2.1";
            && Lookup(TrimSpace(cmd)) == Some(2) && Entry(2).kind == ReadOnly
            && ClassOf(Line(ArgsOf(2, cmd))) == Some(Mutating)
  {
    hide TrimSpace, Lookup, ArgsOf, Line;
    var rest := "run-stage f1 2.1";
    assert Entry(2).verb + " " + rest == "stages run-stage f1 2.1";
    VerbIsCutOff(2, rest);
    AllowedAsIs(rest, 14);
  }

  /** What runs need not be on the allowlist at all. */
  lemma ListedRunsUnlisted()
    ensures var cmd := "stages approve f1 2.8";
            && Lookup(TrimSpace(cmd)) == Some(2)
            && ClassOf(Line(ArgsOf(2, cmd))) == None
  {
    hide TrimSpace, Lookup, ArgsOf, Line;
    var rest := "approve f1 2.8";
    assert Entry(2).verb + " " + rest == "stages approve f1 2.8";
    VerbIsCutOff(2, rest);
    TrimSpaceSame(rest);
    LookupFinds(rest, COUNT);
    if Lookup(rest).Some? {
      Unlisted(rest, Lookup(rest).value);
    }
  }

  lemma Unlisted(c: string, i: nat)
    requires c == "approve f1 2.8" && i < COUNT
    ensures !Matches(i, c)
  {
    hide Words, Outcome;
    assert Suspect(c) == 16;
    if i == 16 {
      assert c[1] != Entry(16).verb[1];
    } else if Matches(i, c) {
      SuspectOf(i, c);
    }
  }

  // ----- signals

  lemma {:induction false} TrimLeftConcat(u: string, v: string)
    ensures TrimLeft(u + v) == if TrimLeft(u) == "" then TrimLeft(v) else TrimLeft(u) + v
  {
    hide IsSpace;
    if u == "" {
      assert u + v == v;
    } else {
      TrimLeftConcat(u[1..], v);
      assert (u + v)[1..] == u[1..] + v && (u + v)[0] == u[0];
    }
  }

  lemma {:induction false} WordEndIs(s: string, n: nat)
    requires n <= |s| && (forall i :: 0 <= i < n ==> !IsSpace(s[i])) && (n < |s| ==> IsSpace(s[n]))
    ensures WordEnd(s) == n
  {
    hide IsSpace;
    if n > 0 {
      WordEndIs(s[1..], n - 1);
    }
  }

  lemma WordEndStops(s: string)
    ensures WordEnd(s) < |s| ==> IsSpace(s[WordEnd(s)])
  {
    hide IsSpace;
    if WordEnd(s) > 0 {
      WordEndStops(s[1..]);
    }
  }

  /** The words of two texts are those of the first and those of the second, if a space divides them. */
  lemma {:induction false} WordsConcat(u: string, v: string)
    requires u == "" || v == "" || IsSpace(u[|u| - 1]) || IsSpace(v[0])
    ensures Words(u + v) == Words(u) + Words(v)
    decreases |u|
  {
    hide IsSpace, TrimLeft, WordEnd, Words;
    TrimLeftConcat(u, v);
    TrimLeftFacts(u);
    TrimLeftAgain(u);
    var t := TrimLeft(u);
    SameTrimSameWords(u, t);
    EmptyLine();
    if t == "" {
      SameTrimSameWords(u + v, v);
    } else {
      var n := WordEnd(t);
      WordEndStops(t);
      FirstIsWord(t);
      assert t[|t| - 1] == u[|u| - 1];
      StartStays(t + v);
      SameTrimSameWords(u + v, t + v);
      WordsFrom(t, n);
      WordsFrom(t + v, n);
      assert (t + v)[..n] == t[..n] && (t + v)[n..] == t[n..] + v;
      WordsConcat(t[n..], v);
      assert [t[..n]] + (Words(t[n..]) + Words(v)) == [t[..n]] + Words(t[n..]) + Words(v);
    }
  }

  lemma StartStays(s: string)
    requires s != "" && !IsSpace(s[0])
    ensures TrimLeft(s) == s
  {
    hide IsSpace;
  }

  /** A text that begins with a word of n characters. */
  lemma WordsFrom(s: string, n: nat)
    requires 0 < n <= |s| && (forall i :: 0 <= i < n ==> !IsSpace(s[i])) && (n < |s| ==> IsSpace(s[n]))
    ensures Words(s) == [s[..n]] + Words(s[n..])
  {
    hide IsSpace, TrimLeft, WordEnd;
    StartStays(s);
    WordEndIs(s, n);
  }

  lemma SameTrimSameWords(a: string, b: string)
    requires TrimLeft(a) == TrimLeft(b)
    ensures Words(a) == Words(b)
  {
    hide TrimLeft, WordEnd;
  }

  lemma FirstIsWord(t: string)
    requires t != "" && !IsSpace(t[0])
    ensures WordEnd(t) > 0
  {
    hide IsSpace;
  }

  lemma NoWords(c: char)
    requires IsSpace(c)
    ensures Words([c]) == [] && Words("") == []
  {
    hide IsSpace;
    assert [c][1..] == "";
  }

  lemma {:induction false} TrimKeepsWords(s: string)
    ensures Words(TrimSpace(s)) == Words(s)
  {
    hide IsSpace, Words, TrimLeft, TrimRight;
    TrimLeftFacts(s);
    TrimLeftAgain(s);
    SameTrimSameWords(TrimLeft(s), s);
    TrimRightKeepsWords(TrimLeft(s));
  }

  lemma TrimLeftAgain(s: string)
    ensures TrimLeft(TrimLeft(s)) == TrimLeft(s)
  {
    hide IsSpace;
    TrimLeftFacts(s);
  }

  lemma {:induction false} TrimRightKeepsWords(s: string)
    ensures Words(TrimRight(s)) == Words(s)
  {
    hide IsSpace, Words;
    if s != "" && IsSpace(s[|s| - 1]) {
      var n := |s| - 1;
      TrimRightKeepsWords(s[..n]);
      WordsConcat(s[..n], [s[n]]);
      NoWords(s[n]);
      assert s == s[..n] + [s[n]];
    }
  }

  function AllWords(args: seq<string>): seq<string> {
    if args == [] then [] else AllWords(args[..|args| - 1]) + Words(args[|args| - 1])
  }

  lemma AllWordsSnoc(args: seq<string>, x: string)
    ensures AllWords(args + [x]) == AllWords(args) + Words(x)
  {
    assert (args + [x])[..|args|] == args;
  }

  lemma {:induction false} LineWords(args: seq<string>)
    ensures Words(Line(args)) == AllWords(args)
  {
    hide IsSpace, Words, Line;
    if args == [] {
      EmptyLine();
    } else {
      var n := |args| - 1;
      var front, x := args[..n], args[n];
      LineWords(front);
      assert args == front + [x];
      LineSnoc(front, x);
      BlanksAreSpaces(' ');
      WordsConcat(Line(front) + " ", x);
      WordsConcat(Line(front), " ");
      NoWords(' ');
    }
  }

  lemma EmptyLine()
    ensures Line([]) == "" && Words("") == [] && AllWords([]) == []
  {
    hide IsSpace;
  }

  /** The text read so far ends in the argument being read; before it stand the words of the others. */
  ghost predicate ReadsWords(s: Splitter, text: string) {
    && !s.inQuote && |s.cur| <= |text|
    && var n := |text| - |s.cur|;
       text[n..] == s.cur && (n > 0 ==> IsSpace(text[n - 1])) && Words(text[..n]) == AllWords(s.args)
  }

  lemma ReadWordsAre(s: Splitter, text: string)
    requires ReadsWords(s, text)
    ensures Words(text) == AllWords(Ended(s))
  {
    hide IsSpace, Words;
    var n := |text| - |s.cur|;
    WordsConcat(text[..n], s.cur);
    assert text == text[..n] + s.cur;
    AllWordsSnoc(s.args, s.cur);
    EmptyLine();
  }

  lemma FeedReadsWords(s: Splitter, text: string, c: char)
    requires ReadsWords(s, text) && c != QUOTE
    ensures ReadsWords(Feed(s, c), text + [c])
  {
    hide IsSpace, Words, IsBlank, Ended;
    FeedCases(s, c);
    BlanksAreSpaces(c);
    var both := text + [c];
    var n := |text| - |s.cur|;
    if IsBlank(c) {
      ReadWordsAre(s, text);
      WordsConcat(text, [c]);
      NoWords(c);
      assert both[..|both|] == both;
    } else {
      assert both[..n] == text[..n] && both[n..] == s.cur + [c];
    }
  }

  lemma {:induction false} FeedAllReadsWords(text: string)
    requires QUOTE !in text
    ensures ReadsWords(FeedAll(START, text), text)
  {
    hide ReadsWords, Feed;
    if text == "" {
      NothingRead();
    } else {
      var n := |text| - 1;
      FeedAllReadsWords(text[..n]);
      FeedReadsWords(FeedAll(START, text[..n]), text[..n], text[n]);
      assert text[..n] + [text[n]] == text;
    }
  }

  lemma NothingRead()
    ensures ReadsWords(START, "")
  {
    EmptyLine();
    assert ""[..0] == "";
  }

  /** A signal without quotes runs as it was allowed: by the same entry. */
  lemma SignalKeepsEntry(entry: nat, cmd: string)
    requires entry < COUNT && Entry(entry).signalStyle && Trimmed(cmd) && Matches(entry, cmd) && QUOTE !in cmd
    ensures Lookup(TrimSpace(Line(ArgsOf(entry, cmd)))) == Some(entry)
    ensures ClassOf(Line(ArgsOf(entry, cmd))) == Some(Entry(entry).kind)
  {
    hide TrimSpace, Trimmed, IsSpace, Words, Line, FeedAll, Outcome, Entry;
    TrimSpaceSame(cmd);
    FeedAllReadsWords(cmd);
    ReadWordsAre(FeedAll(START, cmd), cmd);
    var line := Line(ArgsOf(entry, cmd));
    LineWords(ArgsOf(entry, cmd));
    TrimKeepsWords(line);
    var c := TrimSpace(line);
    assert Matches(entry, c);
    TrimIsTrimmed(line);
    LookupFinds(c, COUNT);
    hide Matches;
    AtMostOneMatch(entry, Lookup(c).value, c);
  }

  lemma OneWord(w: string)
    requires w != "" && forall i :: 0 <= i < |w| ==> !IsSpace(w[i])
    ensures Words(w) == [w]
  {
    hide IsSpace, Words;
    WordsFrom(w, |w|);
    assert w[..|w|] == w && w[|w|..] == "";
    EmptyLine();
  }

  lemma SpacedWords(w: string, rest: string)
    requires w != "" && forall i :: 0 <= i < |w| ==> !IsSpace(w[i])
    ensures Words(w + " " + rest) == [w] + Words(rest)
  {
    hide IsSpace, Words;
    OneWord(w);
    BlanksAreSpaces(' ');
    WordsConcat(w, " ");
    NoWords(' ');
    WordsConcat(w + " ", rest);
  }

  lemma PlainWords()
    ensures forall i :: 0 <= i < |"signal"| ==> !IsSpace("signal"[i])
    ensures forall i :: 0 <= i < |"pass"| ==> !IsSpace("pass"[i])
    ensures forall i :: 0 <= i < |"\"\""| ==> !IsSpace("\"\""[i])
  {
  }

  lemma QuotedWords()
    ensures Words("signal \"\" pass") == ["signal", "\"\"", "pass"] && Words("signal pass") == ["signal", "pass"]
  {
    hide IsSpace, Words;
    PlainWords();
    OneWord("pass");
    SpacedWords("\"\"", "pass");
    SpacedWords("signal", "\"\" pass");
    SpacedWords("signal", "pass");
    assert "signal" + " " + "\"\" pass" == "signal \"\" pass" && "\"\"" + " " + "pass" == "\"\" pass";
    assert "signal" + " " + "pass" == "signal pass";
  }

  lemma QuotedArguments()
    ensures FeedAll(START, "signal \"\" pass") == Splitter(["signal"], "pass", false)
  {
    hide Feed, FeedAll;
    var one := Splitter(["signal"], "", false);
    var q := [QUOTE];
    FeedPlain(START, "signal");
    assert "" + "signal" == "signal" && "" + "pass" == "pass" && [] + ["signal"] == ["signal"];
    FeedOne(Splitter([], "signal", false), ' ');
    FeedCases(Splitter([], "signal", false), ' ');
    FeedOne(one, QUOTE);
    FeedCases(one, QUOTE);
    FeedOne(one.(inQuote := true), QUOTE);
    FeedCases(one.(inQuote := true), QUOTE);
    FeedOne(one, ' ');
    FeedCases(one, ' ');
    FeedPlain(one, "pass");
    FeedConcat(START, "signal", " ");
    FeedConcat(START, "signal" + " ", q);
    FeedConcat(START, "signal" + " " + q, q);
    FeedConcat(START, "signal" + " " + q + q, " ");
    FeedConcat(START, "signal" + " " + q + q + " ", "pass");
    assert "signal" + " " + q + q + " " + "pass" == "signal \"\" pass";
  }

  /** With quotes it need not: the words are not the arguments. */
  lemma QuotedSignalLosesWord()
    ensures var cmd := "signal \"\" pass";
            && TrimSpace(cmd) == cmd && Matches(10, cmd)
            && ClassOf(Line(ArgsOf(10, cmd))) == None
  {
    hide TrimSpace, Words, FeedAll, Outcome, IsSpace;
    var cmd := "signal \"\" pass";
    QuotedWords();
    SignalOutcomes(10);
    LettersAreNoSpaces('s');
    TrimSpaceSame(cmd);
    QuotedArguments();
    var line := "signal pass";
    TrimSpaceSame(line);
    LineSnoc(["signal"], "pass");
    assert ["signal"] + ["pass"] == Ended(Splitter(["signal"], "pass", false));
    assert Line(["signal"]) == "signal" && "signal" + " " + "pass" == line;
    assert ArgsOf(10, cmd) == Ended(FeedAll(START, cmd));
    LookupFinds(line, COUNT);
    var r := Lookup(line);
    if r.Some? {
      SignalRange(r.value);
      SuspectOf(r.value, line);
    }
  }

  // ----- every run

  /** The proposal is of a command that an entry allowed, with that entry's class and the arguments made
      from the command. */
  predicate FromCommand(p: Proposal) {
    var e := Lookup(p.command);
    && p.command != "" && TrimSpace(p.command) == p.command
    && e.Some? && p.kind == Entry(e.value).kind && p.args == ArgsOf(e.value, p.command)
  }

  ghost predicate AllFromCommands(s: State) {
    && (forall id :: id in s.pending ==> FromCommand(s.pending[id]))
    && (forall k :: 0 <= k < |s.log| && s.log[k].Executed? ==> FromCommand(s.log[k].proposal))
  }

  lemma MadeFromCommand(issued: nat, session: string, command: string, entry: nat, trust: bool, now: int, ttl: int)
    requires TrimSpace(command) != "" && Lookup(TrimSpace(command)) == Some(entry) && entry < COUNT
    ensures FromCommand(Made(issued, session, TrimSpace(command), entry, trust, now, ttl))
  {
    hide TrimSpace, Lookup, Entry, ArgsOf;
    TrimTwice(command);
  }

  lemma StepIsFromCommands(s: State, op: Op, ttl: int)
    requires AllFromCommands(s)
    ensures AllFromCommands(Apply(s, op, ttl))
  {
    hide TrimSpace, Lookup, Made, FromCommand;
    match op
    case Propose(session, command, trust, now) =>
      var cmd := TrimSpace(command);
      var entry := Lookup(cmd);
      if cmd != "" && entry.Some? {
        MadeFromCommand(s.issued, session, command, entry.value, trust, now, ttl);
      }
    case Confirm(_, _, _, _) =>
    case Look(_, _) =>
  }

  lemma {:induction false} RunIsFromCommands(ops: seq<Op>, ttl: int)
    ensures AllFromCommands(Run(EMPTY, ops, ttl))
  {
    hide Apply, AllFromCommands;
    if ops == [] {
      NothingFromCommands();
    } else {
      RunIsFromCommands(ops[..|ops| - 1], ttl);
      StepIsFromCommands(Run(EMPTY, ops[..|ops| - 1], ttl), ops[|ops| - 1], ttl);
    }
  }

  lemma NothingFromCommands()
    ensures AllFromCommands(EMPTY)
  {
  }

  /** Whatever runs in any run, runs as what it was allowed as exactly when some entry of the same class
      allows what is left of its command.  It always does when the command is a signal without quotes. */
  lemma RunsAsAllowedExactlyWhen(ops: seq<Op>, ttl: int, k: nat)
    requires var log := Run(EMPTY, ops, ttl).log; k < |log| && log[k].Executed?
    ensures var p := Run(EMPTY, ops, ttl).log[k].proposal; var e := Lookup(p.command);
            && e.Some? && p.kind == Entry(e.value).kind
            && (ClassOf(Line(p.args)) == Some(p.kind) <==> TailAllowed(e.value, p.command, p.kind))
            && (Entry(e.value).signalStyle && QUOTE !in p.command ==> TailAllowed(e.value, p.command, p.kind))
  {
    hide Run, Entry, TrimSpace, Matches, ArgsOf, Line, ClassOf, TailAllowed;
    RunIsFromCommands(ops, ttl);
    var p := Run(EMPTY, ops, ttl).log[k].proposal;
    assert FromCommand(p);
    var e := Lookup(p.command).value;
    ClassKeptExactlyWhen(e, p.command);
    if Entry(e).signalStyle && QUOTE !in p.command {
      LookupFinds(p.command, COUNT);
      TrimIsTrimmed(p.command);
      SignalKeepsEntry(e, p.command);
    }
  }

  /** So a command line that is destructive, of a command of which some entry of its class allows what is
      left, was approved just before. */
  lemma DestructiveLineNeedsApproval(ops: seq<Op>, ttl: int, k: nat)
    requires var log := Run(EMPTY, ops, ttl).log; k < |log| && log[k].Executed?
    ensures var log := Run(EMPTY, ops, ttl).log; var p := log[k].proposal; var e := Lookup(p.command);
            && e.Some?
            && (ClassOf(Line(p.args)) == Some(Destructive) && TailAllowed(e.value, p.command, p.kind) ==>
                  k > 0 && ApprovedAt(log, k - 1, p))
  {
    hide Run, Entry, Lookup, ArgsOf, Line, ClassOf, TailAllowed, ApprovedAt;
    RunsAsAllowedExactlyWhen(ops, ttl, k);
    DestructiveNeedsApproval(ops, ttl, k);
  }

  /** Without trust and without any approval, a mutating command line runs. */
  lemma MutatingRunsUnapproved(ttl: int)
    ensures var ops := [Propose("s", "stages run-stage f1 2.1", false, 0)];
            var log := Run(EMPTY, ops, ttl).log;
            && |log| == 2 && log[1].Executed? && log[1].proposal.kind == ReadOnly
            && ClassOf(Line(log[1].proposal.args)) == Some(Mutating)
  {
    hide TrimSpace, Lookup, ArgsOf, Line, ClassOf;
    var cmd := "stages run-stage f1 2.1";
    ReadOnlyRunsMutating();
    AllowedAsIs(cmd, 2);
    var ops := [Propose("s", cmd, false, 0)];
    assert ops[..0] == [];
    assert Run(EMPTY, ops, ttl) == Apply(EMPTY, ops[0], ttl);
  }
}
