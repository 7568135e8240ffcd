/** The commands an expert may propose, and FindVerb. */
module Allowlist {
  import opened Basics
  import opened Text
  import opened TextLemmas

  datatype Class = ReadOnly | Mutating | Destructive

  datatype Verb = Verb(verb: string, kind: Class, signalStyle: bool)

  const COUNT: nat := 22

  function Entry(i: nat): Verb
    requires i < COUNT
  {
    if i == 0 then Verb("feature status", ReadOnly, false)
    else if i == 1 then Verb("feature info", ReadOnly, false)
    else if i == 2 then Verb("stages", ReadOnly, false)
    else if i == 3 then Verb("audit", ReadOnly, false)
    else if i == 4 then Verb("artifacts", ReadOnly, false)
    else if i == 5 then Verb("artifact get", ReadOnly, false)
    else if i == 6 then Verb("repos list", ReadOnly, false)
    else if i == 7 then Verb("repo list", ReadOnly, false)
    else if i == 8 then Verb("questions list", ReadOnly, false)
    else if i == 9 then Verb("feature create", Mutating, false)
    else if i == 10 then Verb("signal pass", Mutating, true)
    else if i == 11 then Verb("signal recirculate", Mutating, true)
    else if i == 12 then Verb("signal needs_feedback", Mutating, true)
    else if i == 13 then Verb("signal failed", Mutating, true)
    else if i == 14 then Verb("run-stage", Mutating, false)
    else if i == 15 then Verb("questions answer", Mutating, false)
    else if i == 16 then Verb("artifact submit", Mutating, false)
    else if i == 17 then Verb("questions ask", Mutating, false)
    else if i == 18 then Verb("feature cancel", Destructive, false)
    else if i == 19 then Verb("cancel feature", Destructive, false)
    else if i == 20 then Verb("repo delete", Destructive, false)
    else Verb("delete repo", Destructive, false)
  }

  // ----- matching

  /** Position of the first space, |s| when there is none. */
  function WordEnd(s: string): (n: nat)
    ensures n <= |s|
    ensures forall i :: 0 <= i < n ==> !IsSpace(s[i])
  {
    if s == "" || IsSpace(s[0]) then 0 else 1 + WordEnd(s[1..])
  }

  /** The words between spaces. */
  function Words(s: string): seq<string>
    decreases |s|
  {
    var t := TrimLeft(s);
    var n := WordEnd(t);
    if t == "" || n == 0 then [] else [t[..n]] + Words(t[n..])
  }

  function Outcome(verb: string): string {
    TrimSpace(TrimPrefix(verb, "signal "))
  }

  predicate MatchSignal(command: string, verb: string) {
    var parts := Words(command);
    |parts| >= 3 && parts[0] == "signal" && parts[2] == Outcome(verb)
  }

  predicate MatchPrefix(command: string, verb: string) {
    command == verb || HasPrefix(command, verb + " ")
  }

  /** The entry allows the command, which is trimmed. */
  predicate Matches(i: nat, command: string)
    requires i < COUNT
  {
    if Entry(i).signalStyle then MatchSignal(command, Entry(i).verb) else MatchPrefix(command, Entry(i).verb)
  }

  // ----- at most one entry

  /** The i-th character, a space past the end. */
  function CharAt(s: string, i: nat): char {
    if i < |s| then s[i] else ' '
  }

  /** Which entry a command can match, told by a few of its characters; COUNT for the signal entries. */
  function Suspect(s: string): nat {
    match CharAt(s, 0)
    case 'f' => (match CharAt(s, 8) case 's' => 0 case 'i' => 1 case _ => if CharAt(s, 9) == 'r' then 9 else 18)
    case 's' => if CharAt(s, 1) == 't' then 2 else COUNT
    case 'a' =>
      if CharAt(s, 1) == 'u' then 3
      else if CharAt(s, 8) == 's' then 4
      else if CharAt(s, 9) == 'g' then 5 else 16
    case 'r' =>
      if CharAt(s, 1) == 'u' then 14
      else if CharAt(s, 4) == 's' then 6
      else if CharAt(s, 5) == 'l' then 7 else 20
    case 'q' => if CharAt(s, 10) == 'l' then 8 else if CharAt(s, 11) == 'n' then 15 else 17
    case 'c' => 19
    case _ => 21
  }

  lemma PrefixChars(command: string, verb: string)
    requires MatchPrefix(command, verb)
    ensures forall i :: 0 <= i < |verb| ==> CharAt(command, i) == verb[i]
    ensures CharAt(command, |verb|) == ' '
  {
    if command != verb {
      assert (verb + " ")[|verb|] == ' ';
      assert forall i :: 0 <= i < |verb| ==> (verb + " ")[i] == verb[i];
    }
  }

  /** The characters that tell a text apart are among its first ones, or the space after them. */
  predicate Told(s: string) {
    match CharAt(s, 0)
    case 'f' => |s| >= 9
    case 'a' => CharAt(s, 1) == 'u' || |s| >= 9
    case 'r' => CharAt(s, 1) == 'u' || |s| >= 5
    case 'q' => |s| >= 11
    case _ => |s| >= 1
  }

  lemma EntriesToldLow(i: nat)
    requires i < 10
    ensures var v := Entry(i); !v.signalStyle && Told(v.verb) && Suspect(v.verb) == i
  {
  }

  lemma EntriesToldHigh(i: nat)
    requires 14 <= i < COUNT
    ensures var v := Entry(i); !v.signalStyle && Told(v.verb) && Suspect(v.verb) == i
  {
  }

  lemma SuspectOfPrefix(command: string, verb: string)
    requires MatchPrefix(command, verb) && Told(verb)
    ensures Suspect(command) == Suspect(verb)
  {
    PrefixChars(command, verb);
    hide MatchPrefix;
    assert forall i: nat :: i <= |verb| ==> CharAt(command, i) == CharAt(verb, i);
    hide CharAt;
  }

  lemma LettersAreNoSpaces(c: char)
    requires 'a' <= c <= 'z'
    ensures !IsSpace(c)
  {
  }

  function Signal(i: nat): string
    requires 10 <= i < 14
  {
    if i == 10 then "pass" else if i == 11 then "recirculate" else if i == 12 then "needs_feedback" else "failed"
  }

  lemma SignalOutcomes(i: nat)
    requires 10 <= i < 14
    ensures Entry(i).signalStyle && Outcome(Entry(i).verb) == Signal(i)
  {
    hide IsSpace, TrimSpace;
    SignalParts(i);
    var s := Signal(i);
    LettersAreNoSpaces(s[0]);
    LettersAreNoSpaces(s[|s| - 1]);
    TrimSpaceSame(s);
  }

  lemma SignalParts(i: nat)
    requires 10 <= i < 14
    ensures Entry(i).signalStyle && TrimPrefix(Entry(i).verb, "signal ") == Signal(i)
    ensures var s := Signal(i); |s| >= 2 && 'a' <= s[0] <= 'z' && 'a' <= s[|s| - 1] <= 'z'
  {
    assert Entry(i).verb == "signal " + Signal(i);
  }

  /** A command of a signal begins with the word signal. */
  lemma SignalSuspect(command: string)
    requires Trimmed(command) && Words(command) != [] && Words(command)[0] == "signal"
    ensures Suspect(command) == COUNT
  {
    hide IsSpace;
    var t := TrimLeft(command);
    assert t == command;
    var n := WordEnd(t);
    assert command[..n] == "signal";
    assert command[0] == "signal"[0] == 's' && command[1] == "signal"[1] == 'i';
  }

  lemma SuspectOf(i: nat, command: string)
    requires i < COUNT && Trimmed(command) && Matches(i, command)
    ensures Suspect(command) == if Entry(i).signalStyle then COUNT else i
  {
    hide Entry, MatchPrefix, Suspect, Told, Words, Outcome, Trimmed;
    if i < 10 {
      EntriesToldLow(i);
      SuspectOfPrefix(command, Entry(i).verb);
    } else if i >= 14 {
      EntriesToldHigh(i);
      SuspectOfPrefix(command, Entry(i).verb);
    } else {
      SignalParts(i);
      SignalSuspect(command);
    }
  }

  lemma SignalRange(i: nat)
    requires i < COUNT
    ensures Entry(i).signalStyle <==> 10 <= i < 14
  {
  }

  /** No command is allowed by two entries. */
  lemma AtMostOneMatch(i: nat, j: nat, command: string)
    requires i < COUNT && j < COUNT && Trimmed(command) && Matches(i, command) && Matches(j, command)
    ensures i == j
  {
    SuspectOf(i, command);
    SuspectOf(j, command);
    SignalRange(i);
    SignalRange(j);
    if 10 <= i < 14 && 10 <= j < 14 {
      hide Entry, Signal, Outcome, Words;
      SignalOutcomes(i);
      SignalOutcomes(j);
    }
  }

  // ----- FindVerb

  /** The entry that allows the trimmed command. */
  function Lookup(c: string, n: nat := COUNT): (r: Option<nat>)
    requires n <= COUNT
    ensures r.Some? ==> r.value < n
  {
    if n == 0 then None else if Matches(n - 1, c) then Some(n - 1) else Lookup(c, n - 1)
  }

  lemma {:induction false} LookupFinds(c: string, n: nat)
    requires n <= COUNT
    ensures var r := Lookup(c, n);
            && (r.Some? ==> Matches(r.value, c))
            && (r.None? ==> forall i :: 0 <= i < n ==> !Matches(i, c))
  {
    hide Matches;
    if n > 0 {
      LookupFinds(c, n - 1);
    }
  }

  /** The longest entry that allows the command: it is the only one. */
  method FindVerb(command: string) returns (best: Option<nat>)
    ensures best == Lookup(TrimSpace(command))
    ensures best.Some? ==> forall i :: 0 <= i < COUNT && Matches(i, TrimSpace(command)) ==> i == best.value
  {
    hide Entry, Matches, TrimSpace, Trimmed;
    best := None;
    var c := TrimSpace(command);
    for i := 0 to COUNT
      invariant best.Some? ==> best.value < COUNT && Matches(best.value, c)
      invariant forall j :: 0 <= j < i && Matches(j, c) ==> best.Some? && |Entry(j).verb| <= |Entry(best.value).verb|
    {
      if Matches(i, c) && (best.None? || |Entry(i).verb| > |Entry(best.value).verb|) {
        best := Some(i);
      }
    }
    TrimIsTrimmed(command);
    LookupFinds(c, COUNT);
    if best.Some? {
      forall i | 0 <= i < COUNT && Matches(i, c)
        ensures i == best.value
      {
        AtMostOneMatch(i, best.value, c);
      }
    }
  }

  lemma TrimIsTrimmed(s: string)
    ensures Trimmed(TrimSpace(s))
  {
    hide IsSpace;
    var l := TrimLeft(s);
    hide TrimLeft, TrimRight;
    TrimLeftFacts(s);
    TrimRightFacts(l);
  }
}
