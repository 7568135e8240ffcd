/** Which commands are read-only, which change something, and which destroy something, by their first words. */
module CommandClasses {
  import opened Basics
  import opened Text
  import opened TextLemmas
  import opened Allowlist

  /** The command is the words, or goes on after them. */
  predicate Starts(c: string, words: string) {
    c == words || words + " " <= c
  }

  predicate IsReadOnly(c: string) {
    || Starts(c, "feature status") || Starts(c, "feature info") || Starts(c, "stages") || Starts(c, "audit")
    || Starts(c, "artifacts") || Starts(c, "artifact get") || Starts(c, "repos list") || Starts(c, "repo list")
    || Starts(c, "questions list")
  }

  /** A signal: the word, an id, an outcome. */
  predicate IsSignal(c: string) {
    var w := Words(c);
    |w| >= 3 && w[0] == "signal" && (w[2] == "pass" || w[2] == "recirculate" || w[2] == "needs_feedback" || w[2] == "failed")
  }

  predicate IsMutating(c: string) {
    || IsSignal(c) || Starts(c, "feature create") || Starts(c, "run-stage") || Starts(c, "questions answer")
    || Starts(c, "artifact submit") || Starts(c, "questions ask")
  }

  predicate IsDestructive(c: string) {
    || Starts(c, "feature cancel") || Starts(c, "cancel feature") || Starts(c, "repo delete") || Starts(c, "delete repo")
  }

  /** Some entry of the class allows the command. */
  ghost predicate AllowedAs(c: string, kind: Class) {
    exists i :: 0 <= i < COUNT && Matches(i, c) && Entry(i).kind == kind
  }

  lemma SignalMatches(c: string, i: nat)
    requires 10 <= i < 14
    ensures Matches(i, c) <==> |Words(c)| >= 3 && Words(c)[0] == "signal" && Words(c)[2] == Signal(i)
  {
    hide Words, Outcome;
    SignalOutcomes(i);
  }

  lemma ReadOnlyEntries(c: string)
    ensures (exists i :: 0 <= i < 9 && Matches(i, c)) <==> IsReadOnly(c)
    ensures forall i :: 0 <= i < 9 ==> Entry(i).kind == ReadOnly
  {
    hide Words, Outcome;
    assert Matches(0, c) == Starts(c, "feature status") && Matches(1, c) == Starts(c, "feature info");
    assert Matches(2, c) == Starts(c, "stages") && Matches(3, c) == Starts(c, "audit") && Matches(4, c) == Starts(c, "artifacts");
    assert Matches(5, c) == Starts(c, "artifact get") && Matches(6, c) == Starts(c, "repos list");
    assert Matches(7, c) == Starts(c, "repo list") && Matches(8, c) == Starts(c, "questions list");
    hide Matches, Starts;
  }

  lemma MutatingEntries(c: string)
    ensures (exists i :: 9 <= i < 18 && Matches(i, c)) <==> IsMutating(c)
    ensures forall i :: 9 <= i < 18 ==> Entry(i).kind == Mutating
  {
    hide Words, Outcome;
    assert Matches(9, c) == Starts(c, "feature create") && Matches(14, c) == Starts(c, "run-stage");
    assert Matches(15, c) == Starts(c, "questions answer") && Matches(16, c) == Starts(c, "artifact submit");
    assert Matches(17, c) == Starts(c, "questions ask");
    hide Matches, Starts;
    SignalMatches(c, 10);
    SignalMatches(c, 11);
    SignalMatches(c, 12);
    SignalMatches(c, 13);
  }

  lemma DestructiveEntries(c: string)
    ensures (exists i :: 18 <= i < COUNT && Matches(i, c)) <==> IsDestructive(c)
    ensures forall i :: 18 <= i < COUNT ==> Entry(i).kind == Destructive
  {
    hide Words, Outcome;
    assert Matches(18, c) == Starts(c, "feature cancel") && Matches(19, c) == Starts(c, "cancel feature");
    assert Matches(20, c) == Starts(c, "repo delete") && Matches(21, c) == Starts(c, "delete repo");
    hide Matches, Starts;
  }

  /** The class of a command is decided by its first words, and by the third word of a signal. */
  lemma ClassesAre(c: string)
    ensures AllowedAs(c, ReadOnly) <==> IsReadOnly(c)
    ensures AllowedAs(c, Mutating) <==> IsMutating(c)
    ensures AllowedAs(c, Destructive) <==> IsDestructive(c)
  {
    hide Matches, IsReadOnly, IsMutating, IsDestructive, Entry;
    ReadOnlyEntries(c);
    MutatingEntries(c);
    DestructiveEntries(c);
  }

  /** So no command is of two classes. */
  lemma ClassesExclude(c: string)
    requires Trimmed(c)
    ensures !(IsReadOnly(c) && IsMutating(c)) && !(IsReadOnly(c) && IsDestructive(c)) && !(IsMutating(c) && IsDestructive(c))
  {
    hide Matches, IsReadOnly, IsMutating, IsDestructive, Entry, Trimmed;
    ClassesAre(c);
    forall i, j | 0 <= i < COUNT && 0 <= j < COUNT && Matches(i, c) && Matches(j, c)
      ensures i == j
    {
      AtMostOneMatch(i, j, c);
    }
  }
}
