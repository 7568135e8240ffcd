/** The arguments of a command tail written on one line again. */
module ArgvLine {
  import opened Text
  import opened TextLemmas
  import opened Argv

  /** The arguments with one space between them. */
  function Line(args: seq<string>): string {
    Join(args, " ")
  }

  // ----- the line, read off the text

  /** The text without its quotes, and with one space for the blanks outside quotes that stand between two
      other characters. */
  function Collapsed(text: string): string {
    if text == "" then ""
    else
      var n := |text| - 1;
      if text[n] == QUOTE || (IsBlank(text[n]) && !Inside(text[..n])) then Collapsed(text[..n])
      else Collapsed(text[..n]) + (if Gap(text[..n]) then " " else "") + [text[n]]
  }

  /** Something came before, and then a blank outside quotes, and nothing but blanks and quotes since. */
  predicate Gap(text: string) {
    text != "" &&
    var n := |text| - 1;
    if text[n] == QUOTE then Gap(text[..n]) else IsBlank(text[n]) && !Inside(text[..n]) && Collapsed(text[..n]) != ""
  }

  lemma {:induction false} LineSnoc(args: seq<string>, x: string)
    ensures Line(args + [x]) == if args == [] then x else Line(args) + " " + x
  {
    if |args| > 1 {
      LineSnoc(args[1..], x);
      assert (args + [x])[1..] == args[1..] + [x];
    } else if |args| == 1 {
      assert (args + [x])[1..] == [x] && Line([x]) == x;
    }
  }

  lemma LineIsEmpty(args: seq<string>)
    requires forall i :: 0 <= i < |args| ==> args[i] != ""
    ensures Line(args) == "" <==> args == []
  {
  }

  ghost predicate Tracks(s: Splitter, text: string) {
    && Line(Ended(s)) == Collapsed(text)
    && (s.inQuote <==> Inside(text))
    && (Gap(text) <==> s.cur == "" && s.args != [])
  }

  lemma FeedTracks(s: Splitter, text: string, c: char)
    requires Clean(s) && Tracks(s, text)
    ensures Tracks(Feed(s, c), text + [c])
  {
    hide IsBlank, Line;
    assert (text + [c])[..|text|] == text;
    FeedCases(s, c);
    LineIsEmpty(Ended(s));
    if c != QUOTE && (s.inQuote || !IsBlank(c)) {
      LineSnoc(s.args, s.cur);
      LineSnoc(s.args, s.cur + [c]);
    }
  }

  lemma {:induction false} FeedAllTracks(text: string)
    ensures Tracks(FeedAll(START, text), text)
  {
    hide Tracks, Feed;
    if text == "" {
      NothingTracks();
    } else {
      var n := |text| - 1;
      FeedAllTracks(text[..n]);
      FeedKeepsClean(START, text[..n]);
      FeedTracks(FeedAll(START, text[..n]), text[..n], text[n]);
      assert text[..n] + [text[n]] == text;
    }
  }

  lemma NothingTracks()
    ensures Tracks(START, "")
  {
  }

  /** Splitting a tail and joining the arguments with single spaces drops the quotes and collapses the
      blanks outside them, and changes nothing else. */
  lemma ArgumentsCollapse(tail: string)
    ensures Line(Arguments(tail)) == Collapsed(TrimSpace(tail))
    ensures Arguments(tail) == [] <==> Collapsed(TrimSpace(tail)) == ""
  {
    hide TrimSpace, FeedAll, Collapsed, Gap, Line;
    FeedAllTracks(TrimSpace(tail));
    FeedKeepsClean(START, TrimSpace(tail));
    LineIsEmpty(Arguments(tail));
  }

  // ----- text that stays as it is

  predicate SingleAt(text: string, i: nat)
    requires i < |text|
  {
    text[i] != QUOTE && (IsBlank(text[i]) ==> text[i] == ' ' && i > 0 && !IsBlank(text[i - 1]))
  }

  /** No quotes, and blanks only as single spaces after other characters. */
  predicate Single(text: string) {
    forall i | 0 <= i < |text| :: SingleAt(text, i)
  }

  predicate EndsBlank(text: string) {
    text != "" && IsBlank(text[|text| - 1])
  }

  lemma {:induction false} NeverInside(text: string)
    requires QUOTE !in text
    ensures !Inside(text)
  {
    if text != "" {
      NeverInside(text[..|text| - 1]);
    }
  }

  lemma SingleFront(text: string)
    requires text != "" && Single(text)
    ensures Single(text[..|text| - 1]) && QUOTE !in text
  {
    var front := text[..|text| - 1];
    forall i | 0 <= i < |front|
      ensures SingleAt(front, i)
    {
      assert SingleAt(text, i);
    }
    forall i | 0 <= i < |text|
      ensures text[i] != QUOTE
    {
      assert SingleAt(text, i);
    }
  }

  lemma {:induction false} SingleCollapses(text: string)
    requires Single(text)
    ensures Gap(text) <==> EndsBlank(text)
    ensures text == Collapsed(text) + if EndsBlank(text) then " " else ""
  {
    if text != "" {
      var n := |text| - 1;
      var front := text[..n];
      SingleFront(text);
      SingleCollapses(front);
      NeverInside(front);
      assert text == front + [text[n]];
      assert SingleAt(text, n);
    }
  }

  /** A trimmed text without quotes, tabs and repeated spaces comes back from its arguments. */
  lemma PlainLineStays(text: string)
    requires Single(text) && Trimmed(text)
    ensures Collapsed(text) == text && Line(Arguments(text)) == text
  {
    hide IsSpace, TrimSpace, Collapsed, Gap, Line;
    SingleCollapses(text);
    if text != "" {
      BlanksAreSpaces(text[|text| - 1]);
    }
    TrimSpaceSame(text);
    ArgumentsCollapse(text);
  }
}
