/** parseArgs: a command tail split into arguments at unquoted blanks. */
module Argv {
  import opened Text
  import opened TextLemmas

  const QUOTE := '"'

  predicate IsBlank(c: char) {
    c == ' ' || c == '\t'
  }

  /** Where the splitter stands: the arguments ended, the one being read, and whether a quote is open. */
  datatype Splitter = Splitter(args: seq<string>, cur: string, inQuote: bool)

  const START := Splitter([], "", false)

  function Ended(s: Splitter): seq<string> {
    if s.cur == "" then s.args else s.args + [s.cur]
  }

  function Feed(s: Splitter, c: char): Splitter {
    if c == QUOTE then s.(inQuote := !s.inQuote)
    else if IsBlank(c) && !s.inQuote then Splitter(Ended(s), "", false)
    else s.(cur := s.cur + [c])
  }

  function FeedAll(s: Splitter, text: string): Splitter {
    if text == "" then s else Feed(FeedAll(s, text[..|text| - 1]), text[|text| - 1])
  }

  function Arguments(tail: string): seq<string> {
    Ended(FeedAll(START, TrimSpace(tail)))
  }

  method ParseArgs(tail: string) returns (args: seq<string>)
    ensures args == Arguments(tail)
  {
    var text := TrimSpace(tail);
    hide TrimSpace, Feed;
    args := [];
    if text == "" {
      return;
    }
    var cur, inQuote := "", false;
    for i := 0 to |text|
      invariant FeedAll(START, text[..i]) == Splitter(args, cur, inQuote)
    {
      assert text[..i + 1][..i] == text[..i];
      FeedCases(Splitter(args, cur, inQuote), text[i]);
      if text[i] == QUOTE {
        inQuote := !inQuote;
      } else if IsBlank(text[i]) {
        if inQuote {
          cur := cur + [text[i]];
        } else if |cur| > 0 {
          args := args + [cur];
          cur := "";
        }
      } else {
        cur := cur + [text[i]];
      }
    }
    assert text[..|text|] == text;
    if |cur| > 0 {
      args := args + [cur];
    }
  }

  lemma FeedCases(s: Splitter, c: char)
    ensures c == QUOTE ==> Feed(s, c) == Splitter(s.args, s.cur, !s.inQuote)
    ensures c != QUOTE && IsBlank(c) && !s.inQuote ==> Feed(s, c) == Splitter(Ended(s), "", false)
    ensures c != QUOTE && (s.inQuote || !IsBlank(c)) ==> Feed(s, c) == Splitter(s.args, s.cur + [c], s.inQuote)
  {
  }

  // ----- what is produced

  ghost predicate Clean(s: Splitter) {
    && QUOTE !in s.cur
    && forall i :: 0 <= i < |s.args| ==> s.args[i] != "" && QUOTE !in s.args[i]
  }

  lemma {:induction false} FeedKeepsClean(s: Splitter, text: string)
    requires Clean(s)
    ensures Clean(FeedAll(s, text))
  {
    if text != "" {
      FeedKeepsClean(s, text[..|text| - 1]);
    }
  }

  /** Every argument is non-empty and holds no quote. */
  lemma ArgumentsAreClean(tail: string)
    ensures forall i :: 0 <= i < |Arguments(tail)| ==> Arguments(tail)[i] != "" && QUOTE !in Arguments(tail)[i]
  {
    hide TrimSpace, FeedAll;
    FeedKeepsClean(START, TrimSpace(tail));
  }

  /** The characters that are neither quotes nor blanks outside quotes. */
  function Significant(text: string): string {
    if text == "" then ""
    else
      var n := |text| - 1;
      Significant(text[..n]) +
      if text[n] == QUOTE || (IsBlank(text[n]) && !Inside(text[..n])) then "" else [text[n]]
  }

  /** An odd number of quotes came before. */
  predicate Inside(text: string) {
    text != "" && (Inside(text[..|text| - 1]) <==> text[|text| - 1] != QUOTE)
  }

  function Flat(args: seq<string>): string {
    if args == [] then "" else Flat(args[..|args| - 1]) + args[|args| - 1]
  }

  lemma {:induction false} FeedKeepsSignificant(text: string)
    ensures var s := FeedAll(START, text);
            Flat(s.args) + s.cur == Significant(text) && (s.inQuote <==> Inside(text))
  {
    if text != "" {
      var n := |text| - 1;
      FeedKeepsSignificant(text[..n]);
      var s := FeedAll(START, text[..n]);
      FeedCases(s, text[n]);
      hide Feed;
    }
  }

  /** No character is lost or moved: the arguments, one after another, are the significant characters. */
  lemma ArgumentsKeepText(tail: string)
    ensures Flat(Arguments(tail)) == Significant(TrimSpace(tail))
  {
    hide TrimSpace, FeedAll, Significant;
    FeedKeepsSignificant(TrimSpace(tail));
  }

  // ----- parsing inverts quoting

  lemma {:induction false} FeedConcat(s: Splitter, a: string, b: string)
    ensures FeedAll(s, a + b) == FeedAll(FeedAll(s, a), b)
  {
    hide Feed;
    if b == "" {
      assert a + b == a;
    } else {
      var n := |b| - 1;
      FeedConcat(s, a, b[..n]);
      assert (a + b)[..|a + b| - 1] == a + b[..n];
    }
  }

  /** Text that the splitter takes as it is: quoted, or without blanks. */
  lemma {:induction false} FeedPlain(s: Splitter, text: string)
    requires QUOTE !in text && (s.inQuote || forall i :: 0 <= i < |text| ==> !IsBlank(text[i]))
    ensures FeedAll(s, text) == Splitter(s.args, s.cur + text, s.inQuote)
  {
    if text == "" {
      assert s.cur + text == s.cur;
    } else {
      var n := |text| - 1;
      FeedPlain(s, text[..n]);
      FeedCases(FeedAll(s, text[..n]), text[n]);
      hide Feed;
      assert s.cur + text == s.cur + text[..n] + [text[n]];
    }
  }

  /** An argument as a user may write it: in quotes, or bare when it holds no space. */
  datatype Word = Word(text: string, quoted: bool)

  predicate Writable(w: Word) {
    w.text != "" && QUOTE !in w.text && (w.quoted || forall i | 0 <= i < |w.text| :: !IsSpace(w.text[i]))
  }

  function Write(w: Word): string {
    if w.quoted then [QUOTE] + w.text + [QUOTE] else w.text
  }

  function WriteAll(words: seq<Word>): string {
    if words == [] then ""
    else if |words| == 1 then Write(words[0])
    else WriteAll(words[..|words| - 1]) + (" " + Write(words[|words| - 1]))
  }

  function Texts(words: seq<Word>): seq<string> {
    seq(|words|, i requires 0 <= i < |words| => words[i].text)
  }

  lemma BlanksAreSpaces(c: char)
    ensures IsBlank(c) ==> IsSpace(c)
    ensures !IsSpace(QUOTE)
  {
  }

  lemma FeedWord(args: seq<string>, w: Word)
    requires Writable(w)
    ensures FeedAll(Splitter(args, "", false), Write(w)) == Splitter(args, w.text, false)
  {
    hide IsSpace;
    var s := Splitter(args, "", false);
    assert "" + w.text == w.text;
    if w.quoted {
      FeedOne(s, QUOTE);
      FeedConcat(s, [QUOTE] + w.text, [QUOTE]);
      FeedConcat(s, [QUOTE], w.text);
      FeedPlain(s.(inQuote := true), w.text);
      FeedOne(Splitter(args, w.text, true), QUOTE);
    } else {
      forall i | 0 <= i < |w.text|
        ensures !IsBlank(w.text[i])
      {
        BlanksAreSpaces(w.text[i]);
      }
      FeedPlain(s, w.text);
    }
  }

  lemma FeedOne(s: Splitter, c: char)
    ensures FeedAll(s, [c]) == Feed(s, c)
  {
    hide Feed;
    assert [c][..0] == "";
    assert FeedAll(s, "") == s;
  }

  lemma {:induction false} FeedWords(words: seq<Word>)
    requires words != [] && forall i :: 0 <= i < |words| ==> Writable(words[i])
    ensures FeedAll(START, WriteAll(words)) == Splitter(Texts(words[..|words| - 1]), words[|words| - 1].text, false)
  {
    hide Feed, FeedAll, Write;
    var n := |words| - 1;
    var w := words[n];
    if n == 0 {
      FeedWord([], w);
      assert Texts(words[..0]) == [];
    } else {
      var front := words[..n];
      FeedWords(front);
      var had := FeedAll(START, WriteAll(front));
      FeedConcat(START, WriteAll(front), " " + Write(w));
      FeedConcat(had, " ", Write(w));
      FeedOne(had, ' ');
      FeedCases(had, ' ');
      assert Texts(front) == Texts(front[..n - 1]) + [front[n - 1].text];
      assert Writable(front[n - 1]);
      FeedWord(Texts(front), w);
    }
  }

  lemma {:induction false} WrittenEnds(words: seq<Word>)
    requires words != [] && forall i :: 0 <= i < |words| ==> Writable(words[i])
    ensures WriteAll(words) != "" && Trimmed(WriteAll(words))
  {
    hide IsSpace;
    BlanksAreSpaces(' ');
    var n := |words| - 1;
    assert Writable(words[n]);
    if n > 0 {
      WrittenEnds(words[..n]);
    }
  }

  lemma TextsSnoc(words: seq<Word>)
    requires words != []
    ensures Texts(words) == Texts(words[..|words| - 1]) + [words[|words| - 1].text]
  {
  }

  /** Parsing the written, space-joined words gives the words back. */
  lemma ParseInvertsQuoting(words: seq<Word>)
    requires forall i :: 0 <= i < |words| ==> Writable(words[i])
    ensures Arguments(WriteAll(words)) == Texts(words)
  {
    hide TrimSpace, FeedAll, WriteAll, Trimmed, IsSpace, Texts;
    if words == [] {
      EmptyTail();
    } else {
      WrittenEnds(words);
      TrimSpaceSame(WriteAll(words));
      FeedWords(words);
      assert Writable(words[|words| - 1]);
      TextsSnoc(words);
    }
  }

  lemma EmptyTail()
    ensures Arguments("") == [] && WriteAll([]) == "" && Texts([]) == []
  {
    hide TrimSpace, IsSpace;
    TrimSpaceSame("");
    assert FeedAll(START, "") == START;
  }

  lemma FeedDivided(a: string, c: char, b: string)
    requires QUOTE !in a && QUOTE !in b && c != QUOTE && a != ""
    requires forall i :: 0 <= i < |a| ==> !IsBlank(a[i])
    requires forall i :: 0 <= i < |b| ==> !IsBlank(b[i])
    ensures FeedAll(START, a + [c] + b) ==
            if IsBlank(c) then Splitter([a], b, false) else Splitter([], a + [c] + b, false)
  {
    hide FeedAll, IsBlank;
    FeedConcat(START, a + [c], b);
    FeedConcat(START, a, [c]);
    FeedPlain(START, a);
    assert "" + a == a && "" + b == b;
    var one := Splitter([], a, false);
    FeedOne(one, c);
    FeedCases(one, c);
    assert [] + [a] == [a];
    FeedPlain(Feed(one, c), b);
  }

  lemma NoBlanks(a: string)
    requires forall i :: 0 <= i < |a| ==> !IsSpace(a[i])
    ensures forall i :: 0 <= i < |a| ==> !IsBlank(a[i])
  {
    hide IsSpace, IsBlank;
    forall i | 0 <= i < |a|
      ensures !IsBlank(a[i])
    {
      BlanksAreSpaces(a[i]);
    }
  }

  /** Spaces and tabs outside quotes divide arguments, and nothing else does. */
  lemma DividesWords(a: string, c: char, b: string)
    requires a != "" && b != "" && QUOTE !in a && QUOTE !in b && c != QUOTE
    requires forall i :: 0 <= i < |a| ==> !IsSpace(a[i])
    requires forall i :: 0 <= i < |b| ==> !IsSpace(b[i])
    ensures Arguments(a + [c] + b) == if c == ' ' || c == '\t' then [a, b] else [a + [c] + b]
  {
    hide IsSpace, FeedAll, TrimSpace;
    var text := a + [c] + b;
    assert text[0] == a[0] && text[|text| - 1] == b[|b| - 1];
    TrimSpaceSame(text);
    NoBlanks(a);
    NoBlanks(b);
    FeedDivided(a, c, b);
    assert [a] + [b] == [a, b];
  }
}
