/** The delimited blocks in an expert's answer: tool calls and citations. */
module TagParser {
  import opened Basics
  import opened Text
  import opened TextLemmas

  // ----- blocks

  /** A text cut at its closed blocks. */
  datatype Doc = Tail(text: string) | Gap(before: string, body: string, rest: Doc)

  /** The opening and the closing delimiter. */
  datatype Tags = Tags(open: string, close: string)

  predicate Usable(t: Tags) {
    t.open != "" && t.close != ""
  }

  /** No block is closed in the text: it has no opening tag, or no closing tag after the first one. */
  predicate NoBlock(s: string, t: Tags)
    requires Usable(t)
  {
    var i := Index(s, t.open);
    i == |s| || Index(s[i + |t.open|..], t.close) == |s| - i - |t.open|
  }

  /** Each block starts at the first opening tag and ends at the first closing tag after it. */
  ghost predicate Proper(d: Doc, t: Tags)
    requires Usable(t)
  {
    match d
    case Tail(s) => NoBlock(s, t)
    case Gap(before, body, rest) => FirstAtEnd(before, t.open) && FirstAtEnd(body, t.close) && Proper(rest, t)
  }

  /** A block with its tags. */
  function Block(body: string, t: Tags): string {
    t.open + body + t.close
  }

  /** The text again, every block in its place. */
  function Whole(d: Doc, t: Tags): string {
    match d
    case Tail(s) => s
    case Gap(before, body, rest) => before + Block(body, t) + Whole(rest, t)
  }

  function Scan(s: string, t: Tags): Doc
    requires Usable(t)
    decreases |s|
  {
    var i := Index(s, t.open);
    if i == |s| then Tail(s)
    else
      var after := s[i + |t.open|..];
      var j := Index(after, t.close);
      if j == |after| then Tail(s) else Gap(s[..i], after[..j], Scan(after[j + |t.close|..], t))
  }

  /** Scanning loses nothing. */
  lemma {:induction false} ScanRebuilds(s: string, t: Tags)
    requires Usable(t)
    ensures Whole(Scan(s, t), t) == s && Proper(Scan(s, t), t)
    decreases |s|
  {
    hide Index, NoBlock;
    var i := Index(s, t.open);
    if i < |s| {
      IndexIsFirst(s, t.open);
      var after := s[i + |t.open|..];
      var j := Index(after, t.close);
      if j < |after| {
        IndexIsFirst(after, t.close);
        ScanRebuilds(after[j + |t.close|..], t);
        hide FirstAtEnd, Block;
        IndexCuts(s, t.open);
        IndexCuts(after, t.close);
        BlockAt(s, i, j, t);
      } else {
        TailHasNone(s, t);
      }
    } else {
      TailHasNone(s, t);
    }
  }

  lemma TailHasNone(s: string, t: Tags)
    requires Usable(t)
    ensures NoBlock(s, t) <==> Scan(s, t) == Tail(s)
  {
    hide Index;
  }

  /** A text is cut in one way only: whatever proper blocks a text is made of, scanning finds those. */
  lemma {:induction false} ScanFindsBlocks(d: Doc, t: Tags)
    requires Usable(t) && Proper(d, t)
    ensures Scan(Whole(d, t), t) == d
    decreases d
  {
    hide Index, NoBlock, FirstAtEnd;
    match d
    case Tail(s) =>
      TailHasNone(s, t);
    case Gap(before, body, rest) =>
      ScanFindsBlocks(rest, t);
      ScanStep(before, body, Whole(rest, t), t);
  }

  lemma ScanStep(before: string, body: string, more: string, t: Tags)
    requires Usable(t) && FirstAtEnd(before, t.open) && FirstAtEnd(body, t.close)
    ensures Scan(before + Block(body, t) + more, t) == Gap(before, body, Scan(more, t))
  {
    hide Index, FirstAtEnd;
    var after := body + t.close + more;
    var s := before + Block(body, t) + more;
    assert s == before + t.open + after;
    IndexLocal(before, t.open, after);
    IndexLocal(body, t.close, more);
    assert s[..|before|] == before && s[|before| + |t.open|..] == after;
    assert after[..|body|] == body && after[|body| + |t.close|..] == more;
  }

  // ----- what becomes of the blocks

  /** The text without the blocks the parser accepts; the others stay as they are. */
  function Kept<T>(d: Doc, t: Tags, parser: string -> Option<T>): string {
    match d
    case Tail(s) => s
    case Gap(before, body, rest) =>
      before + (if parser(body).Some? then "" else Block(body, t)) + Kept(rest, t, parser)
  }

  /** The results of the blocks the parser accepts, in order. */
  function Values<T>(d: Doc, parser: string -> Option<T>): seq<T> {
    match d
    case Tail(_) => []
    case Gap(_, body, rest) => (if parser(body).Some? then [parser(body).value] else []) + Values(rest, parser)
  }

  /** The bodies of the blocks the parser accepts, with the place in the kept text they were taken from. */
  function Removed<T>(d: Doc, t: Tags, parser: string -> Option<T>, at: nat): seq<(nat, string)> {
    match d
    case Tail(_) => []
    case Gap(before, body, rest) =>
      if parser(body).Some? then
        [(at + |before|, body)] + Removed(rest, t, parser, at + |before|)
      else
        Removed(rest, t, parser, at + |before + Block(body, t)|)
  }

  /** Puts the blocks back, each at its place; the text given starts at the place given. */
  function Reinsert(text: string, at: nat, removed: seq<(nat, string)>, t: Tags): string {
    if removed == [] then text
    else
      var (p, body) := removed[0];
      if at <= p <= at + |text| then
        text[..p - at] + Block(body, t) + Reinsert(text[p - at..], p, removed[1..], t)
      else text
  }

  ghost predicate NotBefore(removed: seq<(nat, string)>, at: nat) {
    forall i :: 0 <= i < |removed| ==> at <= removed[i].0
  }

  lemma {:induction false} RemovedNotBefore<T>(d: Doc, t: Tags, parser: string -> Option<T>, at: nat)
    ensures NotBefore(Removed(d, t, parser, at), at)
  {
    match d
    case Tail(_) =>
    case Gap(before, body, rest) =>
      RemovedNotBefore(rest, t, parser, at + |before|);
      RemovedNotBefore(rest, t, parser, at + |before + Block(body, t)|);
  }

  /** A text before all the places stays in front. */
  lemma ReinsertLater(front: string, text: string, at: nat, removed: seq<(nat, string)>, t: Tags)
    requires NotBefore(removed, at + |front|)
    ensures Reinsert(front + text, at, removed, t) == front + Reinsert(text, at + |front|, removed, t)
  {
    hide Block;
    if removed != [] {
      var p := removed[0].0;
      assert at + |front| <= p;
      if p <= at + |front + text| {
        SliceOfConcat(front, text, p - at);
      }
    }
  }

  lemma SliceOfConcat(front: string, text: string, k: nat)
    requires |front| <= k <= |front + text|
    ensures (front + text)[..k] == front + text[..k - |front|] && (front + text)[k..] == text[k - |front|..]
  {
  }

  /** Putting the removed blocks back into the kept text rebuilds the whole. */
  lemma {:induction false} ReinsertRebuilds<T>(d: Doc, t: Tags, parser: string -> Option<T>, at: nat)
    ensures Reinsert(Kept(d, t, parser), at, Removed(d, t, parser, at), t) == Whole(d, t)
    decreases d
  {
    hide NotBefore, Block, Reinsert;
    match d
    case Tail(_) =>
      ReinsertNone(d.text, at, t);
    case Gap(before, body, rest) =>
      var kept := Kept(rest, t, parser);
      if parser(body).Some? {
        ReinsertRebuilds(rest, t, parser, at + |before|);
        assert before + "" + kept == before + kept;
        ReinsertFirst(before, kept, at, body, Removed(rest, t, parser, at + |before|), t);
      } else {
        var front := before + Block(body, t);
        ReinsertRebuilds(rest, t, parser, at + |front|);
        RemovedNotBefore(rest, t, parser, at + |front|);
        ReinsertLater(front, kept, at, Removed(rest, t, parser, at + |front|), t);
      }
  }

  lemma ReinsertNone(text: string, at: nat, t: Tags)
    ensures Reinsert(text, at, [], t) == text
  {
  }

  lemma ReinsertFirst(before: string, kept: string, at: nat, body: string, more: seq<(nat, string)>, t: Tags)
    ensures Reinsert(before + kept, at, [(at + |before|, body)] + more, t)
            == before + Block(body, t) + Reinsert(kept, at + |before|, more, t)
  {
    hide Block;
    SliceOfConcat(before, kept, |before|);
    assert kept[0..] == kept && before + kept[..0] == before;
    assert ([(at + |before|, body)] + more)[1..] == more;
  }

  /** The results are those of the removed blocks, one for one, in order. */
  lemma {:induction false} ResultsMatchBlocks<T>(d: Doc, t: Tags, parser: string -> Option<T>, at: nat)
    ensures |Values(d, parser)| == |Removed(d, t, parser, at)|
    ensures forall i :: 0 <= i < |Values(d, parser)| ==>
              parser(Removed(d, t, parser, at)[i].1) == Some(Values(d, parser)[i])
    decreases d
  {
    match d
    case Tail(_) =>
    case Gap(before, body, rest) =>
      var places := [at + |before|, at + |before + Block(body, t)|];
      ResultsMatchBlocks(rest, t, parser, places[0]);
      ResultsMatchBlocks(rest, t, parser, places[1]);
  }

  lemma ScanOnce(s: string, t: Tags)
    requires Usable(t)
    ensures NoBlock(s, t) ==> Scan(s, t) == Tail(s)
    ensures !NoBlock(s, t) ==>
              var i := Index(s, t.open);
              var after := s[i + |t.open|..];
              var j := Index(after, t.close);
              && Scan(s, t) == Gap(s[..i], after[..j], Scan(after[j + |t.close|..], t))
              && s[i..i + |t.open| + j + |t.close|] == Block(after[..j], t)
  {
    hide Index, Block;
    var i := Index(s, t.open);
    if !NoBlock(s, t) {
      var after := s[i + |t.open|..];
      var j := Index(after, t.close);
      IndexCuts(s, t.open);
      IndexCuts(after, t.close);
      BlockAt(s, i, j, t);
    }
  }

  lemma IndexCuts(s: string, pat: string)
    requires pat != "" && Index(s, pat) < |s|
    ensures s[Index(s, pat)..Index(s, pat) + |pat|] == pat
  {
    hide Index;
    IndexFacts(s, pat);
  }

  lemma DropThenSlice(s: string, a: nat, b: nat, c: nat)
    requires a <= b <= c <= |s|
    ensures s[a..][b - a..c - a] == s[b..c]
  {
  }

  lemma DropTwice(s: string, a: nat, b: nat)
    requires a <= b <= |s|
    ensures s[a..][b - a..] == s[b..] && s[a..][..b - a] == s[a..b]
  {
  }

  lemma CutInThree(s: string, a: nat, b: nat, c: nat, d: nat)
    requires a <= b <= c <= d <= |s|
    ensures s[a..d] == s[a..b] + s[b..c] + s[c..d]
  {
  }

  lemma CutOut(s: string, a: nat, d: nat)
    requires a <= d <= |s|
    ensures s == s[..a] + s[a..d] + s[d..]
  {
  }

  /** The block between the tags at i and, after it, at j. */
  lemma BlockAt(s: string, i: nat, j: nat, t: Tags)
    requires i + |t.open| + j + |t.close| <= |s| && s[i..i + |t.open|] == t.open
    requires s[i + |t.open|..][j..j + |t.close|] == t.close
    ensures var after := s[i + |t.open|..];
            && s[i..i + |t.open| + j + |t.close|] == Block(after[..j], t)
            && s == s[..i] + Block(after[..j], t) + after[j + |t.close|..]
  {
    var p := i + |t.open|;
    var q := p + j;
    var r := q + |t.close|;
    DropThenSlice(s, p, q, r);
    DropTwice(s, p, q);
    DropTwice(s, p, r);
    CutInThree(s, i, p, q, r);
    CutOut(s, i, r);
  }

  /** What one turn of the loop adds. */
  lemma OneTurn<T>(s: string, t: Tags, parser: string -> Option<T>)
    requires Usable(t)
    ensures NoBlock(s, t) ==> Kept(Scan(s, t), t, parser) == s && Values(Scan(s, t), parser) == []
    ensures !NoBlock(s, t) ==>
              var i := Index(s, t.open);
              var after := s[i + |t.open|..];
              var j := Index(after, t.close);
              var body, more := after[..j], Scan(after[j + |t.close|..], t);
              && Kept(Scan(s, t), t, parser) ==
                 s[..i] + (if parser(body).Some? then "" else s[i..i + |t.open| + j + |t.close|]) + Kept(more, t, parser)
              && Values(Scan(s, t), parser) ==
                 (if parser(body).Some? then [parser(body).value] else []) + Values(more, parser)
  {
    ScanOnce(s, t);
    hide Index, Scan, NoBlock, Block;
  }

  lemma Accumulate(out: string, before: string, block: string, more: string)
    ensures out + (before + block + more) == out + before + block + more
    ensures out + (before + "" + more) == out + before + more
  {
    assert before + "" == before;
  }

  lemma AccumulateValues<T>(results: seq<T>, v: T, more: seq<T>)
    ensures results + ([v] + more) == results + [v] + more
    ensures results + ([] + more) == results + more
  {
  }

  /** What was written and collected, followed by what the rest of the text gives. */
  ghost predicate OnTrack<T>(out: string, results: seq<T>, rest: string, t: Tags, parser: string -> Option<T>, whole: string)
    requires Usable(t)
  {
    && out + Kept(Scan(rest, t), t, parser) == Kept(Scan(whole, t), t, parser)
    && results + Values(Scan(rest, t), parser) == Values(Scan(whole, t), parser)
  }

  lemma StartsOnTrack<T>(whole: string, t: Tags, parser: string -> Option<T>)
    requires Usable(t)
    ensures OnTrack("", [], whole, t, parser, whole)
  {
    assert "" + Kept(Scan(whole, t), t, parser) == Kept(Scan(whole, t), t, parser);
  }

  lemma EndsOnTrack<T>(out: string, results: seq<T>, rest: string, t: Tags, parser: string -> Option<T>, whole: string)
    requires Usable(t) && OnTrack(out, results, rest, t, parser, whole) && NoBlock(rest, t)
    ensures out + rest == Kept(Scan(whole, t), t, parser) && results == Values(Scan(whole, t), parser)
  {
    hide Scan, Kept, Values, NoBlock;
    OneTurn(rest, t, parser);
  }

  lemma TurnsOnTrack<T>(out: string, results: seq<T>, rest: string, t: Tags, parser: string -> Option<T>, whole: string)
    requires Usable(t) && OnTrack(out, results, rest, t, parser, whole) && !NoBlock(rest, t)
    ensures var i := Index(rest, t.open);
            var after := rest[i + |t.open|..];
            var j := Index(after, t.close);
            var body, next := after[..j], after[j + |t.close|..];
            if parser(body).Some? then OnTrack(out + rest[..i], results + [parser(body).value], next, t, parser, whole)
            else OnTrack(out + rest[..i] + rest[i..i + |t.open| + j + |t.close|], results, next, t, parser, whole)
  {
    hide Scan, Kept, Values, Index;
    OneTurn(rest, t, parser);
    var i := Index(rest, t.open);
    var after := rest[i + |t.open|..];
    var j := Index(after, t.close);
    var body, more := after[..j], Scan(after[j + |t.close|..], t);
    Accumulate(out, rest[..i], rest[i..i + |t.open| + j + |t.close|], Kept(more, t, parser));
    if parser(body).Some? {
      AccumulateValues(results, parser(body).value, Values(more, parser));
    }
  }

  /** extractBlocks: the loop over the rest of the text. */
  method ExtractBlocks<T>(text: string, t: Tags, parser: string -> Option<T>) returns (out: string, results: seq<T>)
    requires Usable(t)
    ensures out == Kept(Scan(text, t), t, parser)
    ensures results == Values(Scan(text, t), parser)
  {
    hide Index, Scan, Kept, Values, Block, OnTrack;
    out, results := "", [];
    var rest := text;
    StartsOnTrack(text, t, parser);
    while true
      invariant OnTrack(out, results, rest, t, parser, text)
      decreases |rest|
    {
      var i := Index(rest, t.open);
      if i == |rest| {
        EndsOnTrack(out, results, rest, t, parser, text);
        return out + rest, results;
      }
      var after := rest[i + |t.open|..];
      var j := Index(after, t.close);
      if j == |after| {
        EndsOnTrack(out, results, rest, t, parser, text);
        CutAt(out, rest, i);
        return out + rest[..i] + rest[i..], results;
      }
      TurnsOnTrack(out, results, rest, t, parser, text);
      var parsed := parser(after[..j]);
      out := out + rest[..i];
      if parsed.Some? {
        results := results + [parsed.value];
      } else {
        out := out + rest[i..i + |t.open| + j + |t.close|];
      }
      rest := after[j + |t.close|..];
    }
  }

  lemma CutAt(out: string, s: string, i: nat)
    requires i <= |s|
    ensures out + s[..i] + s[i..] == out + s
  {
    assert s[..i] + s[i..] == s;
  }
}
