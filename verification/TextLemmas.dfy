/** Facts about trimming, splitting and searching that the parsers rest on. */
module TextLemmas {
  import opened Text

  ghost predicate Blank(s: string) {
    forall i :: 0 <= i < |s| ==> IsSpace(s[i])
  }

  /** What trimming leaves is the end, or the beginning, of the text, and does not begin, or end, in a space. */
  lemma {:induction false} TrimLeftFacts(s: string)
    ensures var r := TrimLeft(s); r == s[|s| - |r|..] && (r != "" ==> !IsSpace(r[0]))
  {
    hide IsSpace;
    if s != "" {
      TrimLeftFacts(s[1..]);
    }
  }

  lemma {:induction false} TrimRightFacts(s: string)
    ensures var r := TrimRight(s); r == s[..|r|] && (r != "" ==> !IsSpace(r[|r| - 1]))
  {
    hide IsSpace;
    if s != "" {
      TrimRightFacts(s[..|s| - 1]);
    }
  }

  lemma {:induction false} TrimLeftBlank(a: string, s: string)
    requires Blank(a) && (s == "" || !IsSpace(s[0]))
    ensures TrimLeft(a + s) == s
  {
    hide IsSpace;
    if a == "" {
      assert a + s == s;
    } else {
      TrimLeftBlank(a[1..], s);
      assert (a + s)[1..] == a[1..] + s && (a + s)[0] == a[0];
    }
  }

  lemma TrimRightSame(s: string)
    requires s == "" || !IsSpace(s[|s| - 1])
    ensures TrimRight(s) == s
  {
    hide IsSpace;
  }

  lemma TrimRightStep(s: string, c: char)
    requires IsSpace(c)
    ensures TrimRight(s + [c]) == TrimRight(s)
  {
    hide IsSpace;
    assert (s + [c])[..|s|] == s;
  }

  lemma {:induction false} TrimRightBlank(s: string, b: string)
    requires Blank(b) && (s == "" || !IsSpace(s[|s| - 1]))
    ensures TrimRight(s + b) == s
  {
    hide IsSpace, TrimRight;
    if b == "" {
      assert s + b == s;
      TrimRightSame(s);
    } else {
      var n := |b| - 1;
      TrimRightBlank(s, b[..n]);
      TrimRightStep(s + b[..n], b[n]);
      assert s + b[..n] + [b[n]] == s + b;
    }
  }

  /** Trimming removes exactly the blank ends. */
  lemma TrimSpaceOf(a: string, s: string, b: string)
    requires Blank(a) && Blank(b) && Trimmed(s)
    ensures TrimSpace(a + s + b) == s
  {
    hide IsSpace, TrimLeft, TrimRight;
    if s == "" {
      assert a + s + b == (a + b) + "";
      TrimLeftBlank(a + b, "");
      assert "" + "" == "";
      TrimRightBlank("", "");
    } else {
      assert a + s + b == a + (s + b);
      TrimLeftBlank(a, s + b);
      TrimRightBlank(s, b);
    }
  }

  lemma TrimSpaceSame(s: string)
    requires Trimmed(s)
    ensures TrimSpace(s) == s
  {
    hide TrimSpace, Trimmed;
    TrimSpaceOf("", s, "");
    assert "" + s + "" == s;
  }

  // ----- splitting

  lemma {:induction false} CutAt(a: string, sep: char, b: string)
    requires sep !in a
    ensures Cut(a + [sep] + b, sep) == |a|
  {
    var s := a + [sep] + b;
    if a != "" {
      CutAt(a[1..], sep, b);
      assert s[1..] == a[1..] + [sep] + b && s[0] == a[0];
    }
  }

  /** Splitting undoes joining lines that hold no newline. */
  lemma {:induction false} SplitJoin(lines: seq<string>)
    requires lines != [] && forall i :: 0 <= i < |lines| ==> '\n' !in lines[i]
    ensures Split(Join(lines, "\n"), '\n') == lines
  {
    hide Cut;
    if |lines| == 1 {
    } else {
      var rest := Join(lines[1..], "\n");
      CutAt(lines[0], '\n', rest);
      SplitJoin(lines[1..]);
      var s := Join(lines, "\n");
      assert s == lines[0] + ['\n'] + rest;
      assert s[..|lines[0]|] == lines[0] && s[|lines[0]| + 1..] == rest;
    }
  }

  // ----- searching

  lemma IndexFacts(s: string, pat: string)
    requires pat != ""
    ensures var p := Index(s, pat);
            && (p < |s| ==> At(s, p, pat))
            && (forall j :: 0 <= j < p ==> !At(s, j, pat))
            && (p == |s| ==> forall j :: 0 <= j <= |s| ==> !At(s, j, pat))
  {
    var _ := IndexFrom(s, pat, 0);
  }

  /** The first occurrence of pat in front + pat is the one at its end. */
  predicate FirstAtEnd(front: string, pat: string)
    requires pat != ""
  {
    Index(front + pat, pat) == |front|
  }

  /** Text after an occurrence does not change which occurrence is first. */
  lemma IndexLocal(front: string, pat: string, more: string)
    requires pat != "" && FirstAtEnd(front, pat)
    ensures Index(front + pat + more, pat) == |front|
  {
    hide Index;
    var s, short := front + pat + more, front + pat;
    IndexFacts(s, pat);
    IndexFacts(short, pat);
    assert At(s, |front|, pat);
    assert forall j :: 0 <= j < |front| ==> (At(s, j, pat) <==> At(short, j, pat));
  }

  lemma IndexIsFirst(s: string, pat: string)
    requires pat != "" && Index(s, pat) < |s|
    ensures FirstAtEnd(s[..Index(s, pat)], pat)
    ensures Index(s, pat) + |pat| <= |s|
    ensures s == s[..Index(s, pat)] + pat + s[Index(s, pat) + |pat|..]
  {
    hide Index;
    var p := Index(s, pat);
    var front := s[..p];
    IndexFacts(s, pat);
    IndexFacts(front + pat, pat);
    assert front + pat == s[..p + |pat|];
    assert forall j :: 0 <= j < p ==> (At(s, j, pat) <==> At(front + pat, j, pat));
    assert At(front + pat, p, pat);
  }

  /** A text without the pattern puts it first only at its own end, when the pattern's first
      character does not come again in it. */
  lemma NoOverlap(front: string, pat: string)
    requires pat != "" && pat[0] !in pat[1..] && !Contains(front, pat)
    ensures FirstAtEnd(front, pat)
  {
    hide Index;
    var s := front + pat;
    IndexFacts(s, pat);
    IndexFacts(front, pat);
    forall j | 0 <= j < |front|
      ensures !At(s, j, pat)
    {
      if j + |pat| <= |front| {
        assert s[j..j + |pat|] == front[j..j + |pat|];
        assert !At(front, j, pat);
      } else if j + |pat| <= |s| {
        var k := |front| - j;
        assert s[j..j + |pat|][k] == s[|front|] == pat[0];
        assert pat[1..][k - 1] == pat[k] != pat[0];
      }
    }
    assert At(s, |front|, pat);
  }
}
