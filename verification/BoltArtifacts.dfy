/** The two artifacts of stage 2.7 as they are written, and that reading them gives back what was written:
    which units there are, and which of them depends on which. */
module BoltArtifacts {
  import opened Basics
  import opened Text
  import opened TextLemmas
  import opened BoltPlan

  /** A name without any space. */
  predicate IsName(u: string) {
    u != "" && forall i | 0 <= i < |u| :: !IsSpace(u[i])
  }

  // ----- the units of work

  /** A heading that names a unit, with a title after the name or none; or any line that is no such heading. */
  datatype UnitLine = Heading(deep: bool, name: string, title: string) | Prose(text: string)

  predicate UnitLineOk(l: UnitLine) {
    match l
    case Heading(_, name, title) => IsName(name) && Trimmed(title) && '\n' !in title
    case Prose(text) => '\n' !in text && !HasPrefix(TrimSpace(text), "## Unit ") && !HasPrefix(TrimSpace(text), "### Unit ")
  }

  function WriteUnit(l: UnitLine): string {
    match l
    case Heading(deep, name, title) =>
      (if deep then "### Unit " else "## Unit ") + name + (if title == "" then "" else " " + title)
    case Prose(text) => text
  }

  function NamesOf(lines: seq<UnitLine>): seq<string> {
    if lines == [] then []
    else NamesOf(lines[..|lines| - 1]) + if lines[|lines| - 1].Heading? then [lines[|lines| - 1].name] else []
  }

  function WriteUnits(lines: seq<UnitLine>): seq<string> {
    seq(|lines|, i requires 0 <= i < |lines| => WriteUnit(lines[i]))
  }

  lemma SpaceInName(u: string)
    requires IsName(u)
    ensures ' ' !in u && '\n' !in u && Trimmed(u)
  {
    assert IsSpace(' ') && IsSpace('\n');
    hide IsSpace;
  }

  /** The pieces of a text that begins with a word and a space. */
  lemma SplitOne(word: string, rest: string, n: nat)
    requires ' ' !in word && n > 1
    ensures SplitN(word + " " + rest, ' ', n) == [word] + SplitN(rest, ' ', n - 1)
  {
    hide Cut;
    var s := word + " " + rest;
    assert s == word + [' '] + rest;
    CutAt(word, ' ', rest);
    assert s[..|word|] == word && s[|word| + 1..] == rest;
  }

  lemma SplitLast(word: string, n: nat)
    requires ' ' !in word && n > 0
    ensures SplitN(word, ' ', n) == [word]
  {
    var _ := Cut(word, ' ');
  }

  lemma HeadingParts(mark: string, name: string, title: string)
    requires (mark == "##" || mark == "###") && IsName(name)
    ensures var parts := SplitN(mark + " Unit " + name + (if title == "" then "" else " " + title), ' ', 4);
            |parts| >= 3 && parts[2] == name
  {
    hide IsSpace, SplitN;
    SpaceInName(name);
    var rest := if title == "" then name else name + " " + title;
    var line := mark + " Unit " + name + (if title == "" then "" else " " + title);
    assert line == mark + " " + ("Unit" + " " + rest);
    SplitOne(mark, "Unit" + " " + rest, 4);
    SplitOne("Unit", rest, 3);
    if title == "" {
      SplitLast(name, 2);
    } else {
      SplitOne(name, title, 2);
    }
  }

  lemma HeadingTrimmed(mark: string, name: string, title: string)
    requires (mark == "##" || mark == "###") && IsName(name) && Trimmed(title)
    ensures Trimmed(mark + " Unit " + name + (if title == "" then "" else " " + title))
  {
    SharpIsNoSpace();
    hide IsSpace;
  }

  lemma SharpIsNoSpace()
    ensures !IsSpace('#') && !IsSpace('-')
  {
  }

  lemma HeadingIsRead(line: string, name: string)
    requires Trimmed(line) && (HasPrefix(line, "## Unit ") || HasPrefix(line, "### Unit "))
    requires var parts := SplitN(line, ' ', 4); |parts| >= 3 && parts[2] == name
    ensures UnitOf(line) == Some(name)
  {
    hide IsSpace, TrimSpace, SplitN, Trimmed;
    TrimSpaceSame(line);
  }

  lemma HeadingReads(deep: bool, name: string, title: string)
    requires IsName(name) && Trimmed(title)
    ensures UnitOf(WriteUnit(Heading(deep, name, title))) == Some(name)
  {
    hide IsSpace, SplitN, Trimmed, IsName, UnitOf;
    var mark := if deep then "###" else "##";
    var line := mark + " Unit " + name + (if title == "" then "" else " " + title);
    HeadingTrimmed(mark, name, title);
    HeadingParts(mark, name, title);
    assert mark + " Unit " <= line;
    assert mark + " Unit " == if deep then "### Unit " else "## Unit ";
    HeadingIsRead(line, name);
    assert line == WriteUnit(Heading(deep, name, title));
  }

  /** A written line is read as the unit it names, and as nothing when it is prose. */
  lemma UnitReads(l: UnitLine)
    requires UnitLineOk(l)
    ensures UnitOf(WriteUnit(l)) == if l.Heading? then Some(l.name) else None
  {
    hide IsSpace, TrimSpace, SplitN, Trimmed, IsName;
    if l.Heading? {
      hide UnitOf, WriteUnit;
      HeadingReads(l.deep, l.name, l.title);
    }
  }

  lemma {:induction false} UnitsFromWritten(lines: seq<UnitLine>)
    requires forall i :: 0 <= i < |lines| ==> UnitLineOk(lines[i])
    ensures UnitsFrom(WriteUnits(lines)) == NamesOf(lines)
  {
    hide UnitLineOk, WriteUnit, UnitOf;
    if lines != [] {
      var n := |lines| - 1;
      UnitsFromWritten(lines[..n]);
      UnitReads(lines[n]);
      assert WriteUnits(lines)[..n] == WriteUnits(lines[..n]);
    }
  }

  lemma WrittenUnitIsOneLine(l: UnitLine)
    requires UnitLineOk(l)
    ensures '\n' !in WriteUnit(l)
  {
    hide IsSpace, TrimSpace;
    if l.Heading? {
      SpaceInName(l.name);
    }
  }

  /** The units of the written artifact are the names of its headings, in order. */
  lemma UnitsRoundTrip(lines: seq<UnitLine>)
    requires forall i :: 0 <= i < |lines| ==> UnitLineOk(lines[i])
    ensures Units(Join(WriteUnits(lines), "\n")) == NamesOf(lines)
  {
    hide UnitLineOk, WriteUnit, UnitOf, Join, Split;
    var text := Join(WriteUnits(lines), "\n");
    UnitsFromWritten(lines);
    if lines == [] {
      JoinOfNone();
    } else {
      forall i | 0 <= i < |lines|
        ensures '\n' !in WriteUnits(lines)[i]
      {
        WrittenUnitIsOneLine(lines[i]);
      }
      SplitJoin(WriteUnits(lines));
      if text == "" {
        SplitOfNone();
        assert WriteUnits(lines) == [""];
        OneEmptyLine();
      }
    }
  }

  lemma JoinOfNone()
    ensures Join([], "\n") == ""
  {
  }

  lemma SplitOfNone()
    ensures Split("", '\n') == [""]
  {
  }

  lemma OneEmptyLine()
    ensures UnitsFrom([""]) == []
  {
    hide IsSpace;
    TrimSpaceSame("");
    assert [""][..0] == [];
  }

  // ----- the dependency list

  /** A line that says that a unit depends on another, in one of the two forms, with a bullet or without;
      or a line that says nothing. */
  datatype DependencyLine =
    | DependsOn(bullet: bool, arrow: bool, unit: string, on: string)
    | Comment(text: string)
    | Empty

  /** Without a bullet a name must not look like a bullet or a comment. */
  predicate DependencyLineOk(l: DependencyLine) {
    match l
    case DependsOn(bullet, _, unit, on) => IsName(unit) && IsName(on) && (bullet || (unit[0] != '#' && unit[0] != '-'))
    case Comment(text) => '\n' !in text
    case Empty => true
  }

  function Sentence(arrow: bool, unit: string, on: string): string {
    unit + (if arrow then " -> " else " depends on ") + on
  }

  function WriteDependency(l: DependencyLine): string {
    match l
    case DependsOn(bullet, arrow, unit, on) => (if bullet then "- " else "") + Sentence(arrow, unit, on)
    case Comment(text) => "#" + text
    case Empty => ""
  }

  function WriteDependencies(lines: seq<DependencyLine>): seq<string> {
    seq(|lines|, i requires 0 <= i < |lines| => WriteDependency(lines[i]))
  }

  lemma SentenceTrimmed(arrow: bool, unit: string, on: string)
    requires IsName(unit) && IsName(on)
    ensures Trimmed(Sentence(arrow, unit, on)) && Sentence(arrow, unit, on) != ""
    ensures Trimmed("- " + Sentence(arrow, unit, on)) && Sentence(arrow, unit, on)[0] == unit[0]
  {
    SharpIsNoSpace();
    hide IsSpace;
    var s := Sentence(arrow, unit, on);
    assert s[|s| - 1] == on[|on| - 1];
  }

  /** A separator that begins with a space does not begin inside a name. */
  lemma FirstSeparator(unit: string, sep: string, on: string)
    requires ' ' !in unit && sep != "" && sep[0] == ' '
    ensures Index(unit + sep + on, sep) == |unit| && Contains(unit + sep + on, sep)
  {
    var s := unit + sep + on;
    IndexFacts(s, sep);
    assert s[|unit|..|unit| + |sep|] == sep;
    assert At(s, |unit|, sep);
    forall j | 0 <= j < |unit|
      ensures !At(s, j, sep)
    {
      assert s[j] == unit[j];
      assert j + |sep| <= |s| ==> s[j..j + |sep|][0] == s[j];
    }
  }

  lemma NoDependsInArrow(unit: string, on: string)
    requires ' ' !in unit && ' ' !in on
    ensures !Contains(unit + " -> " + on, " depends on ")
  {
    var s, sep := unit + " -> " + on, " depends on ";
    IndexFacts(s, sep);
    forall j | 0 <= j <= |s|
      ensures !At(s, j, sep)
    {
      DependsAt(s, j);
      assert j == |unit| && j < |s| - 1 ==> s[j + 1] == '-';
      SpacesBetween(unit, " -> ", on, j);
      SpacesBetween(unit, " -> ", on, j + 8);
    }
  }

  lemma DependsAt(s: string, j: nat)
    ensures At(s, j, " depends on ") ==> j + 12 <= |s| && s[j] == ' ' && s[j + 1] == 'd' && s[j + 8] == ' '
  {
    var sep := " depends on ";
    assert At(s, j, sep) ==> s[j] == s[j..j + |sep|][0] && s[j + 1] == s[j..j + |sep|][1] && s[j + 8] == s[j..j + |sep|][8];
  }

  lemma SpacesBetween(unit: string, sep: string, on: string, j: nat)
    requires ' ' !in unit && ' ' !in on
    ensures j < |unit + sep + on| && (unit + sep + on)[j] == ' ' ==> |unit| <= j < |unit| + |sep|
  {
    var s := unit + sep + on;
    if j < |unit| {
      assert s[j] == unit[j];
    } else if |unit| + |sep| <= j < |s| {
      assert s[j] == on[j - |unit| - |sep|];
    }
  }

  lemma SentenceSplits(arrow: bool, unit: string, on: string)
    requires IsName(unit) && IsName(on)
    ensures var s := Sentence(arrow, unit, on);
            && (Contains(s, DEPENDS) <==> !arrow)
            && Contains(s, if arrow then ARROW else DEPENDS)
            && SplitEdge(s, if arrow then ARROW else DEPENDS) == Some(Edge(unit, on))
  {
    hide IsSpace, TrimSpace, Index, Trimmed;
    SpaceInName(unit);
    SpaceInName(on);
    TrimSpaceSame(unit);
    TrimSpaceSame(on);
    var sep := if arrow then " -> " else " depends on ";
    var s := Sentence(arrow, unit, on);
    FirstSeparator(unit, sep, on);
    if arrow {
      NoDependsInArrow(unit, on);
    }
    assert s[..|unit|] == unit && s[|unit| + |sep|..] == on;
  }

  /** A written line is read as the dependency it states: the unit before the separator depends on the one
      after it. */
  lemma DependencyReads(l: DependencyLine)
    requires DependencyLineOk(l)
    ensures EdgeOf(WriteDependency(l)) == if l.DependsOn? then Some(Edge(l.unit, l.on)) else None
  {
    hide IsSpace, TrimSpace, Contains, SplitEdge, Trimmed;
    match l
    case DependsOn(bullet, arrow, unit, on) =>
      var s := Sentence(arrow, unit, on);
      SentenceTrimmed(arrow, unit, on);
      SentenceSplits(arrow, unit, on);
      var line := WriteDependency(l);
      TrimSpaceSame(s);
      if bullet {
        TrimSpaceSame(line);
        assert line == "- " + s && line[0] == '-';
        assert TrimPrefix(line, "-") == " " + s;
        TrimBullet(s);
      } else {
        assert line == s;
        assert s[0] == unit[0];
      }
    case Comment(text) => CommentStarts(text);
    case Empty => TrimSpaceSame("") by { NothingTrimmed(); }
  }

  lemma NothingTrimmed()
    ensures Trimmed("")
  {
  }

  lemma TrimBullet(s: string)
    requires Trimmed(s)
    ensures TrimSpace(" " + s) == s
  {
    hide IsSpace, Trimmed, TrimSpace;
    assert Blank(" ") && Blank("") by {
      SpaceIsBlank();
    }
    TrimSpaceOf(" ", s, "");
    assert " " + s + "" == " " + s;
  }

  lemma SpaceIsBlank()
    ensures Blank(" ") && Blank("")
  {
  }

  lemma CommentStarts(text: string)
    ensures HasPrefix(TrimSpace("#" + text), "#")
  {
    SharpIsNoSpace();
    hide IsSpace, TrimRight;
    var l := "#" + text;
    assert TrimLeft(l) == l;
    TrimRightFacts(l);
    KeepsFirst(l);
  }

  lemma {:induction false} KeepsFirst(l: string)
    requires l != "" && !IsSpace(l[0])
    ensures TrimRight(l) != "" && TrimRight(l)[0] == l[0]
  {
    hide IsSpace;
    if IsSpace(l[|l| - 1]) {
      assert |l| > 1;
      KeepsFirst(l[..|l| - 1]);
    }
  }

  // ----- the plan

  lemma WrittenDependencyIsOneLine(l: DependencyLine)
    requires DependencyLineOk(l)
    ensures '\n' !in WriteDependency(l)
  {
    hide IsSpace;
    if l.DependsOn? {
      SpaceInName(l.unit);
      SpaceInName(l.on);
    }
  }

  ghost predicate DistinctNames(units: seq<string>) {
    forall i, j :: 0 <= i < j < |units| ==> units[i] != units[j]
  }

  lemma BoltOfName(units: seq<string>, k: nat)
    requires DistinctNames(units) && k < |units|
    ensures BoltOf(units, units[k]) == Some(k + 1)
  {
    hide BoltOf;
    var r := BoltOf(units, units[k]);
    assert units[k] in units;
    assert units[r.value - 1] == units[k];
  }

  lemma LinkOf(units: seq<string>, l: DependencyLine, k: nat, d: nat)
    requires DistinctNames(units) && DependencyLineOk(l) && k < |units| && 1 <= d <= |units| && d != k + 1
    ensures Link(units, WriteDependency(l)) == Some((k + 1, d)) <==>
              l.DependsOn? && l.unit == units[k] && l.on == units[d - 1]
  {
    hide BoltOf, EdgeOf, DependencyLineOk, WriteDependency, DistinctNames;
    DependencyReads(l);
    BoltOfName(units, k);
    BoltOfName(units, d - 1);
  }

  /** Some line of the list says that the unit depends on the other. */
  ghost predicate States(lines: seq<DependencyLine>, unit: string, on: string) {
    exists i :: 0 <= i < |lines| && lines[i].DependsOn? && lines[i].unit == unit && lines[i].on == on
  }

  lemma LinkedIsStated(units: seq<string>, lines: seq<DependencyLine>, k: nat, d: nat)
    requires DistinctNames(units) && k < |units| && 1 <= d <= |units| && d != k + 1
    requires forall i :: 0 <= i < |lines| ==> DependencyLineOk(lines[i])
    ensures Linked(units, WriteDependencies(lines), (k + 1, d)) <==> States(lines, units[k], units[d - 1])
  {
    hide Link, DependencyLineOk, WriteDependency, DistinctNames;
    var written := WriteDependencies(lines);
    if line :| line in written && Link(units, line) == Some((k + 1, d)) {
      var i :| 0 <= i < |written| && written[i] == line;
      LinkOf(units, lines[i], k, d);
    }
    if i :| 0 <= i < |lines| && lines[i].DependsOn? && lines[i].unit == units[k] && lines[i].on == units[d - 1] {
      LinkOf(units, lines[i], k, d);
      assert written[i] in written;
    }
  }

  lemma EmptyLinks(units: seq<string>, e: (nat, nat))
    ensures !Linked(units, [""], e)
  {
    hide IsSpace;
    TrimSpaceSame("");
  }

  /** The plan made from the two written artifacts: one bolt for each unit, in order, and a bolt other than
      the first depends on another exactly when some line says so of their units. */
  lemma PlanRoundTrip(unitLines: seq<UnitLine>, lines: seq<DependencyLine>, k: nat, d: nat)
    requires forall i :: 0 <= i < |unitLines| ==> UnitLineOk(unitLines[i])
    requires forall i :: 0 <= i < |lines| ==> DependencyLineOk(lines[i])
    requires DistinctNames(NamesOf(unitLines)) && 0 < k < |NamesOf(unitLines)|
    requires 1 <= d <= |NamesOf(unitLines)| && d != k + 1
    ensures var units := NamesOf(unitLines);
            var p := Plan(Join(WriteUnits(unitLines), "\n"), Join(WriteDependencies(lines), "\n"));
            && |p| == |units| && p[k].units == [units[k]]
            && (d in p[k].dependsOn <==> States(lines, units[k], units[d - 1]))
  {
    hide UnitLineOk, DependencyLineOk, WriteUnit, WriteDependency, Join, Split, Linked, Units, States, DistinctNames, Links, NamesOf;
    var units := NamesOf(unitLines);
    var work, dag := Join(WriteUnits(unitLines), "\n"), Join(WriteDependencies(lines), "\n");
    UnitsRoundTrip(unitLines);
    PlanFollowsArtifact(work, dag, k, d);
    LinkedIsStated(units, lines, k, d);
    if lines == [] {
      JoinOfNone();
      NothingStated(units[k], units[d - 1]);
    } else {
      forall i | 0 <= i < |lines|
        ensures '\n' !in WriteDependencies(lines)[i]
      {
        WrittenDependencyIsOneLine(lines[i]);
      }
      SplitJoin(WriteDependencies(lines));
      if dag == "" {
        SplitOfNone();
        EmptyLinks(units, (k + 1, d));
      }
    }
  }

  lemma NothingStated(unit: string, on: string)
    ensures !States([], unit, on)
  {
  }

  /** Without a bullet, a name that begins with a dash loses it, and one that begins with a number sign makes
      the line a comment. */
  lemma BareNamesAreMisread()
    ensures EdgeOf("-a -> b") == Some(Edge("a", "b")) && EdgeOf("#a -> b") == None
  {
    hide IsSpace, TrimSpace, Contains, SplitEdge;
    NameFacts();
    SharpIsNoSpace();
    assert Sentence(true, "a", "b") == "a -> b";
    SentenceTrimmed(true, "a", "b");
    SentenceSplits(true, "a", "b");
    TrimSpaceSame("-a -> b");
    assert TrimPrefix("-a -> b", "-") == "a -> b";
    TrimSpaceSame("a -> b");
    CommentStarts("a -> b");
    assert "#" + "a -> b" == "#a -> b";
  }

  lemma NameFacts()
    ensures IsName("a") && IsName("b")
  {
  }
}
