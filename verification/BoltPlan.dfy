/** The construction bolts of a feature, planned from the two artifacts of stage 2.7:
    the units of work and the dependency list between them. */
module BoltPlan {
  import opened Basics
  import opened Text

  datatype BoltStatus = Pending | Running | Done | Broken

  datatype Bolt = Bolt(number: nat, units: seq<string>, dependsOn: seq<nat>, status: BoltStatus, skeleton: bool)

  // ----- units of work

  /** The identifier in a "## Unit" or "### Unit" heading. */
  function UnitOf(rawLine: string): Option<string> {
    var line := TrimSpace(rawLine);
    if HasPrefix(line, "## Unit ") || HasPrefix(line, "### Unit ") then
      var parts := SplitN(line, ' ', 4);
      if |parts| >= 3 then Some(parts[2]) else None
    else None
  }

  function UnitsFrom(lines: seq<string>): seq<string> {
    if lines == [] then []
    else
      var last := UnitOf(lines[|lines| - 1]);
      UnitsFrom(lines[..|lines| - 1]) + if last.Some? then [last.value] else []
  }

  function Units(content: string): seq<string> {
    if content == "" then [] else UnitsFrom(Split(content, '\n'))
  }

  /** The bolt a unit names: one more than its last position, as in a map filled in order. */
  function BoltOf(units: seq<string>, u: string): (r: Option<nat>)
    ensures r.Some? <==> u in units
    ensures r.Some? ==> 1 <= r.value <= |units| && units[r.value - 1] == u && u !in units[r.value..]
  {
    if units == [] then None
    else if units[|units| - 1] == u then Some(|units|)
    else
      assert units == units[..|units| - 1] + [units[|units| - 1]];
      BoltOf(units[..|units| - 1], u)
  }

  // ----- dependencies

  const DEPENDS := " depends on "
  const ARROW := " -> "

  datatype Edge = Edge(dependent: string, dependency: string)

  /** "- a depends on b" or "a -> b". */
  function EdgeOf(rawLine: string): Option<Edge> {
    var line := TrimSpace(rawLine);
    if line == "" || HasPrefix(line, "#") then None
    else
      var body := TrimSpace(TrimPrefix(line, "-"));
      if Contains(body, DEPENDS) then SplitEdge(body, DEPENDS)
      else if Contains(body, ARROW) then SplitEdge(body, ARROW)
      else None
  }

  function SplitEdge(body: string, sep: string): Option<Edge>
    requires sep != "" && Contains(body, sep)
  {
    var p := Index(body, sep);
    Some(Edge(TrimSpace(body[..p]), TrimSpace(body[p + |sep|..])))
  }

  /** The bolts an edge relates, dependent first; no self dependencies. */
  function Link(units: seq<string>, rawLine: string): (r: Option<(nat, nat)>)
    ensures r.Some? ==> 1 <= r.value.0 <= |units| && 1 <= r.value.1 <= |units| && r.value.0 != r.value.1
  {
    match EdgeOf(rawLine)
    case None => None
    case Some(e) =>
      var a, b := BoltOf(units, e.dependent), BoltOf(units, e.dependency);
      if a.None? || b.None? || a.value == b.value then None else Some((a.value, b.value))
  }

  function Links(units: seq<string>, lines: seq<string>): (r: seq<Option<(nat, nat)>>)
    ensures |r| == |lines| && forall i :: 0 <= i < |r| ==> r[i] == Link(units, lines[i])
  {
    seq(|lines|, i requires 0 <= i < |lines| => Link(units, lines[i]))
  }

  lemma LinkedBySomeLine(units: seq<string>, lines: seq<string>, e: (nat, nat))
    ensures Some(e) in Links(units, lines) <==> Linked(units, lines, e)
  {
    var links := Links(units, lines);
    if Some(e) in links {
      var i :| 0 <= i < |links| && links[i] == Some(e);
      assert lines[i] in lines;
    }
    if line :| line in lines && Link(units, line) == Some(e) {
      var i :| 0 <= i < |lines| && lines[i] == line;
      assert links[i] == Some(e);
    }
  }

  /** What the links make bolt b depend on, in order. */
  function DepsFrom(links: seq<Option<(nat, nat)>>, b: nat): (r: seq<nat>)
    ensures forall d :: d in r <==> Some((b, d)) in links
  {
    if links == [] then []
    else
      var n := |links| - 1;
      assert links == links[..n] + [links[n]];
      DepsFrom(links[..n], b) + if links[n].Some? && links[n].value.0 == b then [links[n].value.1] else []
  }

  // ----- the plan

  /** Every link relates two different bolts among the first n. */
  ghost predicate WithinPlan(links: seq<Option<(nat, nat)>>, n: nat) {
    forall a, b :: Some((a, b)) in links ==> 1 <= a <= n && 1 <= b <= n && a != b
  }

  /** One bolt for each unit, the first of them the skeleton, which depends on nothing. */
  function PlanOf(units: seq<string>, links: seq<Option<(nat, nat)>>): seq<Bolt> {
    seq(|units|, i requires 0 <= i < |units| =>
      Bolt(i + 1, [units[i]], if i == 0 then [] else DepsFrom(links, i + 1), Pending, i == 0))
  }

  /** Bolts are numbered in order from 1. */
  ghost predicate Numbered(bolts: seq<Bolt>) {
    forall i :: 0 <= i < |bolts| ==> bolts[i].number == i + 1
  }

  /** No bolt depends on itself, or on a bolt that is not there. */
  ghost predicate ClosedPlan(bolts: seq<Bolt>) {
    forall b, d :: b in bolts && d in b.dependsOn ==> d != b.number && exists c :: c in bolts && c.number == d
  }

  /** Bolts are numbered 1..n and pending; the first is the walking skeleton and depends on nothing;
      no bolt depends on itself or on a bolt that is not planned. */
  lemma PlanOfIsClosed(units: seq<string>, links: seq<Option<(nat, nat)>>)
    requires units != [] && WithinPlan(links, |units|)
    ensures var p := PlanOf(units, links);
            && p != [] && Numbered(p) && p[0].dependsOn == [] && ClosedPlan(p)
            && forall b :: b in p ==> b.status == Pending && (b.skeleton <==> b.number == 1)
  {
    var p := PlanOf(units, links);
    forall b, d | b in p && d in b.dependsOn
      ensures d != b.number && exists c :: c in p && c.number == d
    {
      assert Some((b.number, d)) in links;
      assert p[d - 1] in p && p[d - 1].number == d;
    }
  }

  lemma PlanOfFollowsLinks(units: seq<string>, links: seq<Option<(nat, nat)>>, k: nat, d: nat)
    ensures |PlanOf(units, links)| == |units|
    ensures 0 < k < |units| ==> (d in PlanOf(units, links)[k].dependsOn <==> Some((k + 1, d)) in links)
  {
  }

  function PlanUnits(unitOfWork: string): (r: seq<string>)
    ensures r != []
  {
    if Units(unitOfWork) == [] then ["unit-1"] else Units(unitOfWork)
  }

  function PlanLinks(unitOfWork: string, dag: string): (r: seq<Option<(nat, nat)>>)
    ensures WithinPlan(r, |PlanUnits(unitOfWork)|)
  {
    if dag == "" || Units(unitOfWork) == [] then [] else Links(Units(unitOfWork), Split(dag, '\n'))
  }

  function Plan(unitOfWork: string, dag: string): seq<Bolt> {
    PlanOf(PlanUnits(unitOfWork), PlanLinks(unitOfWork, dag))
  }

  lemma PlanLinksAre(unitOfWork: string, dag: string, k: nat)
    requires 0 < k < |PlanUnits(unitOfWork)|
    ensures PlanLinks(unitOfWork, dag) == if dag == "" then [] else Links(Units(unitOfWork), Split(dag, '\n'))
  {
    hide Units, Split, Links;
  }

  /** Whatever the two artifacts hold, the planned bolts are closed. */
  lemma PlanIsClosed(unitOfWork: string, dag: string)
    ensures var p := Plan(unitOfWork, dag);
            && p != [] && Numbered(p) && p[0].dependsOn == [] && ClosedPlan(p)
            && forall b :: b in p ==> b.status == Pending && (b.skeleton <==> b.number == 1)
  {
    hide PlanOf, PlanUnits, PlanLinks;
    PlanOfIsClosed(PlanUnits(unitOfWork), PlanLinks(unitOfWork, dag));
  }

  /** Some line of the dependency list relates the two bolts. */
  ghost predicate Linked(units: seq<string>, lines: seq<string>, e: (nat, nat)) {
    exists line :: line in lines && Link(units, line) == Some(e)
  }

  /** A bolt other than the skeleton depends on exactly the bolts that some line of the
      dependency list relates it to. */
  lemma PlanFollowsArtifact(unitOfWork: string, dag: string, k: nat, d: nat)
    requires 0 < k < |Plan(unitOfWork, dag)|
    ensures d in Plan(unitOfWork, dag)[k].dependsOn <==>
              dag != "" && Linked(Units(unitOfWork), Split(dag, '\n'), (k + 1, d))
  {
    hide Units, Split, Linked, Links, PlanOf, PlanUnits, PlanLinks;
    PlanOfFollowsLinks(PlanUnits(unitOfWork), PlanLinks(unitOfWork, dag), k, d);
    PlanLinksAre(unitOfWork, dag, k);
    if dag != "" {
      LinkedBySomeLine(Units(unitOfWork), Split(dag, '\n'), (k + 1, d));
    }
  }

  /** Without units of work there is one bolt, for a unit called unit-1, and nothing to depend on. */
  lemma NoUnitsOneBolt(unitOfWork: string, dag: string)
    requires Units(unitOfWork) == []
    ensures Plan(unitOfWork, dag) == [Bolt(1, ["unit-1"], [], Pending, true)]
  {
    hide Units;
  }
}
