/** Stage definitions and the feature_stages table of one feature.

    The table is a sequence in the order in which it is always read: by the
    sort order of the stage definitions, then by bolt number.  A definition
    list is itself in sort order. */
module StageTable {
  import opened Basics

  /** "3.5" is StageId(3, 5). */
  datatype StageId = StageId(major: nat, minor: nat)

  datatype Phase = Initialization | Ideation | Inception | Construction | Operation

  /** "failed" is not one of the six checkbox states, but a dispatch error writes it. */
  datatype Status = NotStarted | InProgress | AwaitingApproval | Revising | Completed | Skipped | Failed

  datatype StageDef = StageDef(id: StageId, phase: Phase, scopes: seq<string>, hasReviewer: bool)

  datatype Row = Row(stage: StageId, bolt: nat, status: Status, revisions: nat)

  /** Stages 3.1-3.5 have one row for each bolt. */
  predicate IsPerBolt(id: StageId) {
    id.major == 3 && 1 <= id.minor <= 5
  }

  predicate InScope(d: StageDef, scope: string) {
    scope in d.scopes
  }

  /** Stage skipping also honours the scope "all"; the other scope tests do not. */
  predicate OutOfScope(d: StageDef, scope: string) {
    scope !in d.scopes && "all" !in d.scopes
  }

  // ----- definitions

  ghost predicate DistinctIds(defs: seq<StageDef>) {
    forall i, j :: 0 <= i < j < |defs| ==> defs[i].id != defs[j].id
  }

  /** Position of a stage in the sort order, |defs| when it is not defined. */
  function Pos(defs: seq<StageDef>, id: StageId): (p: nat)
    ensures p <= |defs|
    ensures p < |defs| ==> defs[p].id == id
    ensures forall i :: 0 <= i < p ==> defs[i].id != id
  {
    if defs == [] || defs[0].id == id then 0 else 1 + Pos(defs[1..], id)
  }

  lemma PosOf(defs: seq<StageDef>, i: nat)
    requires DistinctIds(defs) && i < |defs|
    ensures Pos(defs, defs[i].id) == i
  {
  }

  /** The stages k.. that execute for a scope, in sort order. */
  function Scoped(defs: seq<StageDef>, scope: string, k: nat := 0): (r: seq<StageDef>)
    requires k <= |defs|
    ensures forall d :: d in r ==> d in defs && InScope(d, scope)
    ensures forall i :: k <= i < |defs| && InScope(defs[i], scope) ==> defs[i] in r
    decreases |defs| - k
  {
    if k == |defs| then []
    else (if InScope(defs[k], scope) then [defs[k]] else []) + Scoped(defs, scope, k + 1)
  }

  lemma ScopedFrom(defs: seq<StageDef>, scope: string, k: nat)
    requires k < |defs|
    ensures Scoped(defs, scope, k) == (if InScope(defs[k], scope) then [defs[k]] else []) + Scoped(defs, scope, k + 1)
  {
    hide InScope;
  }

  lemma ScopedEnds(defs: seq<StageDef>, scope: string)
    ensures Scoped(defs, scope, |defs|) == []
  {
  }

  lemma {:induction false} ScopedIsLater(defs: seq<StageDef>, scope: string, k: nat)
    requires DistinctIds(defs) && k <= |defs|
    ensures forall d :: d in Scoped(defs, scope, k) ==> k <= Pos(defs, d.id) < |defs|
    decreases |defs| - k
  {
    if k < |defs| {
      ScopedIsLater(defs, scope, k + 1);
      PosOf(defs, k);
    }
  }

  ghost predicate InOrder(defs: seq<StageDef>, r: seq<StageDef>) {
    forall i, j :: 0 <= i < j < |r| ==> Pos(defs, r[i].id) < Pos(defs, r[j].id)
  }

  lemma {:induction false} ScopedKeepsOrder(defs: seq<StageDef>, scope: string, k: nat)
    requires DistinctIds(defs) && k <= |defs|
    ensures InOrder(defs, Scoped(defs, scope, k))
    decreases |defs| - k
  {
    hide Pos, InScope, DistinctIds, InOrder;
    if k == |defs| {
      NoneInOrder(defs);
    } else {
      var q := Scoped(defs, scope, k + 1);
      ScopedKeepsOrder(defs, scope, k + 1);
      ScopedIsLater(defs, scope, k + 1);
      PosOf(defs, k);
      if InScope(defs[k], scope) {
        InOrderCons(defs, defs[k], q);
      } else {
        assert [] + q == q;
      }
    }
  }

  lemma NoneInOrder(defs: seq<StageDef>)
    ensures InOrder(defs, [])
  {
  }

  lemma InOrderCons(defs: seq<StageDef>, d: StageDef, q: seq<StageDef>)
    requires InOrder(defs, q) && forall e :: e in q ==> Pos(defs, d.id) < Pos(defs, e.id)
    ensures InOrder(defs, [d] + q)
  {
    hide Pos;
  }

  // ----- rows

  /** The reading order of the table. */
  predicate Before(defs: seq<StageDef>, a: Row, b: Row) {
    Pos(defs, a.stage) < Pos(defs, b.stage) || (a.stage == b.stage && a.bolt < b.bolt)
  }

  ghost predicate Sorted(defs: seq<StageDef>, rows: seq<Row>) {
    forall i, j :: 0 <= i < j < |rows| ==> Before(defs, rows[i], rows[j])
  }

  /** Every row has a definition, and carries a bolt number exactly when its stage runs per bolt. */
  ghost predicate WellKeyed(defs: seq<StageDef>, rows: seq<Row>) {
    forall r :: r in rows ==> Pos(defs, r.stage) < |defs| && (r.bolt > 0 <==> IsPerBolt(r.stage))
  }

  ghost predicate ValidTable(defs: seq<StageDef>, rows: seq<Row>) {
    DistinctIds(defs) && Sorted(defs, rows) && WellKeyed(defs, rows)
  }

  predicate Matches(r: Row, id: StageId, bolt: nat) {
    r.stage == id && r.bolt == bolt
  }

  /** Index of the row with the given key, |rows| when there is none. */
  function Find(rows: seq<Row>, id: StageId, bolt: nat): (p: nat)
    ensures p <= |rows|
    ensures p < |rows| ==> Matches(rows[p], id, bolt)
    ensures forall i :: 0 <= i < p ==> !Matches(rows[i], id, bolt)
  {
    if rows == [] || Matches(rows[0], id, bolt) then 0 else 1 + Find(rows[1..], id, bolt)
  }

  lemma FindOf(defs: seq<StageDef>, rows: seq<Row>, i: nat)
    requires Sorted(defs, rows) && i < |rows|
    ensures Find(rows, rows[i].stage, rows[i].bolt) == i
  {
    assert forall j :: 0 <= j < i ==> Before(defs, rows[j], rows[i]);
  }

  /** UPDATE feature_stages SET status, revision_count WHERE stage_id AND bolt_number. */
  function SetRow(rows: seq<Row>, id: StageId, bolt: nat, status: Status, revisions: nat): (r: seq<Row>)
    ensures |r| == |rows|
    ensures forall i :: 0 <= i < |r| ==>
              r[i] == if Matches(rows[i], id, bolt) then Row(id, bolt, status, revisions) else rows[i]
  {
    seq(|rows|, i requires 0 <= i < |rows| =>
      if Matches(rows[i], id, bolt) then Row(id, bolt, status, revisions) else rows[i])
  }

  /** First index whose row comes after r. */
  function Slot(defs: seq<StageDef>, rows: seq<Row>, r: Row): (p: nat)
    ensures p <= |rows|
    ensures p < |rows| ==> Before(defs, r, rows[p])
    ensures forall i :: 0 <= i < p ==> !Before(defs, r, rows[i])
  {
    if rows == [] || Before(defs, r, rows[0]) then 0 else 1 + Slot(defs, rows[1..], r)
  }

  /** INSERT ... 'not_started' ... ON CONFLICT DO NOTHING. */
  function InsertRow(defs: seq<StageDef>, rows: seq<Row>, id: StageId, bolt: nat): seq<Row> {
    if Find(rows, id, bolt) < |rows| then rows
    else
      var r := Row(id, bolt, NotStarted, 0);
      var p := Slot(defs, rows, r);
      rows[..p] + [r] + rows[p..]
  }

  lemma BeforeIsTotal(defs: seq<StageDef>, a: Row, b: Row)
    requires Pos(defs, a.stage) < |defs| && Pos(defs, b.stage) < |defs|
    requires !Matches(a, b.stage, b.bolt)
    ensures Before(defs, a, b) || Before(defs, b, a)
  {
    if Pos(defs, a.stage) == Pos(defs, b.stage) {
      assert defs[Pos(defs, a.stage)].id == a.stage;
      assert defs[Pos(defs, b.stage)].id == b.stage;
    }
  }

  lemma BeforeIsTransitive(defs: seq<StageDef>, a: Row, b: Row, c: Row)
    requires Before(defs, a, b) && Before(defs, b, c)
    ensures Before(defs, a, c)
  {
  }

  lemma SortedSplice(defs: seq<StageDef>, rows: seq<Row>, p: nat, r: Row)
    requires Sorted(defs, rows) && p <= |rows|
    requires forall i :: 0 <= i < p ==> Before(defs, rows[i], r)
    requires forall i :: p <= i < |rows| ==> Before(defs, r, rows[i])
    ensures Sorted(defs, rows[..p] + [r] + rows[p..])
  {
    var t := rows[..p] + [r] + rows[p..];
    assert forall i :: 0 <= i < |t| ==> t[i] == if i < p then rows[i] else if i == p then r else rows[i - 1];
  }

  lemma InsertKeepsTable(defs: seq<StageDef>, rows: seq<Row>, id: StageId, bolt: nat)
    requires ValidTable(defs, rows) && Pos(defs, id) < |defs| && (bolt > 0 <==> IsPerBolt(id))
    ensures ValidTable(defs, InsertRow(defs, rows, id, bolt))
  {
    if Find(rows, id, bolt) == |rows| {
      var r := Row(id, bolt, NotStarted, 0);
      var p := Slot(defs, rows, r);
      forall i | 0 <= i < p
        ensures Before(defs, rows[i], r)
      {
        assert rows[i] in rows && !Matches(rows[i], id, bolt);
        BeforeIsTotal(defs, rows[i], r);
      }
      forall i | p <= i < |rows|
        ensures Before(defs, r, rows[i])
      {
        if i > p {
          BeforeIsTransitive(defs, r, rows[p], rows[i]);
        }
      }
      SortedSplice(defs, rows, p, r);
    }
  }

  /** The rows created for one bolt: the in-scope stages 3.1-3.5, definitions n.. onwards. */
  function InitBolt(defs: seq<StageDef>, rows: seq<Row>, bolt: nat, stages: seq<StageDef>): seq<Row>
    decreases |stages|
  {
    if stages == [] then rows
    else if IsPerBolt(stages[0].id)
    then InitBolt(defs, InsertRow(defs, rows, stages[0].id, bolt), bolt, stages[1..])
    else InitBolt(defs, rows, bolt, stages[1..])
  }

  /** The rows created when a feature starts: the in-scope stages that run once. */
  function InitLinear(defs: seq<StageDef>, rows: seq<Row>, stages: seq<StageDef>): seq<Row>
    decreases |stages|
  {
    if stages == [] then rows
    else if IsPerBolt(stages[0].id) then InitLinear(defs, rows, stages[1..])
    else InitLinear(defs, InsertRow(defs, rows, stages[0].id, 0), stages[1..])
  }
}
