/** Further properties of the pipeline that span several operations. */
module PipelineTheorems {
  import opened Basics
  import opened StageTable
  import opened BoltPlan
  import opened PipelineModel
  import opened PipelineEffects
  import opened PipelineTermination
  import opened PipelineSafety

  // ----- a new feature

  /** The state after InitFeatureStages. */
  function NewFeature(defs: seq<StageDef>, scope: string, mode: Mode): State {
    State(defs, InitLinear(defs, [], Scoped(defs, Effective(scope))), [], [], map[], scope, mode, false, None, 0,
          Watch(true, true))
  }

  /** Fresh rows of in-scope linear stages only. */
  ghost predicate FreshRows(s: State, rows: seq<Row>) {
    forall r :: r in rows ==> r.status == NotStarted && Linear(r) && InScopeStage(s, r.stage)
  }

  lemma InsertIsFresh(s: State, rows: seq<Row>, id: StageId)
    requires FreshRows(s, rows) && InScopeStage(s, id) && !IsPerBolt(id)
    ensures FreshRows(s, InsertRow(s.defs, rows, id, 0))
    ensures Find(InsertRow(s.defs, rows, id, 0), id, 0) < |InsertRow(s.defs, rows, id, 0)|
    ensures forall x :: Find(rows, x, 0) < |rows| ==>
              Find(InsertRow(s.defs, rows, id, 0), x, 0) < |InsertRow(s.defs, rows, id, 0)|
  {
    hide InScopeStage, InsertRow, Find, FreshRows;
    var t := InsertRow(s.defs, rows, id, 0);
    InsertedMembers(s.defs, rows, id);
    FreshMore(s, rows, t, id);
    if Find(rows, id, 0) == |rows| {
      FindIn(t, id, 0);
    }
    forall x | Find(rows, x, 0) < |rows|
      ensures Find(t, x, 0) < |t|
    {
      assert rows[Find(rows, x, 0)] in t;
      FindIn(t, x, 0);
    }
  }

  lemma InsertedMembers(defs: seq<StageDef>, rows: seq<Row>, id: StageId)
    ensures var t := InsertRow(defs, rows, id, 0);
            && (forall r :: r in rows ==> r in t)
            && (forall r :: r in t ==> r in rows || r == Row(id, 0, NotStarted, 0))
            && (if Find(rows, id, 0) == |rows| then Row(id, 0, NotStarted, 0) in t else t == rows)
  {
    hide Find, Slot;
    var t := InsertRow(defs, rows, id, 0);
    if Find(rows, id, 0) == |rows| {
      var r := Row(id, 0, NotStarted, 0);
      var p := Slot(defs, rows, r);
      assert t[p] == r;
      forall x | x in rows
        ensures x in t
      {
        var i :| 0 <= i < |rows| && rows[i] == x;
        assert t[if i < p then i else i + 1] == x;
      }
    }
  }

  lemma FreshMore(s: State, rows: seq<Row>, t: seq<Row>, id: StageId)
    requires FreshRows(s, rows) && InScopeStage(s, id) && !IsPerBolt(id)
    requires forall r :: r in t ==> r in rows || r == Row(id, 0, NotStarted, 0)
    ensures FreshRows(s, t)
  {
    hide InScopeStage;
  }

  lemma {:induction false} InitLinearRows(s: State, rows: seq<Row>, stages: seq<StageDef>)
    requires ValidTable(s.defs, rows) && FreshRows(s, rows)
    requires forall d :: d in stages ==> Pos(s.defs, d.id) < |s.defs| && InScopeStage(s, d.id)
    ensures var t := InitLinear(s.defs, rows, stages);
            && ValidTable(s.defs, t) && FreshRows(s, t)
            && (forall d :: d in stages && !IsPerBolt(d.id) ==> Find(t, d.id, 0) < |t|)
            && (forall x :: Find(rows, x, 0) < |rows| ==> Find(t, x, 0) < |t|)
    decreases |stages|
  {
    hide ValidTable, FreshRows, InScopeStage, InsertRow, Find;
    if stages != [] {
      var id := stages[0].id;
      assert stages[0] in stages;
      if IsPerBolt(id) {
        InitLinearRows(s, rows, stages[1..]);
      } else {
        InsertIsFresh(s, rows, id);
        InsertKeepsTable(s.defs, rows, id, 0);
        InitLinearRows(s, InsertRow(s.defs, rows, id, 0), stages[1..]);
      }
    }
  }

  lemma ScopedInScope(s: State)
    requires DistinctIds(s.defs)
    ensures forall d :: d in Scoped(s.defs, Effective(s.scope)) ==> Pos(s.defs, d.id) < |s.defs| && InScopeStage(s, d.id)
  {
    hide Effective;
    forall d | d in Scoped(s.defs, Effective(s.scope))
      ensures Pos(s.defs, d.id) < |s.defs| && InScopeStage(s, d.id)
    {
      var p :| 0 <= p < |s.defs| && s.defs[p] == d;
      PosOf(s.defs, p);
    }
  }

  lemma EmptyTable(s: State)
    requires DistinctIds(s.defs)
    ensures ValidTable(s.defs, []) && FreshRows(s, [])
  {
  }

  lemma FreshIsSafe(s: State)
    requires ValidTable(s.defs, s.rows) && FreshRows(s, s.rows) && s.bolts == [] && s.audit == [] && s.watch == Watch(true, true)
    ensures Inv(s)
    ensures forall r :: r in s.rows ==> r.status == NotStarted && r.bolt == 0 && InScopeStage(s, r.stage)
  {
    hide InScopeStage;
    forall r | r in s.rows
      ensures r.bolt == 0
    {
      var i :| 0 <= i < |s.rows| && s.rows[i] == r;
      LinearHasNoBolt(s, i);
    }
    assert forall i :: 0 <= i < |s.rows| ==> s.rows[i] in s.rows;
  }

  /** A new feature satisfies the invariants, and has exactly one row, not started, for each stage
      in scope that runs once. */
  lemma NewFeatureIsSafe(defs: seq<StageDef>, scope: string, mode: Mode)
    requires DistinctIds(defs)
    ensures var s := NewFeature(defs, scope, mode);
            && Inv(s)
            && (forall d :: d in defs && InScope(d, Effective(scope)) && !IsPerBolt(d.id) ==> Find(s.rows, d.id, 0) < |s.rows|)
            && (forall r :: r in s.rows ==> r.status == NotStarted && r.bolt == 0 && InScopeStage(s, r.stage))
  {
    hide Find, InScopeStage, InitLinear, Effective, Inv, ValidTable, FreshRows;
    var s := NewFeature(defs, scope, mode);
    ScopedInScope(s);
    EmptyTable(s);
    InitLinearRows(s, [], Scoped(defs, Effective(scope)));
    FreshIsSafe(s);
    forall d | d in defs && InScope(d, Effective(scope))
      ensures d in Scoped(defs, Effective(scope))
    {
      var i :| 0 <= i < |defs| && defs[i] == d;
    }
  }

  // ----- the shape, read off the linear rows

  function LinearRows(rows: seq<Row>): (r: seq<Row>)
  {
    if rows == [] then []
    else LinearRows(rows[..|rows| - 1]) + if Linear(rows[|rows| - 1]) then [rows[|rows| - 1]] else []
  }

  /** Passed rows, then at most one row of any status, then rows not started. */
  ghost predicate Reads(r: seq<Row>, k: nat) {
    && k <= |r|
    && (forall i :: 0 <= i < k ==> Passed(r[i].status))
    && (forall i :: k < i < |r| ==> r[i].status == NotStarted)
  }

  lemma {:induction false} ShapeReads(rows: seq<Row>) returns (k: nat)
    requires Shape(rows)
    ensures Reads(LinearRows(rows), k)
  {
    if rows == [] {
      k := 0;
    } else {
      var n := |rows| - 1;
      var front, last := rows[..n], rows[n];
      var r := LinearRows(front);
      k := ShapeReads(front);
      if Linear(last) && last.status != NotStarted {
        AllPassed(rows, n);
        k := |r|;
      }
    }
  }

  lemma {:induction false} LinearRowsAreRows(rows: seq<Row>)
    ensures forall x :: x in LinearRows(rows) <==> x in rows && Linear(x)
  {
    if rows != [] {
      LinearRowsAreRows(rows[..|rows| - 1]);
      assert rows == rows[..|rows| - 1] + [rows[|rows| - 1]];
    }
  }

  lemma AllPassed(rows: seq<Row>, n: nat)
    requires Shape(rows) && n < |rows| && Linear(rows[n]) && rows[n].status != NotStarted
    ensures forall i :: 0 <= i < |LinearRows(rows[..n])| ==> Passed(LinearRows(rows[..n])[i].status)
  {
    var r := LinearRows(rows[..n]);
    LinearRowsAreRows(rows[..n]);
    forall i | 0 <= i < |r|
      ensures Passed(r[i].status)
    {
      assert r[i] in r;
      var j :| 0 <= j < n && rows[..n][j] == r[i];
    }
  }

  /** The rows of every reachable state, linear stages only, read (passed)* (any)? (not started)*. */
  lemma EveryRunReads(defs: seq<StageDef>, scope: string, mode: Mode, ops: seq<Op>) returns (k: nat)
    requires DistinctIds(defs) && Legal(NewFeature(defs, scope, mode), ops)
    ensures Reads(LinearRows(Run(NewFeature(defs, scope, mode), ops).rows), k)
  {
    hide Legal, Run, NewFeature;
    NewFeatureIsSafe(defs, scope, mode);
    EveryRunIsSafe(NewFeature(defs, scope, mode), ops);
    k := ShapeReads(Run(NewFeature(defs, scope, mode), ops).rows);
  }

  // ----- merging

  /** A merge is attempted only when 3.7 is completed, no row is active and none was attempted
      before; and once 3.7 is completed the loop starts a linear stage that has not started only
      when the attempt is on record. */
  lemma MergeDiscipline(s: State, w: World)
    requires Valid(s)
    ensures var t := TakeTurn(s, w).state;
            !MergeRecorded(s.audit) && MergeRecorded(t.audit) ==>
              && StageDone(s.rows, LAST_OF_CONSTRUCTION)
              && NoRow(s.rows, InProgress) && NoRow(s.rows, AwaitingApproval) && NoRow(s.rows, Revising)
    ensures (Decide(s).action.ActRunStage? && NoRow(s.rows, Revising) && StageDone(s.rows, LAST_OF_CONSTRUCTION))
            ==> MergeRecorded(s.audit)
  {
    hide NextStage, Approve, RunBolt, RunStage, ProcessStageResult, PrepareBolts, StageDone, FirstToRun, Valid;
    if !w.cancelled && !MergeRecorded(s.audit) && MergeRecorded(TakeTurn(s, w).state.audit) {
      if !Decide(s).action.ActMerge? {
        OtherTurnsAreQuiet(s, w);
        QuietKeepsMerge(s.audit, TakeTurn(s, w).state.audit);
      }
    }
  }

  lemma DecideIsQuiet(s: State)
    requires Valid(s)
    ensures Quiet(s.audit, Decide(s).state.audit) && Valid(Decide(s).state)
  {
    hide NextStage, StageDone, FirstToRun, MergeRecorded, FirstWith, Valid;
    ScanEffect(s, s.rows, 0);
  }

  lemma RunBoltIsQuiet(s: State, b: nat, agent: StageId -> AgentRun)
    requires Valid(s) && b > 0
    ensures Quiet(s.audit, RunBolt(s, b, agent).state.audit)
  {
    hide Find, BoltStages, Scoped, Effective, BoltOutcome, Valid, StartBolt;
    if BoltAt(s.bolts, b) < |s.bolts| {
      StartIsValid(s, b);
      BoltStagesEffect(StartBolt(s, b), b, 1, agent, []);
      OutcomeFrame(StartBolt(s, b), RunBolt(s, b, agent), b, 1);
      QuietIsTransitive(s.audit, StartBolt(s, b).audit, RunBolt(s, b, agent).state.audit);
    }
  }

  lemma OtherTurnsAreQuiet(s: State, w: World)
    requires Valid(s) && !w.cancelled && !Decide(s).action.ActMerge?
    ensures Quiet(s.audit, TakeTurn(s, w).state.audit)
  {
    hide Decide, Approve, RunBolt, RunStage, ProcessStageResult, Valid, Plan, Frame, OnlyRow, GateMatches, Find, BoltFor;
    var d := Decide(s);
    var t := TakeTurn(s, w).state;
    DecideIsQuiet(s);
    DecideKeepsValid(s);
    match d.action
    case ActAutoApprove(id, bolt) => ApproveEffect(d.state, id, bolt, w.authOk);
    case ActRunBolt(b) => RunBoltIsQuiet(d.state, b, w.agent);
    case ActRunStage(id) =>
      var r := RunStage(d.state, id, w.agent(id));
      RunStageEffect(d.state, id, w.agent(id));
      if r.StageRan? {
        ProcessEffect(r.state, id, r.result);
      }
    case _ =>
  }

  // ----- human mode

  /** Rows completed now that were not before belong to the initialization phase. */
  ghost predicate OnlyInitCompleted(s: State, t: State) {
    forall id, b :: CompletedAt(t.rows, id, b) && !IsInitStage(s.defs, id) ==> CompletedAt(s.rows, id, b)
  }

  ghost predicate NoneCompleted(a: seq<Row>, c: seq<Row>) {
    SameKeys(a, c) && forall i :: 0 <= i < |a| && c[i].status == Completed ==> a[i].status == Completed
  }

  lemma RunStageCompletesNothing(s: State, id: StageId, run: AgentRun)
    requires Valid(s)
    ensures NoneCompleted(s.rows, RunStage(s, id, run).state.rows)
  {
    hide RunStage, Find, GateMatches, Valid;
    var t := RunStage(s, id, run).state;
    RunStageEffect(s, id, run);
    forall i | 0 <= i < |s.rows| && t.rows[i].status == Completed
      ensures s.rows[i].status == Completed
    {
      KeyIsUnique(s, i, id, BoltFor(s, id));
    }
  }

  lemma {:induction false} HumanBoltCompletesNothing(s: State, b: nat, m: nat, agent: StageId -> AgentRun, results: seq<StageResult>)
    requires Valid(s) && 1 <= m <= 6 && !AutoMode(s.mode) && s.currentBolt == b
    ensures NoneCompleted(s.rows, BoltStages(s, b, m, agent, results).state.rows)
    decreases 6 - m
  {
    hide RunStage, Approve, SkipsInBolt, BoltFrame, Valid, NoneCompleted, Frame, BoltStep;
    NoneCompletedIsReflexive(s.rows);
    if m < 6 {
      var id := StageId(3, m);
      if SkipsInBolt(s, id, b) {
        HumanBoltCompletesNothing(s, b, m + 1, agent, results);
      } else {
        var run := RunStage(s, id, agent(id));
        RunStageCompletesNothing(s, id, agent(id));
        RunInBolt(s, b, m, agent(id));
        FrameFacts(s, run.state, b, id);
      }
    }
  }

  lemma NoneCompletedIsReflexive(a: seq<Row>)
    ensures NoneCompleted(a, a)
  {
  }

  lemma NoneCompletedAt(s: State, t: State)
    requires NoneCompleted(s.rows, t.rows)
    ensures OnlyInitCompleted(s, t)
  {
    forall id, b | CompletedAt(t.rows, id, b)
      ensures CompletedAt(s.rows, id, b)
    {
      var i :| 0 <= i < |t.rows| && Matches(t.rows[i], id, b) && t.rows[i].status == Completed;
      assert Matches(s.rows[i], id, b);
    }
  }

  lemma GrownNoneCompleted(s: State, s0: State, t: State, b: nat, stages: seq<StageDef>)
    requires Grown(s.rows, s0.rows, b, stages) && NoneCompleted(s0.rows, t.rows)
    ensures OnlyInitCompleted(s, t)
  {
    forall id, b | CompletedAt(t.rows, id, b)
      ensures CompletedAt(s.rows, id, b)
    {
      var i :| 0 <= i < |t.rows| && Matches(t.rows[i], id, b) && t.rows[i].status == Completed;
      assert s0.rows[i] in s0.rows && s0.rows[i] in s.rows;
    }
  }

  lemma HumanRunBolt(s: State, b: nat, agent: StageId -> AgentRun)
    requires Valid(s) && !AutoMode(s.mode) && b > 0
    ensures OnlyInitCompleted(s, RunBolt(s, b, agent).state)
  {
    hide Find, BoltStages, Scoped, Effective, Valid, StartBolt, NoneCompleted, OnlyInitCompleted, InitBolt, Grown;
    if BoltAt(s.bolts, b) < |s.bolts| {
      var stages := Scoped(s.defs, Effective(s.scope));
      StartIsValid(s, b);
      ValidFacts(s);
      InitBoltGrows(s.defs, s.rows, b, stages);
      HumanBoltCompletesNothing(StartBolt(s, b), b, 1, agent, []);
      GrownNoneCompleted(s, StartBolt(s, b), RunBolt(s, b, agent).state, b, stages);
    } else {
      NoneCompletedIsReflexive(s.rows);
      NoneCompletedAt(s, s);
    }
  }

  lemma HumanTurn(s: State, w: World)
    requires Inv(s) && !AutoMode(s.mode)
    ensures OnlyInitCompleted(s, TakeTurn(s, w).state)
  {
    hide Inv, Decide, RunStage, ProcessStageResult, Valid, Approve, Plan, FrontierStage, Find, RunBolt, NoneCompleted, Touch;
    var d := Decide(s);
    InvFacts(s);
    NoneCompletedIsReflexive(s.rows);
    if !w.cancelled {
      DecideWritesNothing(s);
      HumanDecides(s);
      if d.action.ActRunBolt? {
        DecideBolt(s, d.action.bolt);
        HumanRunBolt(s, d.action.bolt, w.agent);
      } else if d.action.ActRunStage? {
        DecideFrontier(s);
        var id := d.action.stage;
        var p :| FrontierStage(s, id, p);
        FrontierFacts(s, id, p);
        var r := RunStage(s, id, w.agent(id));
        RunStageEffect(s, id, w.agent(id));
        RunStageCompletesNothing(s, id, w.agent(id));
        if r.StageRan? {
          HumanProcess(s, r.state, id, r.result);
        } else {
          NoneCompletedAt(s, r.state);
        }
      }
    }
  }

  lemma RestoredCompletesNothing(s: State, live: bool)
    requires Valid(s)
    ensures OnlyInitCompleted(s, Restore(s, live))
  {
    hide RestoreRows, Valid, GateFrame;
    RestoreEffect(s, s.rows, 0);
    NoneCompletedAt(s, Restore(s, live));
  }

  lemma RejectCompletesNothing(s: State, id: StageId, bolt: nat)
    ensures OnlyInitCompleted(s, Reject(s, id, bolt).state)
  {
    hide OneRunning, CompletedAt, Find;
    NoneCompletedAt(s, Reject(s, id, bolt).state);
  }

  /** In human mode only a decision to approve or to accept completes a row outside the
      initialization phase: turns of the loop, bolt runs, rejections and restarts complete none. */
  lemma HumansDecide(s: State, op: Op)
    requires Inv(s) && Allowed(s, op) && !AutoMode(s.mode)
    requires !op.ApproveRequest? && !op.AcceptRequest?
    ensures OnlyInitCompleted(s, Apply(s, op))
  {
    hide Inv, TakeTurn, RunBolt, Reject, Restore, OnlyInitCompleted;
    InvFacts(s);
    match op
    case Turn(w) => HumanTurn(s, w);
    case BoltRequest(b, agent) => HumanRunBolt(s, b, agent);
    case RejectRequest(id, b) => RejectCompletesNothing(s, id, b);
    case Restart(live) => RestoredCompletesNothing(s, live);
  }

  lemma HumanDecides(s: State)
    requires !AutoMode(s.mode)
    ensures !Decide(s).action.ActAutoApprove?
  {
    hide NextStage, FirstWith, FirstToRun, StageDone, MergeRecorded;
  }

  lemma HumanProcess(s: State, t: State, id: StageId, result: StageResult)
    requires Valid(s) && NoneCompleted(s.rows, t.rows) && Touch(s, t, id, 0) && !AutoMode(s.mode)
    requires result.bolt == 0 && result.stage == id
    requires result.gateOpen <==> result.source != SmokeFailed && result.source != ReviewerRejected
    ensures OnlyInitCompleted(s, ProcessStageResult(t, id, result).state)
  {
    hide Find, Log, ProcessStageResult, Valid;
    var u := ProcessStageResult(t, id, result).state;
    ProcessEffect(t, id, result);
    if !IsInitStage(s.defs, id) {
      HumanGate(t, id, result);
      NoneCompletedAt(s, u);
    }
  }

  lemma HumanGate(t: State, id: StageId, result: StageResult)
    requires !AutoMode(t.mode) && !IsInitStage(t.defs, id)
    requires result.gateOpen <==> result.source != SmokeFailed && result.source != ReviewerRejected
    ensures NoneCompleted(t.rows, ProcessStageResult(t, id, result).state.rows)
  {
    hide Find, OneRunning, CompletedAt;
  }

  // ----- restart

  /** After a restart that recovers the feature nothing is in progress, so in a mode that needs no
      human the loop never waits. */
  lemma RestartUnblocks(s: State)
    requires Valid(s) && !s.finished
    ensures NoRow(Restore(s, false).rows, InProgress)
    ensures AutoMode(s.mode) ==> !Decide(Restore(s, false)).action.ActWait?
  {
    hide RestoreRows, Valid, NextStage, FirstToRun, StageDone, MergeRecorded;
    RestoreEffect(s, s.rows, 0);
  }

  // ----- jumps

  ghost predicate InRange(r: Row, stages: seq<StageDef>, lo: nat, hi: nat) {
    exists k :: lo <= k < hi <= |stages| && Matches(r, stages[k].id, 0)
  }

  ghost predicate SkippedRange(a: seq<Row>, c: seq<Row>, stages: seq<StageDef>, lo: nat, hi: nat) {
    && SameKeys(a, c)
    && forall i :: 0 <= i < |a| ==> (c[i] == if InRange(a[i], stages, lo, hi) then Row(a[i].stage, 0, Skipped, 0) else a[i])
  }

  ghost predicate RangeSkipped(s: State, t: State, stages: seq<StageDef>, lo: nat, hi: nat) {
    t.defs == s.defs && t.scope == s.scope && t.bolts == s.bolts && SkippedRange(s.rows, t.rows, stages, lo, hi)
  }

  lemma {:induction false} SkipRangeEffect(s: State, stages: seq<StageDef>, lo: nat, hi: nat)
    requires hi <= |stages|
    ensures RangeSkipped(s, SkipRange(s, stages, lo, hi), stages, lo, hi)
    decreases hi - lo
  {
    hide OneRunning, CompletedAt;
    if lo < hi {
      var id := stages[lo].id;
      var w := Write(s, id, 0, Skipped, 0);
      SkipRangeEffect(w, stages, lo + 1, hi);
      var t := SkipRange(w, stages, lo + 1, hi);
      forall i | 0 <= i < |s.rows|
        ensures t.rows[i] == if InRange(s.rows[i], stages, lo, hi) then Row(s.rows[i].stage, 0, Skipped, 0) else s.rows[i]
      {
      }
    }
  }

  lemma {:induction false} ScanStopsAt(s: State, listing: seq<Row>, k: nat, q: nat)
    requires k <= q < |listing| && Waits(listing[q]) && !Skips(s, listing[q].stage)
    requires forall i :: k <= i < q ==> !Waits(listing[i])
    ensures NextStage(s, listing, k) == Scan(s, Some(listing[q].stage))
    decreases q - k
  {
    hide Skips, Waits;
    if k < q {
      ScanStopsAt(s, listing, k + 1, q);
    }
  }

  /** A linear row before the target's row belongs to an earlier stage of the scope. */
  lemma EarlierInScope(s: State, i: nat, q: nat)
    requires Valid(s) && AllInScope(s) && i < q < |s.rows| && Linear(s.rows[i]) && Linear(s.rows[q])
    ensures var stages := Scoped(s.defs, Effective(s.scope));
            InRange(s.rows[i], stages, 0, Pos(stages, s.rows[q].stage))
  {
    hide Effective, Scoped;
    var stages := Scoped(s.defs, Effective(s.scope));
    var id := s.rows[i].stage;
    LinearHasNoBolt(s, i);
    LinearHasNoBolt(s, q);
    assert Before(s.defs, s.rows[i], s.rows[q]);
    assert s.rows[i] in s.rows && InScopeStage(s, id);
    assert s.defs[Pos(s.defs, id)] in stages;
    var k :| 0 <= k < |stages| && stages[k] == s.defs[Pos(s.defs, id)];
    var t := Pos(stages, s.rows[q].stage);
    ScopedKeepsOrder(s.defs, Effective(s.scope), 0);
    assert Matches(s.rows[i], stages[k].id, 0);
    assert t < |stages| ==> stages[t].id == s.rows[q].stage;
  }

  ghost predicate NoneCurrent(s: State) {
    forall i :: 0 <= i < |s.rows| && Linear(s.rows[i]) ==> s.rows[i].status != InProgress && s.rows[i].status != AwaitingApproval
  }

  lemma {:induction false} NoCurrentIndex(s: State, stages: seq<StageDef>, k: nat)
    requires Valid(s) && NoneCurrent(s) && k <= |stages|
    ensures CurrentIndex(s, stages, k) == |stages|
    decreases |stages| - k
  {
    hide Find, ValidTable;
    if k < |stages| {
      NoCurrentIndex(s, stages, k + 1);
      var i := Find(s.rows, stages[k].id, 0);
      if i < |s.rows| {
        LinearHasNoBolt(s, i);
      }
    }
  }

  lemma JumpRows(s: State, target: StageId)
    requires Valid(s) && AllInScope(s) && NoneCurrent(s) && !IsPerBolt(target)
    requires Pos(Scoped(s.defs, Effective(s.scope)), target) < |Scoped(s.defs, Effective(s.scope))|
    ensures var t := Jump(s, target).state; var q := Find(s.rows, target, 0);
            && t.defs == s.defs && t.scope == s.scope && t.bolts == s.bolts && SameKeys(s.rows, t.rows)
            && (q < |s.rows| ==> t.rows[q].status == NotStarted && forall i :: 0 <= i < q ==> !Waits(t.rows[i]))
  {
    hide Scoped, Effective, Valid, OneRunning, AllInScope, Find, InRange, CompletedAt;
    var stages := Scoped(s.defs, Effective(s.scope));
    var p := Pos(stages, target);
    var q := Find(s.rows, target, 0);
    NoCurrentIndex(s, stages, 0);
    SkipRangeEffect(s, stages, 0, p);
    var s1 := SkipRange(s, stages, 0, p);
    var t := Jump(s, target).state;
    if q < |s.rows| {
      forall i | 0 <= i < q
        ensures !Waits(t.rows[i])
      {
        if Linear(s.rows[i]) {
          EarlierInScope(s, i, q);
          KeyIsUnique(s, i, target, 0);
        }
      }
    }
  }

  /** With every row in scope and no linear stage in progress or awaiting approval, a jump to a linear
      stage makes it the next stage to run exactly when the stage has a row, and the scan for the next
      stage then skips nothing. */
  lemma JumpLands(s: State, target: StageId)
    requires Valid(s) && AllInScope(s) && NoneCurrent(s) && !IsPerBolt(target) && Jump(s, target).ok
    ensures var t := Jump(s, target).state;
            && (NextStage(t, t.rows, 0).next == Some(target) <==> Find(s.rows, target, 0) < |s.rows|)
            && (Find(s.rows, target, 0) < |s.rows| ==> NextStage(t, t.rows, 0).state == t)
  {
    hide Jump, Scoped, Effective, Find, AllInScope, ValidTable;
    JumpOk(s, target);
    JumpRows(s, target);
    var t := Jump(s, target).state;
    var q := Find(s.rows, target, 0);
    if q < |s.rows| {
      JumpedInScope(s, t, q);
      ScanStopsAt(t, t.rows, 0, q);
    } else {
      JumpValid(s, t);
      ScanEffect(t, t.rows, 0);
      var e := ScanEnd(t, t.rows, 0);
      if e < |t.rows| {
        LinearHasNoBolt(t, e);
        assert !Matches(s.rows[e], target, 0);
      }
    }
  }

  lemma JumpOk(s: State, target: StageId)
    requires Jump(s, target).ok
    ensures Pos(Scoped(s.defs, Effective(s.scope)), target) < |Scoped(s.defs, Effective(s.scope))|
  {
  }

  lemma JumpValid(s: State, t: State)
    requires Valid(s) && SameKeys(s.rows, t.rows) && t.defs == s.defs && t.bolts == s.bolts
    ensures Valid(t)
  {
  }

  lemma JumpedInScope(s: State, t: State, q: nat)
    requires AllInScope(s) && SameKeys(s.rows, t.rows) && t.defs == s.defs && t.scope == s.scope && q < |s.rows|
    ensures !Skips(t, t.rows[q].stage)
  {
    SameKeysInScope(s, t);
    InScopeSkipsNothing(t);
  }
}
