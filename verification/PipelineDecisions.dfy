/** The pipeline's decisions, written out: which stage comes next, what an approval, a rejection, an
    acceptance and a jump need and do, how a bolt is left, and what the loop does when nothing is active. */
module PipelineDecisions {
  import opened Basics
  import opened StageTable
  import opened BoltPlan
  import opened PipelineModel
  import opened PipelineEffects
  import opened PipelineTermination
  import opened PipelineSafety
  import opened PipelineTheorems
  import opened PipelineGates
  import opened PipelineOutcomes

  // ----- the scope

  /** A feature without a scope runs the stages of a feature. */
  predicate Runs(s: State, d: StageDef) {
    (if s.scope == "" then "feature" else s.scope) in d.scopes
  }

  /** Some definition of the stage runs in the scope. */
  predicate RunsStage(s: State, id: StageId) {
    exists i | 0 <= i < |s.defs| :: s.defs[i].id == id && Runs(s, s.defs[i])
  }

  lemma RunsIs(s: State, id: StageId)
    requires DistinctIds(s.defs)
    ensures RunsStage(s, id) <==> InScopeStage(s, id)
    ensures forall d :: InScope(d, Effective(s.scope)) <==> Runs(s, d)
  {
    if i :| 0 <= i < |s.defs| && s.defs[i].id == id && Runs(s, s.defs[i]) {
      PosOf(s.defs, i);
    }
  }

  /** The row waits to be run: it has not started, its stage is run once, and the definition of the stage
      names the scope, or all scopes. */
  predicate ToRun(s: State, r: Row) {
    && r.status == NotStarted && !IsPerBolt(r.stage)
    && exists i | 0 <= i < |s.defs| :: s.defs[i].id == r.stage && (Runs(s, s.defs[i]) || "all" in s.defs[i].scopes)
  }

  lemma ToRunIs(s: State, k: nat)
    requires Valid(s) && k < |s.rows|
    ensures ToRun(s, s.rows[k]) <==> Waits(s.rows[k]) && !Skips(s, s.rows[k].stage)
  {
    hide Find;
    var r := s.rows[k];
    assert r in s.rows;
    var p := Pos(s.defs, r.stage);
    if i :| 0 <= i < |s.defs| && s.defs[i].id == r.stage && (Runs(s, s.defs[i]) || "all" in s.defs[i].scopes) {
      PosOf(s.defs, i);
    }
  }

  /** The next linear stage is that of the first row that waits to be run, and there is none exactly when
      no row waits. */
  lemma NextStageIsFirst(s: State)
    requires Valid(s)
    ensures match NextStage(s, s.rows, 0).next {
              case None => forall k :: 0 <= k < |s.rows| ==> !ToRun(s, s.rows[k])
              case Some(id) => exists p :: 0 <= p < |s.rows| && s.rows[p].stage == id && ToRun(s, s.rows[p])
                                           && forall k :: 0 <= k < p ==> !ToRun(s, s.rows[k])
            }
  {
    hide NextStage, Skips, Waits, Valid, ToRun, ScanFrame;
    ScanEffect(s, s.rows, 0);
    var p := ScanEnd(s, s.rows, 0);
    forall k | 0 <= k < |s.rows|
      ensures ToRun(s, s.rows[k]) <==> Waits(s.rows[k]) && !Skips(s, s.rows[k].stage)
    {
      ToRunIs(s, k);
    }
  }

  // ----- advancing

  /** The stage after the given one in the scope. */
  ghost predicate NextOf(s: State, id: StageId, n: StageDef) {
    && n in s.defs && Runs(s, n) && Pos(s.defs, id) < Pos(s.defs, n.id)
    && forall m :: m in s.defs && Runs(s, m) && Pos(s.defs, id) < Pos(s.defs, m.id) ==> Pos(s.defs, n.id) <= Pos(s.defs, m.id)
  }

  lemma ScopedMembers(s: State)
    requires DistinctIds(s.defs)
    ensures forall d :: d in Scoped(s.defs, Effective(s.scope)) <==> d in s.defs && Runs(s, d)
    ensures InOrder(s.defs, Scoped(s.defs, Effective(s.scope)))
  {
    hide Runs, Effective, InScope;
    ScopedKeepsOrder(s.defs, Effective(s.scope), 0);
    forall d | d in s.defs
      ensures InScope(d, Effective(s.scope)) <==> Runs(s, d)
    {
      RunsIs(s, d.id);
    }
    forall d | d in s.defs && Runs(s, d)
      ensures d in Scoped(s.defs, Effective(s.scope))
    {
      var i :| 0 <= i < |s.defs| && s.defs[i] == d;
    }
  }

  /** Where the list of the scope's stages has the stage. */
  lemma ScopedAt(s: State, id: StageId)
    requires DistinctIds(s.defs)
    ensures var stages := Scoped(s.defs, Effective(s.scope)); var k := Pos(stages, id);
            && (k < |stages| <==> RunsStage(s, id))
            && (k < |stages| ==> stages[k] in s.defs && Pos(s.defs, id) < |s.defs| && stages[k] == s.defs[Pos(s.defs, id)])
  {
    hide Runs, Effective, Scoped, InOrder;
    var stages := Scoped(s.defs, Effective(s.scope));
    var k := Pos(stages, id);
    ScopedMembers(s);
    if k < |stages| {
      assert stages[k] in stages;
      var i :| 0 <= i < |s.defs| && s.defs[i] == stages[k];
      PosOf(s.defs, i);
    } else if i :| 0 <= i < |s.defs| && s.defs[i].id == id && Runs(s, s.defs[i]) {
      assert s.defs[i] in stages;
    }
  }

  /** What comes after it. */
  lemma ScopedNext(s: State, id: StageId)
    requires DistinctIds(s.defs)
    ensures var stages := Scoped(s.defs, Effective(s.scope)); var k := Pos(stages, id);
            && (k == |stages| - 1 ==> forall n :: !NextOf(s, id, n))
            && (k < |stages| - 1 ==> NextOf(s, id, stages[k + 1]))
  {
    hide Runs, Effective, Scoped, InOrder, Pos, DistinctIds;
    var stages := Scoped(s.defs, Effective(s.scope));
    var k := Pos(stages, id);
    ScopedMembers(s);
    if k < |stages| {
      forall m | m in s.defs && Runs(s, m) && Pos(s.defs, id) < Pos(s.defs, m.id)
        ensures k < |stages| - 1 && Pos(s.defs, stages[k + 1].id) <= Pos(s.defs, m.id)
      {
        LaterInList(s.defs, stages, k, m);
      }
      if k < |stages| - 1 {
        assert stages[k + 1] in stages;
        InOrderPair(s.defs, stages, k, k + 1);
      }
    }
  }

  lemma LaterInList(defs: seq<StageDef>, stages: seq<StageDef>, k: nat, m: StageDef)
    requires InOrder(defs, stages) && k < |stages| && m in stages && Pos(defs, stages[k].id) < Pos(defs, m.id)
    ensures k < |stages| - 1 && Pos(defs, stages[k + 1].id) <= Pos(defs, m.id)
  {
    hide Pos, InOrder;
    var j :| 0 <= j < |stages| && stages[j] == m;
    InOrderPair(defs, stages, j, k);
    InOrderPair(defs, stages, k + 1, j);
  }

  lemma InOrderPair(defs: seq<StageDef>, r: seq<StageDef>, i: nat, j: nat)
    requires InOrder(defs, r)
    ensures i < j < |r| ==> Pos(defs, r[i].id) < Pos(defs, r[j].id)
  {
    hide Pos;
  }

  lemma NextIsOne(s: State, id: StageId, a: StageDef, b: StageDef)
    requires NextOf(s, id, a) && NextOf(s, id, b)
    ensures a.id == b.id && (DistinctIds(s.defs) ==> a == b)
  {
    assert Pos(s.defs, a.id) == Pos(s.defs, b.id);
    if DistinctIds(s.defs) {
      var i :| 0 <= i < |s.defs| && s.defs[i] == a;
      var j :| 0 <= j < |s.defs| && s.defs[j] == b;
    }
  }

  /** The phases of the stage and of the one after it are the same, or there is none after it. */
  ghost predicate StaysInPhase(s: State, id: StageId) {
    forall d, n :: d in s.defs && d.id == id && NextOf(s, id, n) ==> n.phase == d.phase
  }

  /** Advancing: the last stage of the scope finishes the feature; any other makes the next stage current
      and its row not started; only at the end of a phase is the auth check asked. */
  lemma AdvanceExactly(s: State, id: StageId, authOk: bool)
    requires DistinctIds(s.defs)
    ensures var r := AdvanceStage(s, id, authOk); var t := r.state;
            && (r.ok <==> RunsStage(s, id) && (authOk || StaysInPhase(s, id)))
            && (!RunsStage(s, id) ==> t == s)
            && (forall n :: RunsStage(s, id) && NextOf(s, id, n) ==>
                  && t.currentStage == Some(n.id) && t.finished == s.finished
                  && t.rows == SetRow(s.rows, n.id, 0, NotStarted, 0))
            && (RunsStage(s, id) && (forall n :: !NextOf(s, id, n)) ==>
                  t.finished && t.currentStage == Some(id) && t.rows == s.rows)
  {
    hide Runs, Effective, Scoped, SetRow, OneRunning, CompletedAt, RunsStage, Pos;
    var stages := Scoped(s.defs, Effective(s.scope));
    var k := Pos(stages, id);
    ScopedAt(s, id);
    ScopedNext(s, id);
    if k < |stages| {
      forall d | d in s.defs && d.id == id
        ensures d == stages[k]
      {
        SameDefinition(s.defs, d, stages[k]);
      }
      if k < |stages| - 1 {
        forall n | NextOf(s, id, n)
          ensures n == stages[k + 1]
        {
          NextIsOne(s, id, n, stages[k + 1]);
        }
        hide NextOf;
        assert stages[k] in s.defs && stages[k].id == id;
      }
    }
  }

  lemma SameDefinition(defs: seq<StageDef>, a: StageDef, b: StageDef)
    requires DistinctIds(defs) && a in defs && b in defs && a.id == b.id
    ensures a == b
  {
    var i :| 0 <= i < |defs| && defs[i] == a;
    var j :| 0 <= j < |defs| && defs[j] == b;
  }

  /** The row is there, and awaits approval or is revising. */
  predicate AtItsGate(s: State, id: StageId, bolt: nat) {
    exists i | 0 <= i < |s.rows| ::
      s.rows[i].stage == id && s.rows[i].bolt == bolt && (s.rows[i].status == AwaitingApproval || s.rows[i].status == Revising)
  }

  lemma AtItsGateIs(s: State, id: StageId, bolt: nat)
    requires Valid(s)
    ensures var i := Find(s.rows, id, bolt);
            AtItsGate(s, id, bolt) <==> i < |s.rows| && (s.rows[i].status == AwaitingApproval || s.rows[i].status == Revising)
  {
    hide Find;
    FindMatches(s, id, bolt);
    if j :| 0 <= j < |s.rows| && Matches(s.rows[j], id, bolt) && (s.rows[j].status == AwaitingApproval || s.rows[j].status == Revising) {
      KeyIsUnique(s, j, id, bolt);
    }
  }

  /** An approval succeeds exactly when the row is at its gate, the agent did not ask for another round,
      and, for a stage that runs once, the stage is in the scope and the auth check passes if it ends its
      phase. */
  lemma ApproveExactly(s: State, id: StageId, bolt: nat, authOk: bool)
    requires Valid(s)
    ensures Approve(s, id, bolt, authOk).Approved? <==>
              && AtItsGate(s, id, bolt) && !(id in s.outcomes && s.outcomes[id] == Recirculate)
              && (IsPerBolt(id) || (RunsStage(s, id) && (authOk || StaysInPhase(s, id))))
  {
    hide Find, Write, AdvanceStage, NextStage, AtItsGate, RunsStage, StaysInPhase;
    AtItsGateIs(s, id, bolt);
    var i := Find(s.rows, id, bolt);
    if i < |s.rows| {
      var s1 := Log(Log(Write(s, id, bolt, Completed, s.rows[i].revisions), GateApproved(id)), StageCompleted(id));
      WriteKeepsScope(s, id, bolt, s.rows[i].revisions);
      SameScopes(s, s1, id);
      DistinctOf(s);
      AdvanceExactly(s1, id, authOk);
    }
  }

  lemma DistinctOf(s: State)
    requires Valid(s)
    ensures DistinctIds(s.defs)
  {
  }

  lemma WriteKeepsScope(s: State, id: StageId, bolt: nat, rev: nat)
    ensures var t := Write(s, id, bolt, Completed, rev); t.defs == s.defs && t.scope == s.scope
  {
    hide OneRunning, CompletedAt;
  }

  lemma SameScopes(s: State, t: State, id: StageId)
    requires t.defs == s.defs && t.scope == s.scope
    ensures RunsStage(t, id) == RunsStage(s, id) && StaysInPhase(t, id) == StaysInPhase(s, id)
  {
    assert forall n :: NextOf(t, id, n) == NextOf(s, id, n);
  }

  // ----- rejecting and accepting

  /** A rejection needs a defined stage at its gate, makes its row revising with one more revision, and
      changes no other row; refused, it changes nothing. */
  lemma RejectExactly(s: State, id: StageId, bolt: nat)
    requires Valid(s)
    ensures var r := Reject(s, id, bolt); var i := Find(s.rows, id, bolt);
            && (r.ok <==> AtItsGate(s, id, bolt)) && (!r.ok ==> r.state == s)
            && (r.ok ==> i < |s.rows| && r.state.rows == s.rows[i := Row(id, bolt, Revising, s.rows[i].revisions + 1)])
  {
    hide Find, OneRunning, CompletedAt, AtItsGate;
    AtItsGateIs(s, id, bolt);
    var i := Find(s.rows, id, bolt);
    if i < |s.rows| {
      assert s.rows[i] in s.rows;
      OneRowSet(s, id, bolt, Revising, s.rows[i].revisions + 1);
    }
  }

  lemma OneRowSet(s: State, id: StageId, bolt: nat, status: Status, rev: nat)
    requires Valid(s) && Find(s.rows, id, bolt) < |s.rows|
    ensures SetRow(s.rows, id, bolt, status, rev) == s.rows[Find(s.rows, id, bolt) := Row(id, bolt, status, rev)]
  {
    hide Find;
    forall j | 0 <= j < |s.rows|
      ensures Matches(s.rows[j], id, bolt) <==> j == Find(s.rows, id, bolt)
    {
      KeyIsUnique(s, j, id, bolt);
    }
  }

  /** After n rejections. */
  function Rejected(s: State, id: StageId, bolt: nat, n: nat): State {
    if n == 0 then s else Reject(Rejected(s, id, bolt, n - 1), id, bolt).state
  }

  lemma {:induction false} RejectionsCount(s: State, id: StageId, bolt: nat, n: nat)
    requires Valid(s) && AtItsGate(s, id, bolt)
    ensures var t := Rejected(s, id, bolt, n); var i := Find(s.rows, id, bolt);
            && Valid(t) && t.defs == s.defs && AtItsGate(t, id, bolt) && Find(t.rows, id, bolt) == i < |t.rows| == |s.rows|
            && t.rows[i].revisions == s.rows[i].revisions + n
  {
    hide Find, Reject, AtItsGate, Valid;
    AtItsGateIs(s, id, bolt);
    if n > 0 {
      var u := Rejected(s, id, bolt, n - 1);
      RejectionsCount(s, id, bolt, n - 1);
      RejectExactly(u, id, bolt);
      RejectKeepsTable(u, id, bolt);
      AtItsGateIs(Rejected(s, id, bolt, n), id, bolt);
    }
  }

  lemma RejectKeepsTable(s: State, id: StageId, bolt: nat)
    requires Valid(s)
    ensures var t := Reject(s, id, bolt).state;
            Valid(t) && t.defs == s.defs && Find(t.rows, id, bolt) == Find(s.rows, id, bolt) && |t.rows| == |s.rows|
  {
    hide Find, Write, Log, Valid;
    var i := Find(s.rows, id, bolt);
    if i < |s.rows| {
      var s1 := Log(Write(s, id, bolt, Revising, s.rows[i].revisions + 1), GateRejected(id));
      WriteLogTouches(s, id, bolt, Revising, s.rows[i].revisions + 1, GateRejected(id));
      LogTouches(s1, RuleLearned(id), id, bolt);
      TouchIsTransitive(s, s1, Log(s1, RuleLearned(id)), id, bolt);
      TouchKeepsValid(s, Log(s1, RuleLearned(id)), id, bolt);
      TouchFinds(s, Log(s1, RuleLearned(id)), id, bolt);
    }
  }

  /** A stage can be accepted as it is exactly from its third revision on, whatever its status. */
  lemma AcceptExactly(s: State, id: StageId, bolt: nat, authOk: bool)
    requires Valid(s)
    ensures var r := AcceptAsIs(s, id, bolt, authOk); var i := Find(s.rows, id, bolt);
            && (i == |s.rows| || s.rows[i].revisions < 3 ==> !r.ok && r.state == s)
            && (i < |s.rows| && s.rows[i].revisions >= 3 ==>
                  && i < |r.state.rows| && r.state.rows[i] == Row(id, bolt, Completed, s.rows[i].revisions)
                  && (r.ok <==> IsPerBolt(id) || (RunsStage(s, id) && (authOk || StaysInPhase(s, id)))))
  {
    hide Find, Write, AdvanceStage, RunsStage, StaysInPhase, Valid;
    var i := Find(s.rows, id, bolt);
    if i < |s.rows| {
      var s1 := Log(Log(Write(s, id, bolt, Completed, s.rows[i].revisions), GateAcceptAsIs(id)), StageCompleted(id));
      WrittenRow(s, id, bolt, Completed, s.rows[i].revisions);
      WriteKeepsScope(s, id, bolt, s.rows[i].revisions);
      SameScopes(s, s1, id);
      DistinctOf(s);
      AdvanceExactly(s1, id, authOk);
      CompleteEffect(s, id, bolt, GateAcceptAsIs(id));
      GateFrameIsValid(s, s1);
      AdvanceKeepsOwnRow(s1, id, authOk, i);
    }
  }

  lemma AdvanceKeepsOwnRow(s: State, id: StageId, authOk: bool, i: nat)
    requires Valid(s) && i < |s.rows| && s.rows[i].stage == id
    ensures var t := AdvanceStage(s, id, authOk).state; |t.rows| == |s.rows| && t.rows[i] == s.rows[i]
  {
    hide AdvanceStage;
    AdvanceEffect(s, id, authOk);
  }

  /** From a fresh gate, a stage can be accepted as it is after three rejections, and not before. */
  lemma AcceptedAfterThree(s: State, id: StageId, bolt: nat, n: nat, authOk: bool)
    requires Valid(s) && AtItsGate(s, id, bolt) && s.rows[Find(s.rows, id, bolt)].revisions == 0
    ensures CompletedAt(AcceptAsIs(Rejected(s, id, bolt, n), id, bolt, authOk).state.rows, id, bolt) <==> n >= 3
  {
    hide Find, Reject, AcceptAsIs, AtItsGate, Valid, Rejected, RunsStage, StaysInPhase;
    var t := Rejected(s, id, bolt, n);
    RejectionsCount(s, id, bolt, n);
    AcceptExactly(t, id, bolt, authOk);
    AtItsGateIs(t, id, bolt);
    if n < 3 && CompletedAt(t.rows, id, bolt) {
      var j :| 0 <= j < |t.rows| && Matches(t.rows[j], id, bolt) && t.rows[j].status == Completed;
      KeyIsUnique(t, j, id, bolt);
    }
  }

  // ----- jumping

  /** The row of a stage that runs once is in progress or awaits approval. */
  predicate IsUnderWay(s: State, id: StageId) {
    exists i | 0 <= i < |s.rows| ::
      s.rows[i].stage == id && s.rows[i].bolt == 0 && (s.rows[i].status == InProgress || s.rows[i].status == AwaitingApproval)
  }

  lemma UnderWayIs(s: State, id: StageId)
    requires Valid(s)
    ensures var i := Find(s.rows, id, 0);
            IsUnderWay(s, id) <==> i < |s.rows| && (s.rows[i].status == InProgress || s.rows[i].status == AwaitingApproval)
  {
    hide Find;
    FindMatches(s, id, 0);
    if j :| 0 <= j < |s.rows| && Matches(s.rows[j], id, 0) && (s.rows[j].status == InProgress || s.rows[j].status == AwaitingApproval) {
      KeyIsUnique(s, j, id, 0);
    }
  }

  /** The first stage of the scope that is under way. */
  ghost predicate Current(s: State, c: StageId) {
    && RunsStage(s, c) && IsUnderWay(s, c)
    && forall e :: RunsStage(s, e) && IsUnderWay(s, e) ==> Pos(s.defs, c) <= Pos(s.defs, e)
  }

  /** The row is of a stage of the scope between the current one, if there is one, and the target. */
  ghost predicate Between(s: State, r: Row, target: StageId) {
    && r.bolt == 0 && RunsStage(s, r.stage) && Pos(s.defs, r.stage) < Pos(s.defs, target)
    && forall c :: Current(s, c) ==> Pos(s.defs, c) < Pos(s.defs, r.stage)
  }

  lemma {:induction false} CurrentIs(s: State, stages: seq<StageDef>, k: nat)
    requires Valid(s) && k <= |stages|
    ensures var c := CurrentIndex(s, stages, k);
            && (c < |stages| ==> IsUnderWay(s, stages[c].id))
            && forall j :: k <= j < c ==> !IsUnderWay(s, stages[j].id)
    decreases |stages| - k
  {
    hide Find, Valid, IsUnderWay;
    if k < |stages| {
      UnderWayIs(s, stages[k].id);
      CurrentIs(s, stages, k + 1);
    }
  }

  /** The stage at which the index stands is the current one; past the end there is none. */
  lemma CurrentAt(s: State)
    requires Valid(s)
    ensures var stages := Scoped(s.defs, Effective(s.scope)); var c := CurrentIndex(s, stages, 0);
            && (c < |stages| ==> Current(s, stages[c].id))
            && (c == |stages| ==> forall e :: !Current(s, e))
  {
    hide Scoped, Effective, RunsStage, IsUnderWay, CurrentIndex, Pos, Valid, Runs, InOrder;
    var stages := Scoped(s.defs, Effective(s.scope));
    var c := CurrentIndex(s, stages, 0);
    DistinctOf(s);
    CurrentIs(s, stages, 0);
    ScopedMembers(s);
    forall e | RunsStage(s, e) && IsUnderWay(s, e)
      ensures c < |stages| && Pos(s.defs, stages[c].id) <= Pos(s.defs, e)
    {
      ScopedAt(s, e);
      var j := Pos(stages, e);
      AtPos(stages, e);
      InOrderPair(s.defs, stages, c, j);
    }
    if c < |stages| {
      StageRuns(s, c);
    }
  }

  lemma AtPos(stages: seq<StageDef>, id: StageId)
    ensures Pos(stages, id) < |stages| ==> stages[Pos(stages, id)].id == id
  {
  }

  lemma StageRuns(s: State, k: nat)
    requires DistinctIds(s.defs) && k < |Scoped(s.defs, Effective(s.scope))|
    ensures RunsStage(s, Scoped(s.defs, Effective(s.scope))[k].id) && Pos(Scoped(s.defs, Effective(s.scope)), Scoped(s.defs, Effective(s.scope))[k].id) == k
  {
    hide Scoped, Effective, Runs;
    var stages := Scoped(s.defs, Effective(s.scope));
    ScopedMembers(s);
    assert stages[k] in stages;
    var i :| 0 <= i < |s.defs| && s.defs[i] == stages[k];
    var j := Pos(stages, stages[k].id);
    InOrderPair(s.defs, stages, j, k);
  }

  lemma BetweenIs(s: State, r: Row, target: StageId)
    requires Valid(s) && RunsStage(s, target)
    ensures var stages := Scoped(s.defs, Effective(s.scope)); var c := CurrentIndex(s, stages, 0);
            Between(s, r, target) <==> InRange(r, stages, if c < |stages| then c + 1 else 0, Pos(stages, target))
  {
    hide Scoped, Effective, RunsStage, CurrentIndex, Pos, Valid, Runs, InOrder, Current;
    var stages := Scoped(s.defs, Effective(s.scope));
    var c, t := CurrentIndex(s, stages, 0), Pos(stages, target);
    DistinctOf(s);
    ScopedMembers(s);
    CurrentAt(s);
    ScopedAt(s, target);
    AtPos(stages, target);
    if RunsStage(s, r.stage) {
      ScopedAt(s, r.stage);
      var j := Pos(stages, r.stage);
      AtPos(stages, r.stage);
      InOrderPair(s.defs, stages, j, t);
      InOrderPair(s.defs, stages, t, j);
      InOrderPair(s.defs, stages, c, j);
      InOrderPair(s.defs, stages, j, c);
      SameCurrent(s, r.stage);
      if Between(s, r, target) {
        assert Matches(r, stages[j].id, 0);
      }
      if k :| (if c < |stages| then c + 1 else 0) <= k < t <= |stages| && Matches(r, stages[k].id, 0) {
        StageRuns(s, k);
      }
    } else if k :| (if c < |stages| then c + 1 else 0) <= k < t <= |stages| && Matches(r, stages[k].id, 0) {
      StageRuns(s, k);
    }
  }

  /** All current stages stand at one place. */
  lemma SameCurrent(s: State, id: StageId)
    ensures forall c, e :: Current(s, c) && Current(s, e) ==> Pos(s.defs, c) == Pos(s.defs, e)
  {
    hide Pos, RunsStage, IsUnderWay;
  }

  /** A jump is refused outside the scope; it resets the target's row, skips the rows of the stages of the
      scope between the current stage and the target, and leaves every other row alone, that of the
      current stage too. */
  lemma JumpExactly(s: State, target: StageId)
    requires Valid(s)
    ensures var r := Jump(s, target);
            && (r.ok <==> RunsStage(s, target)) && (!r.ok ==> r.state == s)
            && |r.state.rows| == |s.rows|
            && forall k :: r.ok && 0 <= k < |s.rows| ==>
                 r.state.rows[k] == if Matches(s.rows[k], target, 0) then Row(target, 0, NotStarted, 0)
                                    else if Between(s, s.rows[k], target) then Row(s.rows[k].stage, 0, Skipped, 0)
                                    else s.rows[k]
  {
    hide Scoped, Effective, RunsStage, CurrentIndex, Valid, OneRunning, CompletedAt, InRange, Between, SkipRange, Pos;
    var stages := Scoped(s.defs, Effective(s.scope));
    var c, t := CurrentIndex(s, stages, 0), Pos(stages, target);
    DistinctOf(s);
    ScopedAt(s, target);
    if t < |stages| {
      SkipRangeEffect(s, stages, if c < |stages| then c + 1 else 0, t);
      forall k | 0 <= k < |s.rows|
        ensures Between(s, s.rows[k], target) <==> InRange(s.rows[k], stages, if c < |stages| then c + 1 else 0, t)
      {
        BetweenIs(s, s.rows[k], target);
      }
    }
  }
}
