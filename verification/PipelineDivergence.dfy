/** When the control loop goes on for ever: exactly when it gets stuck, which states can get there, and
    that no feature in normal use is in such a state. */
module PipelineDivergence {
  import opened Basics
  import opened StageTable
  import opened BoltPlan
  import opened PipelineModel
  import opened PipelineEffects
  import opened PipelineTermination
  import opened PipelineSafety
  import opened PipelineTheorems
  import opened PipelineGates

  // ----- the loop that never stops

  /** A feature whose scope was narrowed while bolt 1 had a revising row for a stage now out of scope. */
  function StuckFeature(): State {
    State([StageDef(StageId(3, 1), Construction, ["infra"], false)],
          [Row(StageId(3, 1), 1, Revising, 1)],
          [Bolt(1, ["unit-1"], [], Done, true)],
          [], map[], "feature", Autonomous, false, None, 1, Watch(true, true))
  }

  lemma StuckExample(w: World)
    requires !w.cancelled
    ensures Valid(StuckFeature()) && Stuck(StuckFeature()) && TakeTurn(StuckFeature(), w).Continue?
  {
    hide TakeTurn;
    var s := StuckFeature();
    assert FirstWith(s.rows, Revising) == 0;
    assert s.defs[0].scopes == ["infra"] && "infra" != "feature";
    forall k | 1 <= k <= 5
      ensures !InScopeStage(s, StageId(3, k))
    {
      assert Pos(s.defs, StageId(3, k)) == (if k == 1 then 0 else 1);
    }
    StuckGoesOn(s, w);
  }

  /** From a stuck state no number of turns ends the loop, as long as it is not cancelled. */
  lemma {:induction false} StuckForever(s: State, world: nat -> World, n: nat)
    requires Valid(s) && Stuck(s) && forall i: nat :: !world(i).cancelled
    ensures Stuck(Loop(s, world, n)) && Valid(Loop(s, world, n)) && TakeTurn(Loop(s, world, n), world(n)).Continue?
    ensures Loop(s, world, n).rows == s.rows
  {
    hide Valid, Stuck, TakeTurn;
    if n > 0 {
      StuckForever(s, world, n - 1);
      StuckGoesOn(Loop(s, world, n - 1), world(n - 1));
    }
    StuckGoesOn(Loop(s, world, n), world(n));
  }

  /** The loop goes on for ever. */
  ghost predicate Diverges(s: State, world: nat -> World) {
    forall n: nat :: TakeTurn(Loop(s, world, n), world(n)).Continue?
  }

  /** From any turn on, the loop stops or gets stuck: its measure cannot drop for ever. */
  lemma StopsOrSticks(s: State, world: nat -> World, k: nat) returns (n: nat)
    requires Valid(Loop(s, world, k)) && Reaches(s, world, k)
    ensures Reaches(s, world, n) && Valid(Loop(s, world, n))
    ensures Stuck(Loop(s, world, n)) || TakeTurn(Loop(s, world, n), world(n)).Stop?
    decreases BoltsLeft(Loop(s, world, k)), MergeLeft(Loop(s, world, k)), Missing(Loop(s, world, k)),
              Weight(Loop(s, world, k).rows, |Loop(s, world, k).rows|), Open(Loop(s, world, k).bolts)
  {
    hide Valid, Stuck, TakeTurn, Loop, BoltsLeft, MergeLeft, Missing, Weight, Open;
    var t := Loop(s, world, k);
    if Stuck(t) || TakeTurn(t, world(k)).Stop? {
      n := k;
    } else {
      LoopStep(s, world, k);
      TurnIsCloser(t, world(k));
      TurnKeepsValid(t, world(k));
      n := StopsOrSticks(s, world, k + 1);
    }
  }

  lemma {:induction false} LoopFrom(s: State, world: nat -> World, n: nat, k: nat)
    ensures Loop(s, world, n + k) == Loop(Loop(s, world, n), (i: nat) => world(n + i), k)
  {
    hide TakeTurn;
    if k > 0 {
      LoopFrom(s, world, n, k - 1);
    }
  }

  /** The loop gets stuck in turn n and is never cancelled after that. */
  ghost predicate SticksAt(s: State, world: nat -> World, n: nat) {
    Reaches(s, world, n) && Stuck(Loop(s, world, n)) && forall i: nat :: i >= n ==> !world(i).cancelled
  }

  lemma StuckDiverges(s: State, world: nat -> World, n: nat)
    requires Valid(Loop(s, world, n)) && SticksAt(s, world, n)
    ensures Diverges(s, world)
  {
    hide Valid, Stuck, TakeTurn, Loop;
    forall k: nat
      ensures TakeTurn(Loop(s, world, k), world(k)).Continue?
    {
      if k >= n {
        var later := (i: nat) => world(n + i);
        LoopFrom(s, world, n, k - n);
        StuckForever(Loop(s, world, n), later, k - n);
        assert later(k - n) == world(k);
      }
    }
  }

  lemma {:induction false} ReachedIsValid(s: State, world: nat -> World, n: nat)
    requires Valid(s)
    ensures Valid(Loop(s, world, n))
  {
    hide Valid, TakeTurn;
    if n > 0 {
      ReachedIsValid(s, world, n - 1);
      TurnKeepsValid(Loop(s, world, n - 1), world(n - 1));
    }
  }

  /** The control loop goes on for ever exactly when it gets stuck and is not cancelled. */
  lemma DivergesExactlyWhen(s: State, world: nat -> World)
    requires Valid(s)
    ensures Diverges(s, world) <==> exists n: nat :: SticksAt(s, world, n)
  {
    hide Valid, Stuck, TakeTurn, Loop;
    if n: nat :| SticksAt(s, world, n) {
      ReachedIsValid(s, world, n);
      StuckDiverges(s, world, n);
    }
    if Diverges(s, world) {
      LoopStep(s, world, 0);
      var n := StopsOrSticks(s, world, 0);
      forall i: nat | i >= n
        ensures !world(i).cancelled
      {
        GoesOnUncancelled(Loop(s, world, i), world(i));
      }
      assert SticksAt(s, world, n);
    }
  }

  lemma GoesOnUncancelled(s: State, w: World)
    requires TakeTurn(s, w).Continue?
    ensures !w.cancelled
  {
    hide Decide, Perform;
  }

  // ----- features in normal use

  lemma InScopeWillStop(s: State)
    requires AllInScope(s)
    ensures WillStop(s)
  {
    hide InScopeStage;
    forall i | 0 <= i < |s.rows|
      ensures InScopeStage(s, s.rows[i].stage)
    {
      assert s.rows[i] in s.rows;
    }
  }

  /** Whatever the outside world does, the loop ends from every state that satisfies the invariants. */
  lemma InvNeverDiverges(s: State, world: nat -> World)
    requires Inv(s)
    ensures !Diverges(s, world)
  {
    hide Inv, WillStop, Valid, Stuck, AllInScope, Diverges, Loop, Reaches;
    InvFacts(s);
    InScopeWillStop(s);
    WillStopNeverSticks(s, world);
    DivergesExactlyWhen(s, world);
  }

  /** In every state of every run of a new feature the loop ends when it is started. */
  lemma EveryRunStops(defs: seq<StageDef>, scope: string, mode: Mode, ops: seq<Op>, world: nat -> World)
    requires DistinctIds(defs) && Legal(NewFeature(defs, scope, mode), ops)
    ensures !Diverges(Run(NewFeature(defs, scope, mode), ops), world)
  {
    hide Legal, Run, NewFeature, Inv, Diverges;
    NewFeatureIsSafe(defs, scope, mode);
    EveryRunIsSafe(NewFeature(defs, scope, mode), ops);
    InvNeverDiverges(Run(NewFeature(defs, scope, mode), ops), world);
  }

  // ----- the states from which it can

  /** A bolt row that waits for the revision of a stage out of scope; the bolt is planned. */
  ghost predicate Orphan(s: State, r: Row) {
    IsPerBolt(r.stage) && r.status == Revising && !InScopeStage(s, r.stage) && BoltAt(s.bolts, r.bolt) < |s.bolts|
  }

  /** A revising row that the loop can get past: of a planned bolt, or of a stage it approves by itself. */
  predicate Passable(s: State, r: Row) {
    if IsPerBolt(r.stage) then BoltAt(s.bolts, r.bolt) < |s.bolts| else AutoApproves(s, r.stage)
  }

  /** A revising row before the orphan that the loop does not get past. */
  ghost predicate Blocks(s: State, r: Row, o: Row) {
    r in s.rows && r.status == Revising && Before(s.defs, r, o) && !Passable(s, r)
  }

  ghost predicate Blocked(s: State, o: Row) {
    exists r :: Blocks(s, r, o)
  }

  /** Some orphan is not blocked. */
  ghost predicate OpenOrphan(s: State) {
    exists o :: o in s.rows && Orphan(s, o) && !Blocked(s, o)
  }

  /** Nothing but the passing of time and the loop itself stands between the state and a stuck one: the
      mode is automatic, nothing is in progress, the awaiting rows can all be approved, one after the
      other, and then some orphan is not blocked. */
  ghost predicate CanStick(s: State)
    requires Valid(s)
    decreases BoltsLeft(s), MergeLeft(s), Missing(s), Weight(s.rows, |s.rows|), Open(s.bolts)
  {
    var p := FirstWith(s.rows, AwaitingApproval);
    && AutoMode(s.mode) && NoRow(s.rows, InProgress)
    && if p == |s.rows| then OpenOrphan(s)
       else
         var a := Approve(s, s.rows[p].stage, s.rows[p].bolt, true);
         a.Approved? && (ApproveGoesOn(s, s.rows[p].stage, s.rows[p].bolt); CanStick(a.state))
  }

  lemma ApproveGoesOn(s: State, id: StageId, bolt: nat)
    requires Valid(s) && Approve(s, id, bolt, true).Approved?
    ensures var t := Approve(s, id, bolt, true).state; Valid(t) && Closer(t, s)
  {
    hide Approve, Valid, Closer, Frame;
    ApproveEffect(s, id, bolt, true);
    ApproveTurn(s, id, bolt, true);
  }

  // ----- getting past one row

  /** What a finished run of a bolt makes of the rows: none is new but in a closed status, and none is
      gone but those of stages of the bolt in scope, and waiting ones. */
  ghost predicate Settled(s: State, t: State, b: nat) {
    && Valid(t) && t.defs == s.defs && t.scope == s.scope && t.mode == s.mode && |t.bolts| == |s.bolts|
    && (forall x :: x in t.rows ==> x in s.rows || x.status == Completed || x.status == Skipped || x.status == NotStarted)
    && (forall x :: x in s.rows ==> x in t.rows || Waits(x) || (x.bolt == b && InScopeStage(s, x.stage)))
  }

  lemma FinishedRow(s0: State, r: BoltRun, b: nat, j: nat)
    requires BoltOutcome(s0, r, b, 1) && r.end.BoltFinished? && j < |s0.rows| && |r.state.rows| == |s0.rows|
    ensures var x, y := s0.rows[j], r.state.rows[j];
            || y == x
            || (y.status == Completed && x.bolt == b && InScopeStage(s0, x.stage))
            || (y.status == Skipped && Waits(x))
  {
    hide Find, InScopeStage, Skips, Quiet, NoneHigher;
    var x, t := s0.rows[j], r.state;
    if BoltMayRun(s0, x, b, 1) {
      var k := x.stage.minor;
      assert x.stage == StageId(3, k);
      assert t.rows[j].stage == x.stage && t.rows[j].bolt == x.bolt;
      KeyIsUnique(t, j, x.stage, b);
    }
  }

  lemma FinishedSettles(s: State, b: nat, agent: StageId -> AgentRun)
    requires Valid(s) && b > 0 && RunBolt(s, b, agent).end.BoltFinished?
    ensures Settled(s, RunBolt(s, b, agent).state, b)
  {
    hide Find, BoltStages, Scoped, Effective, InitBolt, HasRows, StartBolt, BoltOutcome, InScopeStage, Waits, Valid;
    var stages := Scoped(s.defs, Effective(s.scope));
    var s0, r := StartBolt(s, b), RunBolt(s, b, agent);
    StartIsValid(s, b);
    ValidIsTable(s);
    InitBoltGrows(s.defs, s.rows, b, stages);
    BoltStagesEffect(s0, b, 1, agent, []);
    OutcomeFrame(s0, r, b, 1);
    FrameFacts(s0, r.state, b, StageId(3, 1));
    SameScope(s, s0);
    var t := r.state;
    forall x | x in t.rows
      ensures x in s.rows || x.status == Completed || x.status == Skipped || x.status == NotStarted
    {
      var j :| 0 <= j < |t.rows| && t.rows[j] == x;
      FinishedRow(s0, r, b, j);
      assert s0.rows[j] in s0.rows;
    }
    forall x | x in s.rows
      ensures x in t.rows || Waits(x) || (x.bolt == b && InScopeStage(s, x.stage))
    {
      assert x in s0.rows;
      var j :| 0 <= j < |s0.rows| && s0.rows[j] == x;
      FinishedRow(s0, r, b, j);
      assert t.rows[j] in t.rows;
    }
  }

  lemma SameScope(s: State, t: State)
    requires t.defs == s.defs && t.scope == s.scope
    ensures forall id :: InScopeStage(t, id) <==> InScopeStage(s, id)
  {
  }

  lemma SamePlan(s: State, t: State, n: nat)
    requires Valid(s) && Valid(t) && |t.bolts| == |s.bolts|
    ensures BoltAt(t.bolts, n) < |t.bolts| <==> BoltAt(s.bolts, n) < |s.bolts|
  {
    PlannedRange(s, n);
    PlannedRange(t, n);
  }

  lemma PlannedRange(s: State, n: nat)
    requires Valid(s)
    ensures BoltAt(s.bolts, n) < |s.bolts| <==> 1 <= n <= |s.bolts|
  {
    var k := BoltAt(s.bolts, n);
    if 1 <= n <= |s.bolts| {
      assert s.bolts[n - 1].number == n;
    }
  }

  lemma SettledAgrees(s: State, t: State, r: Row)
    requires Valid(s) && Valid(t) && t.defs == s.defs && t.scope == s.scope && t.mode == s.mode && |t.bolts| == |s.bolts|
    ensures (Orphan(t, r) <==> Orphan(s, r)) && (Passable(t, r) <==> Passable(s, r))
  {
    hide InScopeStage, Valid;
    SameScope(s, t);
    SamePlan(s, t, r.bolt);
  }

  /** Past a planned bolt, the same orphans are open as before. */
  lemma BoltKeepsOrphans(s: State, t: State, b: nat)
    requires Valid(s) && Settled(s, t, b) && BoltAt(s.bolts, b) < |s.bolts| && b > 0
    ensures OpenOrphan(t) <==> OpenOrphan(s)
    ensures forall status :: status == InProgress || status == AwaitingApproval ==>
              (NoRow(s.rows, status) ==> NoRow(t.rows, status))
  {
    hide InScopeStage, Valid, BoltAt;
    forall o
      ensures o in t.rows && Orphan(t, o) <==> o in s.rows && Orphan(s, o)
      ensures o in s.rows && Orphan(s, o) ==> (Blocked(t, o) <==> Blocked(s, o))
    {
      SettledAgrees(s, t, o);
      if o in s.rows && Orphan(s, o) {
        SameBlocks(s, t, b, o);
      }
    }
    hide Orphan, Blocked;
    forall i | 0 <= i < |t.rows|
      ensures t.rows[i] in s.rows || t.rows[i].status == Completed || t.rows[i].status == Skipped || t.rows[i].status == NotStarted
    {
      assert t.rows[i] in t.rows;
    }
  }

  lemma SameBlocks(s: State, t: State, b: nat, o: Row)
    requires Valid(s) && Settled(s, t, b) && BoltAt(s.bolts, b) < |s.bolts| && b > 0
    ensures Blocked(t, o) <==> Blocked(s, o)
  {
    hide InScopeStage, BoltAt, AutoApproves;
    forall r
      ensures Blocks(t, r, o) <==> Blocks(s, r, o)
    {
      SettledAgrees(s, t, r);
      if Blocks(s, r, o) {
        var i :| 0 <= i < |s.rows| && s.rows[i] == r;
        LinearHasNoBolt(s, i);
      }
    }
  }

  /** Row p is the first revising one, and no row is in progress or awaiting approval. */
  ghost predicate AtRest(s: State, p: nat) {
    && AutoMode(s.mode) && NoRow(s.rows, InProgress) && NoRow(s.rows, AwaitingApproval)
    && p < |s.rows| && p == FirstWith(s.rows, Revising)
  }

  lemma DecideAtRest(s: State, p: nat)
    requires Valid(s) && AtRest(s, p)
    ensures var r := s.rows[p];
            && Decide(s) == Decision(s, if IsPerBolt(r.stage) then ActRunBolt(r.bolt) else ActRunStage(r.stage))
            && (r.bolt > 0 <==> IsPerBolt(r.stage)) && r.status == Revising
  {
    LinearHasNoBolt(s, p);
  }

  /** Row p alone has changed, to completed. */
  ghost predicate CompletesRow(s: State, t: State, p: nat) {
    && Valid(t) && t.defs == s.defs && t.scope == s.scope && t.mode == s.mode && t.bolts == s.bolts
    && p < |s.rows| == |t.rows| && t.rows[p].status == Completed
    && forall j :: 0 <= j < |s.rows| && j != p ==> t.rows[j] == s.rows[j]
  }

  lemma FirstRevisingCanRun(s: State, p: nat)
    requires Valid(s) && AtRest(s, p) && !IsPerBolt(s.rows[p].stage)
    ensures CanRun(s, s.rows[p].stage) && Find(s.rows, s.rows[p].stage, 0) == p
  {
    LinearHasNoBolt(s, p);
    KeyIsUnique(s, p, s.rows[p].stage, 0);
    assert s.rows[p] in s.rows;
  }

  /** The loop gets past a linear row that is revising only if it approves the stage by itself; it does
      when the agent passes. */
  lemma LinearTurn(s: State, p: nat, w: World)
    requires Valid(s) && AtRest(s, p) && !IsPerBolt(s.rows[p].stage)
    ensures TakeTurn(s, w).Continue? ==> AutoApproves(s, s.rows[p].stage) && CompletesRow(s, TakeTurn(s, w).state, p)
    ensures !w.cancelled && w.agent(s.rows[p].stage) == PASSING && AutoApproves(s, s.rows[p].stage) ==> TakeTurn(s, w).Continue?
  {
    hide Decide, RunStage, ProcessStageResult, AutoApproves, Find, CanRun, Touch, Valid, CompletedAt, GateStaysOpen;
    var id := s.rows[p].stage;
    DecideAtRest(s, p);
    FirstRevisingCanRun(s, p);
    var run := w.agent(id);
    var r := RunStage(s, id, run);
    RunStageEffect(s, id, run);
    BoltForIs(s, id);
    if run.Dispatched? {
      LinearGateExactly(s, id, run.signal, run.ending);
      PassingStaysOpen(s.defs[Pos(s.defs, id)]);
    } else {
      NotDispatched(s, id, run);
    }
    if r.StageRan? {
      var q := ProcessStageResult(r.state, id, r.result);
      ProcessEffect(r.state, id, r.result);
      TouchIsTransitive(s, r.state, q.state, id, 0);
      TouchKeepsValid(s, q.state, id, 0);
      TouchFinds(s, r.state, id, 0);
      TouchFinds(s, q.state, id, 0);
      KeepsMode(s, q.state, id, 0);
      if q.outcome == AutoApproved {
        TouchedRow(s, q.state, p);
      }
    }
  }

  const PASSING := Dispatched(None, Finished(true, false, Ready))

  lemma PassingStaysOpen(def: StageDef)
    ensures GateStaysOpen(def, PASSING.signal, PASSING.ending)
  {
  }

  lemma KeepsMode(s: State, t: State, id: StageId, b: nat)
    requires Touch(s, t, id, b)
    ensures t.mode == s.mode
  {
  }

  lemma TouchedRow(s: State, t: State, p: nat)
    requires Valid(s) && p < |s.rows| && !IsPerBolt(s.rows[p].stage) && Touch(s, t, s.rows[p].stage, 0) && Valid(t)
    requires |t.rows| == |s.rows| && t.rows[p].status == Completed
    ensures CompletesRow(s, t, p)
  {
    hide Find, ValidTable;
    forall j | 0 <= j < |s.rows| && j != p
      ensures t.rows[j] == s.rows[j]
    {
      KeyIsUnique(s, j, s.rows[p].stage, 0);
      LinearHasNoBolt(s, p);
      KeyIsUnique(s, p, s.rows[p].stage, 0);
    }
  }

  /** Past a linear row that the loop approves, the same orphans are open as before. */
  lemma StageKeepsOrphans(s: State, t: State, p: nat)
    requires Valid(s) && CompletesRow(s, t, p) && !IsPerBolt(s.rows[p].stage) && AutoApproves(s, s.rows[p].stage)
    ensures OpenOrphan(t) <==> OpenOrphan(s)
    ensures forall status :: status == InProgress || status == AwaitingApproval ==>
              (NoRow(s.rows, status) ==> NoRow(t.rows, status))
  {
    hide InScopeStage, Valid, BoltAt, AutoApproves;
    RowsAgree(s, t, p);
    forall o
      ensures o in t.rows && Orphan(t, o) <==> o in s.rows && Orphan(s, o)
      ensures o in s.rows && Orphan(s, o) ==> (Blocked(t, o) <==> Blocked(s, o))
    {
      SettledAgrees(s, t, o);
      forall r
        ensures Blocks(t, r, o) <==> Blocks(s, r, o)
      {
        SettledAgrees(s, t, r);
      }
    }
  }

  lemma RowsAgree(s: State, t: State, p: nat)
    requires CompletesRow(s, t, p)
    ensures forall r :: r in t.rows ==> r in s.rows || r.status == Completed
    ensures forall r :: r in s.rows && r != s.rows[p] ==> r in t.rows
  {
    hide Valid;
    forall r | r in t.rows
      ensures r in s.rows || r.status == Completed
    {
      var j :| 0 <= j < |t.rows| && t.rows[j] == r;
      assert j != p ==> t.rows[j] == s.rows[j];
    }
    forall r | r in s.rows && r != s.rows[p]
      ensures r in t.rows
    {
      var j :| 0 <= j < |s.rows| && s.rows[j] == r;
      assert t.rows[j] == r;
    }
  }

  // ----- a bolt whose automatic approval is refused

  /** Every awaiting row is of a stage whose agent asked for another round, and there is one. */
  ghost predicate Doomed(s: State) {
    && !NoRow(s.rows, AwaitingApproval)
    && forall i :: 0 <= i < |s.rows| && s.rows[i].status == AwaitingApproval ==> Recirculated(s, s.rows[i].stage)
  }

  lemma DoomedStops(s: State, w: World)
    requires Doomed(s)
    ensures TakeTurn(s, w).Stop?
  {
    hide NextStage, Find, Write, Log, FirstToRun, StageDone;
    var p := FirstWith(s.rows, AwaitingApproval);
    assert p < |s.rows|;
    assert Approve(s, s.rows[p].stage, s.rows[p].bolt, w.authOk) == Refused(s);
  }

  lemma RefusedIsDoomed(s: State, s1: State, b: nat, m: nat, i: nat, result: StageResult)
    requires Valid(s1) && 1 <= m <= 5 && BoltStep(s, s1, b, m, i) && Frame(s, s1) && NoRow(s.rows, AwaitingApproval)
    requires i == Find(s1.rows, StageId(3, m), b) && i < |s1.rows|
    requires GateMatches(result, s1, i) && result.gateOpen && result.stage == StageId(3, m)
    requires Approve(s1, StageId(3, m), b, true).Refused?
    ensures Doomed(WriteBolt(s1, b, Pending)) && Approve(s1, StageId(3, m), b, true).state == s1
  {
    hide Find, Valid, Frame, Approve;
    ApproveInBolt(s, s1, b, m, i, result);
    ApprovesUnlessRecirculated(s1, StageId(3, m), b);
    forall j | 0 <= j < |s1.rows| && j != i
      ensures s1.rows[j].status != AwaitingApproval
    {
      assert s1.rows[j] == s.rows[j] || s1.rows[j].status == Skipped;
    }
    assert s1.rows[i].stage == StageId(3, m) by {
      FindMatches(s1, StageId(3, m), b);
    }
  }

  /** How the run of a bolt goes on after stage 3.m has run in automatic mode. */
  lemma BoltStageRan(s: State, b: nat, m: nat, agent: StageId -> AgentRun, results: seq<StageResult>)
    requires 1 <= m <= 5 && !SkipsInBolt(s, StageId(3, m), b)
    requires BoltStages(s, b, m, agent, results).end.BoltStalled?
    ensures var id := StageId(3, m);
            var run := RunStage(s, id, agent(id));
            && run.StageRan?
            && (run.result.gateOpen ==>
                  var a := Approve(run.state, id, b, true);
                  BoltStages(s, b, m, agent, results) ==
                    if a.Approved? then BoltStages(a.state, b, m + 1, agent, results + [run.result])
                    else BoltRun(WriteBolt(a.state, b, Pending), BoltStalled, results + [run.result]))
            && (!run.result.gateOpen ==>
                  && run.result.source != SmokeFailed && run.result.source != ReviewerRejected)
  {
    hide RunStage, Approve, SkipsInBolt, WriteBolt;
  }

  lemma {:induction false} StallIsDoomed(s: State, b: nat, m: nat, agent: StageId -> AgentRun, results: seq<StageResult>)
    requires Valid(s) && 1 <= m <= 6 && s.currentBolt == b && b > 0 && NoRow(s.rows, AwaitingApproval)
    requires BoltStages(s, b, m, agent, results).end.BoltStalled?
    ensures Doomed(BoltStages(s, b, m, agent, results).state)
    decreases 6 - m
  {
    hide RunStage, Approve, Find, SkipsInBolt, Valid, BoltFrame, Frame, Doomed, GateMatches, WriteBolt;
    var id := StageId(3, m);
    if SkipsInBolt(s, id, b) {
      StallIsDoomed(s, b, m + 1, agent, results);
    } else {
      var i := Find(s.rows, id, b);
      var run := RunStage(s, id, agent(id));
      RunInBolt(s, b, m, agent(id));
      var s1 := run.state;
      FrameFacts(s, s1, b, id);
      BoltStageRan(s, b, m, agent, results);
      ClosedIsTurnedDown(s, id, agent(id));
      if run.result.gateOpen {
        var a := Approve(s1, id, b, true);
        if a.Approved? {
          ApproveInBolt(s, s1, b, m, i, run.result);
          BoltFrameIsTransitive(s, s1, a.state, b);
          FrameFacts(s, a.state, b, id);
          StepAwaitsNothing(s, a.state, b, m, i);
          StallIsDoomed(a.state, b, m + 1, agent, results + [run.result]);
        } else {
          RefusedIsDoomed(s, s1, b, m, i, run.result);
        }
      }
    }
  }

  lemma StepAwaitsNothing(s: State, t: State, b: nat, m: nat, i: nat)
    requires BoltStep(s, t, b, m, i) && t.rows[i].status == Completed && NoRow(s.rows, AwaitingApproval)
    ensures NoRow(t.rows, AwaitingApproval)
  {
  }

  lemma StallDooms(s: State, b: nat, agent: StageId -> AgentRun)
    requires Valid(s) && b > 0 && NoRow(s.rows, AwaitingApproval) && RunBolt(s, b, agent).end.BoltStalled?
    ensures Doomed(RunBolt(s, b, agent).state)
  {
    hide Find, BoltStages, Scoped, Effective, InitBolt, HasRows, StartBolt, Valid, Doomed;
    StartIsValid(s, b);
    ValidIsTable(s);
    InitBoltGrows(s.defs, s.rows, b, Scoped(s.defs, Effective(s.scope)));
    var s0 := StartBolt(s, b);
    forall i | 0 <= i < |s0.rows|
      ensures s0.rows[i].status != AwaitingApproval
    {
      assert s0.rows[i] in s0.rows;
    }
    StallIsDoomed(s0, b, 1, agent, []);
  }

  // ----- from a state at rest

  /** In automatic mode, with no row in progress or awaiting approval. */
  ghost predicate Rests(s: State) {
    Valid(s) && AutoMode(s.mode) && NoRow(s.rows, InProgress) && NoRow(s.rows, AwaitingApproval)
  }

  lemma FirstRevising(s: State, r: Row)
    requires Rests(s) && r in s.rows && r.status == Revising
    ensures var p := FirstWith(s.rows, Revising);
            AtRest(s, p) && (s.rows[p] == r || Before(s.defs, s.rows[p], r))
  {
    var p := FirstWith(s.rows, Revising);
    var i :| 0 <= i < |s.rows| && s.rows[i] == r;
    assert p <= i;
  }

  /** Before an open orphan every revising row can be passed. */
  lemma FirstIsPassable(s: State)
    requires Rests(s) && OpenOrphan(s)
    ensures var p := FirstWith(s.rows, Revising); AtRest(s, p) && Passable(s, s.rows[p])
  {
    hide InScopeStage, AutoApproves, BoltAt, Valid, Rests, AtRest;
    var o :| o in s.rows && Orphan(s, o) && !Blocked(s, o);
    FirstRevising(s, o);
    var p := FirstWith(s.rows, Revising);
    RestRow(s, p);
    assert !Blocks(s, s.rows[p], o);
  }

  lemma RestRow(s: State, p: nat)
    requires AtRest(s, p)
    ensures p < |s.rows| && s.rows[p] in s.rows && s.rows[p].status == Revising
  {
  }

  lemma PassingBoltFinishes(s: State, b: nat, agent: StageId -> AgentRun)
    requires Valid(s) && b > 0 && AutoMode(s.mode) && BoltAt(s.bolts, b) < |s.bolts|
    requires forall id :: agent(id) == PASSING
    ensures RunBolt(s, b, agent).end.BoltFinished?
  {
    hide RunBolt, Valid, SkipsInBolt, GateStaysOpen;
    forall k | 1 <= k <= 5
      ensures GoesOnAt(s, b, k, agent)
    {
      SkippedOrDefined(s, StageId(3, k), b);
      if Pos(s.defs, StageId(3, k)) < |s.defs| {
        PassingStaysOpen(s.defs[Pos(s.defs, StageId(3, k))]);
      }
    }
    BoltFinishesExactly(s, b, agent);
  }

  lemma TurnAtBolt(s: State, p: nat, w: World)
    requires Valid(s) && AtRest(s, p) && IsPerBolt(s.rows[p].stage) && !w.cancelled
    ensures var b := s.rows[p].bolt;
            var run := RunBolt(s, b, w.agent);
            && b > 0 && TakeTurn(s, w).state == run.state
            && (TakeTurn(s, w).Continue? <==> run.end.BoltFinished? || run.end.BoltStalled?)
            && (TakeTurn(s, w).Continue? ==> BoltAt(s.bolts, b) < |s.bolts|)
  {
    hide Decide, BoltStages, StartBolt, Valid, AtRest;
    DecideAtRest(s, p);
  }

  lemma RestParts(s: State)
    requires Rests(s)
    ensures Valid(s) && AutoMode(s.mode) && NoRow(s.rows, InProgress) && NoRow(s.rows, AwaitingApproval)
  {
  }

  /** Past the first revising row, at rest again with the same orphans open. */
  lemma RestGoesOn(s: State, w: World)
    requires Rests(s) && OpenOrphan(s) && !w.cancelled && forall id :: w.agent(id) == PASSING
    ensures TakeTurn(s, w).Continue? && Rests(TakeTurn(s, w).state) && OpenOrphan(TakeTurn(s, w).state)
  {
    hide TakeTurn, RunBolt, OpenOrphan, Valid, Settled, CompletesRow, AtRest, NoRow, Rests, AutoApproves, Orphan;
    var p := FirstWith(s.rows, Revising);
    FirstIsPassable(s);
    RestParts(s);
    RestRow(s, p);
    var t := TakeTurn(s, w).state;
    var r := s.rows[p];
    if IsPerBolt(r.stage) {
      TurnAtBolt(s, p, w);
      PassingBoltFinishes(s, r.bolt, w.agent);
      FinishedSettles(s, r.bolt, w.agent);
      BoltKeepsOrphans(s, t, r.bolt);
      SettledParts(s, t, r.bolt);
    } else {
      LinearTurn(s, p, w);
      StageKeepsOrphans(s, t, p);
      CompletesParts(s, t, p);
    }
    RestsAgain(s, t);
  }

  lemma SettledParts(s: State, t: State, b: nat)
    requires Settled(s, t, b)
    ensures Valid(t) && t.mode == s.mode
  {
  }

  lemma CompletesParts(s: State, t: State, p: nat)
    requires CompletesRow(s, t, p)
    ensures Valid(t) && t.mode == s.mode
  {
  }

  lemma RestsAgain(s: State, t: State)
    requires Rests(s) && Valid(t) && t.mode == s.mode
    requires NoRow(t.rows, InProgress) && NoRow(t.rows, AwaitingApproval)
    ensures Rests(t)
  {
  }

  lemma NotBefore(s: State, p: nat, i: nat)
    requires Valid(s) && p <= i < |s.rows|
    ensures !Before(s.defs, s.rows[i], s.rows[p])
  {
    assert p < i ==> Before(s.defs, s.rows[p], s.rows[i]);
  }

  /** The first revising row of a stuck state is an open orphan. */
  lemma StuckHasOrphan(s: State)
    requires Valid(s) && Stuck(s)
    ensures OpenOrphan(s)
  {
    hide FirstWith, InScopeStage;
    var p := FirstWith(s.rows, Revising);
    var r := s.rows[p];
    if InScopeStage(s, r.stage) {
      assert r.stage == StageId(3, r.stage.minor);
      var i :| 0 <= i < |s.rows| && Matches(s.rows[i], r.stage, r.bolt) && s.rows[i].status == Completed;
      KeyIsUnique(s, i, r.stage, r.bolt);
      KeyIsUnique(s, p, r.stage, r.bolt);
    }
    assert r in s.rows && Orphan(s, r);
    forall x
      ensures !Blocks(s, x, r)
    {
      if x in s.rows && x.status == Revising {
        var i :| 0 <= i < |s.rows| && s.rows[i] == x;
        NotBefore(s, p, i);
      }
    }
  }

  /** The loop, started here, does not get stuck. */
  ghost predicate CannotStick(s: State) {
    Valid(s) && (WillStop(s) || Doomed(s) || (NoRow(s.rows, AwaitingApproval) && !OpenOrphan(s)))
  }

  lemma CannotStickIsNotStuck(s: State)
    requires CannotStick(s)
    ensures !Stuck(s)
  {
    hide Valid, WillStop, OpenOrphan, BoltComplete;
    if Stuck(s) {
      StuckHasOrphan(s);
      if WillStop(s) {
        WillStopIsNotStuck(s);
      }
    }
  }

  /** A turn that goes on did not wait. */
  lemma GoingOnIsNotWaiting(s: State, w: World)
    requires TakeTurn(s, w).Continue?
    ensures NoRow(s.rows, InProgress)
  {
    hide DecideIdle;
    var k := FirstWith(s.rows, InProgress);
  }

  lemma SomeRevising(s: State)
    requires !WillStop(s)
    ensures AutoMode(s.mode) && exists r :: r in s.rows && r.status == Revising
  {
    hide InScopeStage;
    var i :| 0 <= i < |s.rows| && s.rows[i].status == Revising;
    assert s.rows[i] in s.rows;
  }

  lemma RestTurn(s: State, w: World)
    requires Rests(s) && !WillStop(s) && !OpenOrphan(s) && TakeTurn(s, w).Continue?
    ensures CannotStick(TakeTurn(s, w).state)
  {
    hide TakeTurn, RunBolt, OpenOrphan, Valid, Settled, CompletesRow, AtRest, NoRow, Rests, AutoApproves, Orphan, WillStop, Doomed;
    SomeRevising(s);
    var r0 :| r0 in s.rows && r0.status == Revising;
    var p := FirstWith(s.rows, Revising);
    FirstRevising(s, r0);
    RestParts(s);
    GoesOnUncancelled(s, w);
    RestRow(s, p);
    TurnKeepsValid(s, w);
    var t := TakeTurn(s, w).state;
    var r := s.rows[p];
    if IsPerBolt(r.stage) {
      TurnAtBolt(s, p, w);
      if RunBolt(s, r.bolt, w.agent).end.BoltFinished? {
        FinishedSettles(s, r.bolt, w.agent);
        BoltKeepsOrphans(s, t, r.bolt);
      } else {
        StallDooms(s, r.bolt, w.agent);
      }
    } else {
      LinearTurn(s, p, w);
      StageKeepsOrphans(s, t, p);
    }
  }

  lemma TurnKeepsCannotStick(s: State, w: World)
    requires CannotStick(s) && TakeTurn(s, w).Continue?
    ensures CannotStick(TakeTurn(s, w).state)
  {
    hide TakeTurn, OpenOrphan, Valid, NoRow, WillStop, Doomed;
    TurnKeepsValid(s, w);
    if WillStop(s) {
      TurnKeepsWillStop(s, w);
    } else if Doomed(s) {
      DoomedStops(s, w);
    } else {
      GoingOnIsNotWaiting(s, w);
      SomeRevising(s);
      RestTurn(s, w);
    }
  }

  lemma {:induction false} LoopCannotStick(s: State, world: nat -> World, n: nat)
    requires CannotStick(s) && Reaches(s, world, n)
    ensures CannotStick(Loop(s, world, n))
  {
    hide CannotStick, TakeTurn, Loop;
    LoopStep(s, world, 0);
    if n > 0 {
      LoopCannotStick(s, world, n - 1);
      LoopStep(s, world, n - 1);
      TurnKeepsCannotStick(Loop(s, world, n - 1), world(n - 1));
    }
  }

  lemma CannotStickStops(s: State, world: nat -> World)
    requires CannotStick(s)
    ensures !Diverges(s, world)
  {
    hide Valid, WillStop, Doomed, OpenOrphan, Diverges, Reaches, Stuck, Loop, NoRow;
    DivergesExactlyWhen(s, world);
    if Diverges(s, world) {
      var n: nat :| SticksAt(s, world, n);
      LoopCannotStick(s, world, n);
      CannotStickIsNotStuck(Loop(s, world, n));
    }
  }

  // ----- from any state

  /** An uncancelled world in which every check and every agent passes. */
  const CALM := World(false, true, "", "", (id: StageId) => PASSING, true)

  lemma AwaitingTurn(s: State, w: World)
    requires NoRow(s.rows, InProgress) && AutoMode(s.mode) && FirstWith(s.rows, AwaitingApproval) < |s.rows| && !w.cancelled
    ensures var r := s.rows[FirstWith(s.rows, AwaitingApproval)];
            var a := Approve(s, r.stage, r.bolt, w.authOk);
            TakeTurn(s, w) == if a.Approved? then Continue(a.state) else Stop(a.state, ApproveFailed)
  {
    hide Approve, NoRow, DecideIdle;
    NoneInProgress(s.rows);
  }

  lemma NoneInProgress(rows: seq<Row>)
    ensures NoRow(rows, InProgress) <==> FirstWith(rows, InProgress) == |rows|
    ensures NoRow(rows, AwaitingApproval) <==> FirstWith(rows, AwaitingApproval) == |rows|
  {
  }

  /** A phase boundary that is passed without the auth check is passed with it, to the same state. */
  lemma AuthOnlyHelps(s: State, id: StageId, bolt: nat, authOk: bool)
    requires Approve(s, id, bolt, authOk).Approved?
    ensures Approve(s, id, bolt, true) == Approve(s, id, bolt, authOk)
  {
    hide Find, Write, Log, NextStage, Scoped, Pos;
  }

  lemma CanStickGoesOn(s: State)
    requires Valid(s) && CanStick(s)
    ensures TakeTurn(s, CALM).Continue? && Valid(TakeTurn(s, CALM).state) && CanStick(TakeTurn(s, CALM).state)
  {
    hide TakeTurn, Valid, OpenOrphan, Approve, NoRow, FirstWith;
    NoneInProgress(s.rows);
    var p := FirstWith(s.rows, AwaitingApproval);
    TurnKeepsValid(s, CALM);
    if p < |s.rows| {
      AwaitingTurn(s, CALM);
    } else {
      RestGoesOn(s, CALM);
      NoneInProgress(TakeTurn(s, CALM).state.rows);
      RestParts(TakeTurn(s, CALM).state);
    }
  }

  lemma {:induction false} CalmLoop(s: State, n: nat)
    requires Valid(s) && CanStick(s)
    ensures var t := Loop(s, (i: nat) => CALM, n); Valid(t) && CanStick(t) && TakeTurn(t, CALM).Continue?
  {
    hide Valid, CanStick, TakeTurn, Loop;
    var world := (i: nat) => CALM;
    LoopStep(s, world, 0);
    if n > 0 {
      CalmLoop(s, n - 1);
      LoopStep(s, world, n - 1);
      CanStickGoesOn(Loop(s, world, n - 1));
    }
    CanStickGoesOn(Loop(s, world, n));
  }

  lemma CalmDiverges(s: State)
    requires Valid(s) && CanStick(s)
    ensures Diverges(s, (i: nat) => CALM)
  {
    hide Valid, CanStick, TakeTurn, Loop;
    var world := (i: nat) => CALM;
    forall n: nat
      ensures TakeTurn(Loop(s, world, n), world(n)).Continue?
    {
      CalmLoop(s, n);
    }
  }

  lemma LaterDiverges(s: State, world: nat -> World)
    requires Diverges(s, world)
    ensures Diverges(TakeTurn(s, world(0)).state, (i: nat) => world(1 + i)) && TakeTurn(s, world(0)).Continue?
  {
    hide TakeTurn, Loop;
    var later := (i: nat) => world(1 + i);
    LoopStep(s, world, 0);
    forall k: nat
      ensures TakeTurn(Loop(TakeTurn(s, world(0)).state, later, k), later(k)).Continue?
    {
      LoopFrom(s, world, 1, k);
      assert TakeTurn(Loop(s, world, 1 + k), world(1 + k)).Continue?;
    }
  }

  lemma {:induction false} DivergesCanStick(s: State, world: nat -> World)
    requires Valid(s) && Diverges(s, world)
    ensures CanStick(s)
    decreases BoltsLeft(s), MergeLeft(s), Missing(s), Weight(s.rows, |s.rows|), Open(s.bolts)
  {
    hide TakeTurn, Valid, OpenOrphan, Approve, NoRow, FirstWith, Diverges, Doomed, BoltsLeft, MergeLeft, Missing, Weight, Open;
    LaterDiverges(s, world);
    GoingOnIsNotWaiting(s, world(0));
    GoesOnUncancelled(s, world(0));
    NoneInProgress(s.rows);
    if !AutoMode(s.mode) {
      CannotStickStops(s, world);
    }
    var p := FirstWith(s.rows, AwaitingApproval);
    if p < |s.rows| {
      var r := s.rows[p];
      AwaitingTurn(s, world(0));
      AuthOnlyHelps(s, r.stage, r.bolt, world(0).authOk);
      ApproveGoesOn(s, r.stage, r.bolt);
      DivergesCanStick(TakeTurn(s, world(0)).state, (i: nat) => world(1 + i));
    } else if !OpenOrphan(s) {
      CannotStickStops(s, world);
    }
  }

  /** Whether some behaviour of the outside world makes the loop go on for ever can be read off the state
      it starts in: the mode is automatic, nothing is in progress, the waiting approvals go through, and
      then a planned bolt has a revising row of a stage out of scope, with no revising row before it that
      the loop would stop at. */
  lemma CanDivergeExactlyWhen(s: State)
    requires Valid(s)
    ensures (exists world: nat -> World :: Diverges(s, world)) <==> CanStick(s)
  {
    hide Valid, CanStick, Diverges;
    if world: nat -> World :| Diverges(s, world) {
      DivergesCanStick(s, world);
    }
    if CanStick(s) {
      CalmDiverges(s);
    }
  }

  /** With nothing awaiting approval, the condition is the last part alone. */
  lemma CanDivergeAtRest(s: State)
    requires Rests(s)
    ensures (exists world: nat -> World :: Diverges(s, world)) <==> OpenOrphan(s)
  {
    hide Valid, OpenOrphan, Diverges, NoRow, FirstWith;
    NoneInProgress(s.rows);
    CanDivergeExactlyWhen(s);
  }
}
