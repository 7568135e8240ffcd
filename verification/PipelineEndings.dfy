/** What the end of an operation says about the state it leaves: the status of a bolt after its run, the
    reason a turn of the loop gives for stopping, the loop's choice when nothing is active, and a restart. */
module PipelineEndings {
  import opened Basics
  import opened StageTable
  import opened BoltPlan
  import opened PipelineModel
  import opened PipelineEffects
  import opened PipelineTermination
  import opened PipelineSafety
  import opened PipelineTheorems
  import opened PipelineGates
  import opened PipelineOutcomes
  import opened PipelineDecisions

  // ----- the status of a bolt

  /** The agent of the stage was dispatched and has exited. */
  predicate Exited(run: AgentRun) {
    run.Dispatched? && run.ending.Finished?
  }

  /** The status a run leaves its bolt in: done, pending again when it stops at a gate, broken when a
      dispatch ends in an error, and still running when the smoke check or the reviewer halts it. */
  function StatusLeft(end: BoltEnd, agent: StageId -> AgentRun): BoltStatus {
    match end
    case BoltFinished => Done
    case BoltHalted(at) => if Exited(agent(at)) then Running else Broken
    case _ => Pending
  }

  lemma SetStatus(bolts: seq<Bolt>, b: nat, status: BoltStatus)
    requires BoltAt(bolts, b) < |bolts|
    ensures var c := SetBolt(bolts, b, status); var k := BoltAt(bolts, b);
            |c| == |bolts| && BoltAt(c, b) == k && c[k].status == status
  {
  }

  lemma ExitedRuns(s: State, id: StageId, run: AgentRun)
    requires CanRun(s, id)
    ensures RunStage(s, id, run).StageRan? <==> Exited(run)
  {
    hide RunStage, CanRun;
    if run.Dispatched? {
      RunStageGate(s, id, run.signal, run.ending);
    } else {
      NotDispatched(s, id, run);
    }
  }

  /** How the run of a bolt goes on from stage 3.m. */
  lemma StageOfBolt(s: State, b: nat, m: nat, agent: StageId -> AgentRun, results: seq<StageResult>)
    requires 1 <= m <= 5 && !SkipsInBolt(s, StageId(3, m), b)
    ensures var id := StageId(3, m); var r := RunStage(s, id, agent(id)); var run := BoltStages(s, b, m, agent, results);
            && (r.StageError? ==> run.end == BoltHalted(id) && run.state.bolts == SetBolt(r.state.bolts, b, Broken))
            && (r.StageRan? && r.result.gateOpen && AutoMode(s.mode) ==>
                  var a := Approve(r.state, id, b, true);
                  if a.Approved? then run == BoltStages(a.state, b, m + 1, agent, results + [r.result])
                  else run.end == BoltStalled && run.state.bolts == SetBolt(a.state.bolts, b, Pending))
            && (r.StageRan? && r.result.gateOpen && !AutoMode(s.mode) ==>
                  run.end == BoltPaused && run.state.bolts == SetBolt(r.state.bolts, b, Pending))
            && (r.StageRan? && !r.result.gateOpen && (r.result.source == SmokeFailed || r.result.source == ReviewerRejected) ==>
                  run.end == BoltHalted(id) && run.state.bolts == r.state.bolts)
  {
    hide RunStage, Approve, SkipsInBolt;
  }

  lemma StageNotRun(s: State, b: nat, m: nat, agent: StageId -> AgentRun, results: seq<StageResult>)
    requires 1 <= m <= 6
    ensures m == 6 ==> var run := BoltStages(s, b, m, agent, results);
                       run.end == BoltFinished && run.state.bolts == SetBolt(s.bolts, b, Done)
    ensures m < 6 && SkipsInBolt(s, StageId(3, m), b) ==>
              BoltStages(s, b, m, agent, results) == BoltStages(s, b, m + 1, agent, results)
  {
    hide RunStage, Approve, SkipsInBolt;
  }

  /** A stage that was approved leaves the bolt ready for the next. */
  lemma ReadyForNext(s: State, b: nat, m: nat, run: AgentRun)
    requires Valid(s) && 1 <= m <= 5 && s.currentBolt == b && b > 0 && RowsReady(s, b)
    requires var r := RunStage(s, StageId(3, m), run);
             r.StageRan? && r.result.gateOpen && Approve(r.state, StageId(3, m), b, true).Approved?
    ensures var t := Approve(RunStage(s, StageId(3, m), run).state, StageId(3, m), b, true).state;
            Valid(t) && t.currentBolt == b && RowsReady(t, b)
  {
    hide RunStage, Approve, Find, Valid, BoltFrame, RowsReady, Frame, GateMatches, BoltStep, AllGoOn;
    var t := Approve(RunStage(s, StageId(3, m), run).state, StageId(3, m), b, true).state;
    StepOfRun(s, b, m, run);
    StepKeepsOthers(s, t, b, m, (id: StageId) => run);
    FrameFacts(s, t, b, StageId(3, m));
  }

  lemma BoltsKept(s: State, b: nat, m: nat, run: AgentRun)
    requires Valid(s) && 1 <= m <= 5 && s.currentBolt == b
    ensures var r := RunStage(s, StageId(3, m), run);
            && r.state.bolts == s.bolts
            && (r.StageRan? && r.result.gateOpen ==> Approve(r.state, StageId(3, m), b, true).state.bolts == s.bolts)
  {
    hide RunStage, Approve, Find, Valid, BoltFrame, GateMatches, BoltStep;
    var id := StageId(3, m);
    var r := RunStage(s, id, run);
    RunInBolt(s, b, m, run);
    if r.StageRan? && r.result.gateOpen {
      FrameFacts(s, r.state, b, id);
      ApproveInBolt(s, r.state, b, m, Find(s.rows, id, b), r.result);
    }
  }

  lemma {:induction false} StagesLeave(s: State, b: nat, m: nat, agent: StageId -> AgentRun, results: seq<StageResult>)
    requires Valid(s) && 1 <= m <= 6 && s.currentBolt == b && b > 0 && RowsReady(s, b)
    requires var k := BoltAt(s.bolts, b); k < |s.bolts| && s.bolts[k].status == Running
    ensures var r := BoltStages(s, b, m, agent, results); var k := BoltAt(s.bolts, b);
            k < |r.state.bolts| && r.state.bolts[k].status == StatusLeft(r.end, agent) && r.end != BoltError
    decreases 6 - m
  {
    hide RunStage, Approve, SkipsInBolt, Valid, RowsReady, CanRun, Exited, BoltStages, AutoMode;
    StageNotRun(s, b, m, agent, results);
    SetStatus(s.bolts, b, Done);
    if m < 6 {
      var id := StageId(3, m);
      if SkipsInBolt(s, id, b) {
        StagesLeave(s, b, m + 1, agent, results);
      } else {
        var r := RunStage(s, id, agent(id));
        StageOfBolt(s, b, m, agent, results);
        RunnableInBolt(s, b, m);
        ExitedRuns(s, id, agent(id));
        BoltsKept(s, b, m, agent(id));
        SetStatus(s.bolts, b, Broken);
        SetStatus(s.bolts, b, Pending);
        ClosedIsTurnedDown(s, id, agent(id));
        if r.StageRan? && r.result.gateOpen && AutoMode(s.mode) {
          var a := Approve(r.state, id, b, true);
          if a.Approved? {
            ReadyForNext(s, b, m, agent(id));
            StagesLeave(a.state, b, m + 1, agent, results + [r.result]);
          }
        }
      }
    }
  }

  /** The status of a bolt after its run, by how the run ended. */
  lemma BoltIsLeft(s: State, b: nat, agent: StageId -> AgentRun)
    requires Valid(s) && b > 0 && BoltAt(s.bolts, b) < |s.bolts|
    ensures var r := RunBolt(s, b, agent); var k := BoltAt(s.bolts, b);
            k < |r.state.bolts| && r.state.bolts[k].status == StatusLeft(r.end, agent) && r.end != BoltError
  {
    hide BoltStages, Valid, RowsReady, Exited, InitBolt;
    StartIsValid(s, b);
    StartIsReady(s, b);
    SetStatus(s.bolts, b, Running);
    StagesLeave(StartBolt(s, b), b, 1, agent, []);
  }

  // ----- why the loop stops

  ghost predicate SomeRow(rows: seq<Row>, status: Status) {
    exists i :: 0 <= i < |rows| && rows[i].status == status
  }

  lemma {:induction false} PausedAtGate(s: State, b: nat, m: nat, agent: StageId -> AgentRun, results: seq<StageResult>)
    requires Valid(s) && 1 <= m <= 6 && s.currentBolt == b && b > 0
    requires BoltStages(s, b, m, agent, results).end.BoltPaused?
    ensures var t := BoltStages(s, b, m, agent, results).state;
            !AutoMode(s.mode) && (SomeRow(t.rows, AwaitingApproval) || SomeRow(t.rows, Revising))
    decreases 6 - m
  {
    hide RunStage, Approve, Find, SkipsInBolt, Valid, BoltFrame, Frame;
    var id := StageId(3, m);
    if m < 6 {
      if SkipsInBolt(s, id, b) {
        PausedAtGate(s, b, m + 1, agent, results);
      } else {
        var r := RunStage(s, id, agent(id));
        RunInBolt(s, b, m, agent(id));
        FrameFacts(s, r.state, b, id);
        ClosedIsTurnedDown(s, id, agent(id));
        if r.StageRan? && r.result.gateOpen && AutoMode(s.mode) {
          var i := Find(s.rows, id, b);
          ApproveInBolt(s, r.state, b, m, i, r.result);
          var a := Approve(r.state, id, b, true);
          if a.Approved? {
            BoltFrameIsTransitive(s, r.state, a.state, b);
            FrameFacts(s, a.state, b, id);
            PausedAtGate(a.state, b, m + 1, agent, results + [r.result]);
          }
        }
      }
    }
  }

  lemma BoltPausedAtGate(s: State, b: nat, agent: StageId -> AgentRun)
    requires Valid(s) && b > 0 && RunBolt(s, b, agent).end.BoltPaused?
    ensures var t := RunBolt(s, b, agent).state; SomeRow(t.rows, AwaitingApproval) || SomeRow(t.rows, Revising)
  {
    hide BoltStages, Valid, StartBolt;
    StartIsValid(s, b);
    PausedAtGate(StartBolt(s, b), b, 1, agent, []);
  }

  /** What each reason for stopping means for the state in which the loop stops. */
  ghost predicate Means(s: State, t: State, reason: StopReason) {
    match reason
    case Cancelled => t == s
    case AllDone =>
      && t.finished && NoRow(s.rows, InProgress) && NoRow(s.rows, AwaitingApproval) && NoRow(s.rows, Revising)
      && (forall k :: 0 <= k < |s.rows| ==> !ToRun(s, s.rows[k]))
    case Waiting => t == s && (SomeRow(s.rows, InProgress) || (s.mode != Guided && s.mode != Autonomous && SomeRow(s.rows, Revising)))
    case AtGate => SomeRow(t.rows, AwaitingApproval) || SomeRow(t.rows, Revising)
    case ApproveFailed => (s.mode == Guided || s.mode == Autonomous) && SomeRow(s.rows, AwaitingApproval)
    case BoltFailure =>
      || (exists b: nat :: LeftUnfinished(t, b))
      || (exists i :: 0 <= i < |s.rows| && s.rows[i].status == Revising && BoltAt(s.bolts, s.rows[i].bolt) == |s.bolts|)
    case StageFailure => SomeRow(t.rows, InProgress) || SomeRow(t.rows, Revising) || SomeRow(t.rows, Failed)
  }

  /** The bolt is broken, or was halted while it ran. */
  predicate LeftUnfinished(t: State, b: nat) {
    var k := BoltAt(t.bolts, b);
    k < |t.bolts| && (t.bolts[k].status == Broken || t.bolts[k].status == Running)
  }

  lemma IdleStops(s: State)
    requires Valid(s)
    ensures var d := Decide(s);
            && (d.action.ActDone? ==>
                  && NoRow(s.rows, InProgress) && NoRow(s.rows, AwaitingApproval) && NoRow(s.rows, Revising)
                  && (forall k :: 0 <= k < |s.rows| ==> !ToRun(s, s.rows[k])))
            && (d.action.ActWait? ==>
                  d.state == s && (SomeRow(s.rows, InProgress) || (!AutoMode(s.mode) && SomeRow(s.rows, Revising))))
            && (d.action.ActNeedsHuman? || d.action.ActAutoApprove? ==> d.state == s && SomeRow(s.rows, AwaitingApproval))
            && (d.action.ActAutoApprove? ==> AutoMode(s.mode))
  {
    hide Valid, NextStage, FirstToRun, ToRun, StageDone;
    NextStageIsFirst(s);
    assert forall status :: FirstWith(s.rows, status) < |s.rows| ==> SomeRow(s.rows, status);
  }

  lemma HaltedIsUnfinished(s: State, b: nat, agent: StageId -> AgentRun)
    requires Valid(s) && b > 0 && BoltAt(s.bolts, b) < |s.bolts| && RunBolt(s, b, agent).end.BoltHalted?
    ensures LeftUnfinished(RunBolt(s, b, agent).state, b)
  {
    hide BoltStages, Valid, StartBolt, Exited;
    BoltIsLeft(s, b, agent);
    StartIsValid(s, b);
    BoltStagesEffect(StartBolt(s, b), b, 1, agent, []);
    OutcomeFrame(StartBolt(s, b), RunBolt(s, b, agent), b, 1);
    BoltFrameBolts(StartBolt(s, b), RunBolt(s, b, agent).state, b);
    StartBoltAt(s, b);
  }

  lemma StartBoltAt(s: State, b: nat)
    ensures BoltAt(StartBolt(s, b).bolts, b) == BoltAt(s.bolts, b)
  {
    hide InitBolt;
    var c := SetBolt(s.bolts, b, Running);
    assert forall i :: 0 <= i < |c| ==> c[i].number == s.bolts[i].number;
  }

  lemma NoSuchBolt(s: State, b: nat, agent: StageId -> AgentRun)
    requires BoltAt(s.bolts, b) == |s.bolts|
    ensures RunBolt(s, b, agent).end == BoltError
  {
  }

  lemma MissingBolt(s: State, b: nat)
    requires Decide(s).action == ActRunBolt(b)
    ensures BoltAt(s.bolts, b) < |s.bolts| || exists i :: 0 <= i < |s.rows| && s.rows[i].status == Revising && s.rows[i].bolt == b
  {
    hide NextStage, StageDone, HasNotStarted;
    var k := FirstToRun(s, 0);
    var p := FirstWith(s.rows, Revising);
    if p == |s.rows| {
      assert s.bolts[k].number == b;
    }
  }

  /** A reason for stopping is never given without what it stands for. */
  lemma StopsForItsReason(s: State, w: World)
    requires Valid(s) && TakeTurn(s, w).Stop?
    ensures Means(s, TakeTurn(s, w).state, TakeTurn(s, w).reason)
    ensures TakeTurn(s, w).reason == Cancelled <==> w.cancelled
  {
    hide Decide, Approve, RunBolt, RunStage, ProcessStageResult, Valid, Plan, ToRun, NoRow, SomeRow, LeftUnfinished, Find, EndsStage;
    if !w.cancelled {
      var d := Decide(s);
      IdleStops(s);
      DecideKeepsValid(s);
      match d.action
      case ActRunBolt(b) =>
        DecideBolt(s, b);
        if BoltAt(s.bolts, b) < |s.bolts| {
          BoltIsLeft(s, b, w.agent);
          if RunBolt(s, b, w.agent).end.BoltPaused? {
            BoltPausedAtGate(s, b, w.agent);
          } else if RunBolt(s, b, w.agent).end.BoltHalted? {
            HaltedIsUnfinished(s, b, w.agent);
            assert LeftUnfinished(TakeTurn(s, w).state, b);
          }
        } else {
          MissingBolt(s, b);
          NoSuchBolt(s, b, w.agent);
        }
      case ActRunStage(id) =>
        StageTurnEnds(s, w);
        EndedStageMeans(s, w);
      case _ =>
    }
  }

  lemma EndedStageMeans(s: State, w: World)
    requires Valid(s) && !w.cancelled && Decide(s).action.ActRunStage? && TakeTurn(s, w).Stop?
    ensures TakeTurn(s, w).reason == AtGate || TakeTurn(s, w).reason == StageFailure
    ensures Means(s, TakeTurn(s, w).state, TakeTurn(s, w).reason)
  {
    hide Decide, TakeTurn, Valid, Find, TurnedDown, NeedsNobody, ToRun, LeftUnfinished;
    StageTurnEnds(s, w);
    var t := TakeTurn(s, w).state;
    var row := t.rows[Find(s.rows, Decide(s).action.stage, 0)];
    assert SomeRow(t.rows, row.status);
  }

  // ----- the loop's choice when nothing is active

  predicate IsCompleted(s: State, id: StageId) {
    exists i | 0 <= i < |s.rows| :: s.rows[i].stage == id && s.rows[i].status == Completed
  }

  /** The bolt is not done, and some stage of it has not started. */
  predicate HasWork(s: State, b: Bolt) {
    b.status != Done && exists i | 0 <= i < |s.rows| ::
      s.rows[i].bolt == b.number && s.rows[i].status == NotStarted && s.rows[i].stage.major == 3 && 1 <= s.rows[i].stage.minor <= 5
  }

  /** The merge, once 3.7 is completed, is tried only when no attempt and no success is on record. */
  predicate MergeIsDue(s: State) {
    IsCompleted(s, StageId(3, 7)) && MergeAttempted !in s.audit && MergedToMain !in s.audit
  }

  /** With no active row: bolts are prepared, run and merged before the next linear stage is started.  They
      wait for 2.8 and 3.7. */
  lemma IdleDecides(s: State)
    requires Valid(s) && NoRow(s.rows, InProgress) && NoRow(s.rows, AwaitingApproval) && NoRow(s.rows, Revising)
    ensures var a := Decide(s).action; var planned := IsCompleted(s, StageId(2, 8));
            var work := planned && exists k :: 0 <= k < |s.bolts| && HasWork(s, s.bolts[k]);
            && (a.ActPrepareBolts? <==> planned && s.bolts == [])
            && (a.ActRunBolt? <==> work)
            && (a.ActRunBolt? ==> exists k :: 0 <= k < |s.bolts| && a.bolt == s.bolts[k].number && HasWork(s, s.bolts[k])
                                              && forall j :: 0 <= j < k ==> !HasWork(s, s.bolts[j]))
            && (a.ActMerge? <==> MergeIsDue(s) && !work && !(planned && s.bolts == []))
            && (a.ActRunStage? ==> exists p :: 0 <= p < |s.rows| && s.rows[p].stage == a.stage && ToRun(s, s.rows[p])
                                              && forall k :: 0 <= k < p ==> !ToRun(s, s.rows[k]))
            && (a.ActDone? ==> forall k :: 0 <= k < |s.rows| ==> !ToRun(s, s.rows[k]))
            && !a.ActWait? && !a.ActNeedsHuman? && !a.ActAutoApprove?
  {
    hide Valid, NextStage, ToRun, HasNotStarted, StageDone, IsCompleted, HasWork;
    NextStageIsFirst(s);
    CompletedIs(s, StageId(2, 8));
    CompletedIs(s, StageId(3, 7));
    forall k | 0 <= k < |s.bolts|
      ensures HasWork(s, s.bolts[k]) <==> NeedsRun(s, s.bolts[k])
    {
      WorkIs(s, s.bolts[k]);
    }
  }

  lemma CompletedIs(s: State, id: StageId)
    ensures IsCompleted(s, id) <==> StageDone(s.rows, id)
  {
  }

  lemma WorkIs(s: State, b: Bolt)
    ensures HasWork(s, b) <==> NeedsRun(s, b)
  {
  }

  // ----- restart

  /** A restart makes the rows in progress revising, with no revision counted, and touches no other row; a
      finished feature and one whose session survived are left alone. */
  lemma RestartRows(s: State, live: bool)
    requires Valid(s)
    ensures var t := Restore(s, live);
            && (s.finished || live ==> t == s) && |t.rows| == |s.rows|
            && forall i :: !s.finished && !live && 0 <= i < |s.rows| ==>
                 t.rows[i] == if s.rows[i].status == InProgress then Row(s.rows[i].stage, s.rows[i].bolt, Revising, 0) else s.rows[i]
  {
    hide RestoreRows, Valid, GateFrame, Clean;
    RestoreEffect(s, s.rows, 0);
  }
}
