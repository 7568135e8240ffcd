/** What becomes of a stage's row, written out status by status: after its dispatch, after its gate, and
    what the loop makes of it in the turns that follow. */
module PipelineOutcomes {
  import opened Basics
  import opened StageTable
  import opened BoltPlan
  import opened PipelineModel
  import opened PipelineEffects
  import opened PipelineTermination
  import opened PipelineSafety
  import opened PipelineGates

  // ----- the row a dispatch leaves

  /** The agent signalled success, or sent no signal and exited well. */
  predicate SaysPass(signal: Option<Outcome>, exitOk: bool) {
    signal == Some(Pass) || (signal.None? && exitOk)
  }

  /** The agent signalled failure, or sent no signal and exited with an error. */
  predicate SaysFail(signal: Option<Outcome>, exitOk: bool) {
    signal == Some(Fail) || (signal.None? && !exitOk)
  }

  /** The smoke check or the reviewer turns a stage down that said it passed. */
  predicate TurnedDown(def: StageDef, signal: Option<Outcome>, exitOk: bool, smokeFails: bool, review: Review) {
    SaysPass(signal, exitOk) && (smokeFails || (def.hasReviewer && review == NotReady))
  }

  /** The row left by a dispatch of a stage that had the given revisions. */
  function RowLeft(def: StageDef, b: nat, rev: nat, signal: Option<Outcome>, ending: Ending): Row {
    match ending
    case Interrupted => Row(def.id, b, InProgress, rev)
    case Quota => Row(def.id, b, Revising, rev)
    case Crashed => Row(def.id, b, Failed, rev)
    case Finished(exitOk, smokeFails, review) =>
      if TurnedDown(def, signal, exitOk, smokeFails, review) then Row(def.id, b, Revising, rev + 1)
      else if SaysFail(signal, exitOk) then Row(def.id, b, Revising, rev)
      else Row(def.id, b, AwaitingApproval, rev)
  }

  lemma WrittenRow(s: State, id: StageId, b: nat, status: Status, rev: nat)
    requires Find(s.rows, id, b) < |s.rows|
    ensures var t := Write(s, id, b, status, rev); var i := Find(s.rows, id, b);
            |t.rows| == |s.rows| && t.rows[i] == Row(id, b, status, rev) && Find(t.rows, id, b) == i
            && t.outcomes == s.outcomes && t.audit == s.audit
  {
    WriteTouches(s, id, b, status, rev);
    TouchFinds(s, Write(s, id, b, status, rev), id, b);
  }

  lemma FinishLeaves(s: State, def: StageDef, b: nat, rev: nat, signal: Option<Outcome>,
                    exitOk: bool, smokeFails: bool, review: Review)
    requires Find(s.rows, def.id, b) < |s.rows|
    ensures var r := FinishStage(s, def, b, rev, Verdict(signal, exitOk), FirstSource(signal, exitOk), smokeFails, review);
            var down := TurnedDown(def, signal, exitOk, smokeFails, review);
            && |r.state.rows| == |s.rows| && r.state.outcomes == s.outcomes
            && r.state.rows[Find(s.rows, def.id, b)] == RowLeft(def, b, rev, signal, Finished(exitOk, smokeFails, review))
            && r.result == StageResult(def.id, b,
                 if down && smokeFails then SmokeFailed else if down then ReviewerRejected
                 else if signal.Some? then AgentSignal else if exitOk then DefaultPass else AgentFailed, !down)
  {
    hide Write, Find;
    var id := def.id;
    var s1 := Log(s, SubagentCompleted(id));
    WrittenRow(s, id, b, Revising, rev + 1);
    WrittenRow(s1, id, b, Revising, rev + 1);
    WrittenRow(s, id, b, AwaitingApproval, rev);
    WrittenRow(s1, id, b, AwaitingApproval, rev);
    WrittenRow(Log(Write(s, id, b, AwaitingApproval, rev), StageAwaiting(id)), id, b, Revising, rev);
    WrittenRow(Log(Write(s1, id, b, AwaitingApproval, rev), StageAwaiting(id)), id, b, Revising, rev);
  }

  lemma EndLeaves(s: State, def: StageDef, b: nat, rev: nat, signal: Option<Outcome>, ending: Ending)
    requires var i := Find(s.rows, def.id, b); i < |s.rows| && s.rows[i] == Row(def.id, b, InProgress, rev)
    ensures var r := EndDispatch(s, def, b, rev, signal, ending);
            && |r.state.rows| == |s.rows| && r.state.outcomes == s.outcomes
            && r.state.rows[Find(s.rows, def.id, b)] == RowLeft(def, b, rev, signal, ending)
            && (r.StageRan? <==> ending.Finished?)
  {
    hide Write, Find, FinishStage, Verdict, FirstSource;
    match ending
    case Interrupted =>
    case Quota => WrittenRow(Log(s, QuotaExhausted(def.id)), def.id, b, Revising, rev);
    case Crashed => WrittenRow(s, def.id, b, Failed, rev);
    case Finished(exitOk, smokeFails, review) => FinishLeaves(s, def, b, rev, signal, exitOk, smokeFails, review);
  }

  /** The row, the recorded outcome and the result of a dispatch, for each way it can end: a stage short
      of quota is revising, a crashed one failed, and only the smoke check and the reviewer add a revision. */
  lemma DispatchLeaves(s: State, id: StageId, signal: Option<Outcome>, ending: Ending)
    requires CanRun(s, id)
    ensures var r := RunStage(s, id, Dispatched(signal, ending));
            var i, b, def := Find(s.rows, id, BoltFor(s, id)), BoltFor(s, id), s.defs[Pos(s.defs, id)];
            && |r.state.rows| == |s.rows|
            && r.state.rows[i] == RowLeft(def, b, s.rows[i].revisions, signal, ending)
            && r.state.outcomes == (if signal.Some? then s.outcomes[id := signal.value] else s.outcomes - {id})
            && (r.StageRan? <==> ending.Finished?)
  {
    hide Write, Find, EndDispatch, RowLeft;
    var b := BoltFor(s, id);
    var i := Find(s.rows, id, b);
    var rev := s.rows[i].revisions;
    WrittenRow(s, id, b, InProgress, rev);
    var started := Log(Write(s, id, b, InProgress, rev), StageStart(id));
    var sent := started.(outcomes := if signal.Some? then (started.outcomes - {id})[id := signal.value]
                                     else started.outcomes - {id});
    EndLeaves(sent, s.defs[Pos(s.defs, id)], b, rev, signal, ending);
    if signal.Some? {
      assert (s.outcomes - {id})[id := signal.value] == s.outcomes[id := signal.value];
    }
  }

  /** Where the result of a finished dispatch comes from, and whether its gate is open. */
  lemma DispatchResult(s: State, id: StageId, signal: Option<Outcome>, exitOk: bool, smokeFails: bool, review: Review)
    requires CanRun(s, id)
    ensures var r := RunStage(s, id, Dispatched(signal, Finished(exitOk, smokeFails, review)));
            var down := TurnedDown(s.defs[Pos(s.defs, id)], signal, exitOk, smokeFails, review);
            r.StageRan? && r.result == StageResult(id, BoltFor(s, id),
              if down && smokeFails then SmokeFailed else if down then ReviewerRejected
              else if signal.Some? then AgentSignal else if exitOk then DefaultPass else AgentFailed, !down)
  {
    hide Write, Find, FinishStage, TurnedDown, Verdict, FirstSource;
    var b := BoltFor(s, id);
    var rev := s.rows[Find(s.rows, id, b)].revisions;
    WrittenRow(s, id, b, InProgress, rev);
    var started := Log(Write(s, id, b, InProgress, rev), StageStart(id));
    var sent := started.(outcomes := if signal.Some? then (started.outcomes - {id})[id := signal.value]
                                     else started.outcomes - {id});
    FinishLeaves(sent, s.defs[Pos(s.defs, id)], b, rev, signal, exitOk, smokeFails, review);
  }

  /** A dispatch whose context or role cannot be built leaves the row in progress; the old outcome is
      forgotten only once the context is there. */
  lemma NothingDispatched(s: State, id: StageId, run: AgentRun)
    requires CanRun(s, id) && !run.Dispatched?
    ensures var r := RunStage(s, id, run); var i := Find(s.rows, id, BoltFor(s, id));
            && r.StageError? && |r.state.rows| == |s.rows|
            && r.state.rows[i] == Row(id, BoltFor(s, id), InProgress, s.rows[i].revisions)
            && r.state.outcomes == if run.ContextError? then s.outcomes else s.outcomes - {id}
  {
    hide Write, Find;
    WrittenRow(s, id, BoltFor(s, id), InProgress, s.rows[Find(s.rows, id, BoltFor(s, id))].revisions);
  }

  // ----- the gate of a linear stage

  predicate IsInitialization(s: State, id: StageId) {
    exists i | 0 <= i < |s.defs| :: s.defs[i].id == id && s.defs[i].phase == Initialization
  }

  /** Which stages are approved without a person: all in the initialization phase, all in autonomous
      mode, and in guided mode all but the last stages of the four phases. */
  predicate NeedsNobody(s: State, id: StageId) {
    || IsInitialization(s, id)
    || match s.mode
       case Unset => false
       case Human => false
       case Guided => id != StageId(1, 7) && id != StageId(2, 8) && id != StageId(3, 7) && id != StageId(4, 7)
       case Autonomous => true
  }

  lemma InitializationIs(s: State, id: StageId)
    requires DistinctIds(s.defs)
    ensures IsInitialization(s, id) <==> IsInitStage(s.defs, id)
  {
    var p := Pos(s.defs, id);
    if i :| 0 <= i < |s.defs| && s.defs[i].id == id && s.defs[i].phase == Initialization {
      PosOf(s.defs, i);
    }
  }

  /** An open gate after a signal or a good exit: who decides, and the row that is left. */
  lemma GateDecides(s: State, id: StageId, result: StageResult)
    requires DistinctIds(s.defs) && Pos(s.defs, id) < |s.defs| && Find(s.rows, id, result.bolt) < |s.rows|
    requires result.gateOpen && (result.source == AgentSignal || result.source == DefaultPass)
    ensures var q := ProcessStageResult(s, id, result); var i := Find(s.rows, id, result.bolt);
            && q.outcome == (if NeedsNobody(s, id) then AutoApproved else NeedsReview)
            && |q.state.rows| == |s.rows|
            && q.state.rows[i] == Row(id, result.bolt, if NeedsNobody(s, id) then Completed else AwaitingApproval,
                                      s.rows[i].revisions)
  {
    hide Write, Find, IsInitialization, IsInitStage;
    InitializationIs(s, id);
    var rev := s.rows[Find(s.rows, id, result.bolt)].revisions;
    WrittenRow(s, id, result.bolt, Completed, rev);
    WrittenRow(s, id, result.bolt, AwaitingApproval, rev);
  }

  /** A failed agent, a failed smoke check and a rejection by the reviewer: the row is revising, with no
      further revision. */
  lemma FailureRevises(s: State, id: StageId, result: StageResult)
    requires Find(s.rows, id, result.bolt) < |s.rows|
    requires result.source == AgentFailed || result.source == SmokeFailed || result.source == ReviewerRejected
    ensures var q := ProcessStageResult(s, id, result); var i := Find(s.rows, id, result.bolt);
            && q.outcome == OutcomeFailed && |q.state.rows| == |s.rows|
            && q.state.rows[i] == Row(id, result.bolt, Revising, s.rows[i].revisions)
  {
    hide Write, Find;
    WrittenRow(s, id, result.bolt, Revising, s.rows[Find(s.rows, id, result.bolt)].revisions);
  }

  // ----- in the loop

  /** The row a turn picks to run, in the state the decision leaves: no row is in progress or awaiting
      approval, and none before it is revising. */
  ghost predicate Picked(s: State, t: State, id: StageId, p: nat) {
    && PicksStage(s, t, id, p) && |t.rows| == |s.rows|
    && NoRow(t.rows, InProgress) && NoRow(t.rows, AwaitingApproval)
    && forall j :: 0 <= j < p ==> t.rows[j].status != Revising
  }

  lemma PicksFirst(s: State) returns (p: nat)
    requires Valid(s) && Decide(s).action.ActRunStage?
    ensures Picked(s, Decide(s).state, Decide(s).action.stage, p)
  {
    hide Valid, ScanFrame, NextStage, Skips;
    var d := Decide(s);
    p := FirstWith(s.rows, Revising);
    if p < |s.rows| {
      ScanFrameIsReflexive(s);
      LinearHasNoBolt(s, p);
    } else {
      ScanEffect(s, s.rows, 0);
      p := ScanEnd(s, s.rows, 0);
      LinearHasNoBolt(s, p);
      SkippedStatuses(s.rows, d.state.rows, 0, p);
    }
    ScanFrameParts(s, d.state);
  }

  lemma ScanFrameParts(s: State, t: State)
    requires ScanFrame(s, t)
    ensures Valid(t) && |t.rows| == |s.rows| && t.defs == s.defs && t.mode == s.mode && t.scope == s.scope
  {
  }

  lemma SkippedStatuses(a: seq<Row>, c: seq<Row>, k: nat, p: nat)
    requires SkippedIn(a, c, k, p)
    requires NoRow(a, InProgress) && NoRow(a, AwaitingApproval) && NoRow(a, Revising)
    ensures NoRow(c, InProgress) && NoRow(c, AwaitingApproval) && NoRow(c, Revising)
  {
  }

  lemma PickedCanRun(s: State, t: State, id: StageId, p: nat)
    requires Valid(s) && Picked(s, t, id, p)
    ensures CanRun(t, id) && !IsPerBolt(id) && BoltFor(t, id) == 0
    ensures Find(t.rows, id, 0) == p == Find(s.rows, id, 0) && p < |t.rows| == |s.rows| && t.rows[p] == s.rows[p]
    ensures Valid(t) && t.defs == s.defs && t.mode == s.mode
  {
    ScanFrameParts(s, t);
    KeyIsUnique(t, p, id, 0);
    KeyIsUnique(s, p, id, 0);
    assert t.rows[p] in t.rows;
  }

  /** Everything a turn can make of the stage it runs: how it ends, and the row it leaves. */
  predicate EndsStage(s: State, id: StageId, run: AgentRun, turn: Turn, row: Row, rev: nat)
    requires Pos(s.defs, id) < |s.defs|
  {
    if !run.Dispatched? then turn.Stop? && turn.reason == StageFailure && row == Row(id, 0, InProgress, rev)
    else
      match run.ending
      case Interrupted => turn.Stop? && turn.reason == StageFailure && row == Row(id, 0, InProgress, rev)
      case Quota => turn.Stop? && turn.reason == StageFailure && row == Row(id, 0, Revising, rev)
      case Crashed => turn.Stop? && turn.reason == StageFailure && row == Row(id, 0, Failed, rev)
      case Finished(exitOk, smokeFails, review) =>
        if TurnedDown(s.defs[Pos(s.defs, id)], run.signal, exitOk, smokeFails, review) then
          turn.Stop? && turn.reason == StageFailure && row == Row(id, 0, Revising, rev + 1)
        else if run.signal.None? && !exitOk then
          turn.Stop? && turn.reason == StageFailure && row == Row(id, 0, Revising, rev)
        else if NeedsNobody(s, id) then turn.Continue? && row == Row(id, 0, Completed, rev)
        else turn.Stop? && turn.reason == AtGate && row == Row(id, 0, AwaitingApproval, rev)
  }

  lemma ApprovedGoesOn(s: State, id: StageId)
    requires DistinctIds(s.defs)
    ensures NeedsNobody(s, id) ==> ShouldAutoAdvance(s, id)
  {
    hide IsInitialization, IsInitStage;
    InitializationIs(s, id);
  }

  /** A turn of the loop that runs a stage: it goes on exactly when the stage is approved without a person,
      stops at the gate when a person has to decide, and stops with a failure otherwise. */
  lemma StageTurnEnds(s: State, w: World)
    requires Valid(s) && !w.cancelled && Decide(s).action.ActRunStage?
    ensures var id := Decide(s).action.stage; var t := TakeTurn(s, w); var i := Find(s.rows, id, 0);
            && Pos(s.defs, id) < |s.defs| && i < |s.rows| == |t.state.rows|
            && EndsStage(s, id, w.agent(id), t, t.state.rows[i], s.rows[i].revisions)
  {
    hide Decide, RunStage, ProcessStageResult, Find, TurnedDown, NeedsNobody, Picked, Valid, ShouldAutoAdvance;
    var id, d := Decide(s).action.stage, Decide(s).state;
    var p := PicksFirst(s);
    PickedCanRun(s, d, id, p);
    var run := w.agent(id);
    var r := RunStage(d, id, run);
    RunStageEffect(d, id, run);
    TouchFinds(d, r.state, id, 0);
    SameGate(s, d, r.state, id);
    if !run.Dispatched? {
      NothingDispatched(d, id, run);
    } else {
      DispatchLeaves(d, id, run.signal, run.ending);
      if run.ending.Finished? {
        var e := run.ending;
        DispatchResult(d, id, run.signal, e.exitOk, e.smokeFails, e.review);
        ResultProcessed(d, r.state, id, r.result);
      }
    }
  }

  lemma SameGate(s: State, d: State, t: State, id: StageId)
    requires Valid(s) && d.defs == s.defs && d.mode == s.mode && Touch(d, t, id, 0)
    ensures NeedsNobody(d, id) == NeedsNobody(s, id) && NeedsNobody(t, id) == NeedsNobody(s, id)
    ensures t.defs == s.defs && DistinctIds(s.defs)
  {
  }

  lemma ResultProcessed(d: State, t: State, id: StageId, result: StageResult)
    requires DistinctIds(t.defs) && Pos(t.defs, id) < |t.defs| && Find(t.rows, id, 0) < |t.rows| && result.bolt == 0
    requires result.gateOpen <==> result.source != SmokeFailed && result.source != ReviewerRejected
    ensures var q := ProcessStageResult(t, id, result); var i := Find(t.rows, id, 0); var rev := t.rows[i].revisions;
            && |q.state.rows| == |t.rows| && q.state.defs == t.defs && q.state.mode == t.mode
            && (NeedsNobody(t, id) ==> ShouldAutoAdvance(q.state, id))
            && (if !result.gateOpen || result.source == AgentFailed then
                  q.outcome == OutcomeFailed && q.state.rows[i] == Row(id, 0, Revising, rev)
                else if NeedsNobody(t, id) then q.outcome == AutoApproved && q.state.rows[i] == Row(id, 0, Completed, rev)
                else q.outcome == NeedsReview && q.state.rows[i] == Row(id, 0, AwaitingApproval, rev))
  {
    hide ProcessStageResult, Find, NeedsNobody, OnlyRow, Quiet, ShouldAutoAdvance;
    if !result.gateOpen || result.source == AgentFailed {
      FailureRevises(t, id, result);
    } else {
      GateDecides(t, id, result);
    }
    ProcessEffect(t, id, result);
    AdvancesAlike(t, ProcessStageResult(t, id, result).state, id);
  }

  lemma AdvancesAlike(t: State, u: State, id: StageId)
    requires DistinctIds(t.defs) && u.defs == t.defs && u.mode == t.mode
    ensures NeedsNobody(t, id) ==> ShouldAutoAdvance(u, id)
  {
    hide IsInitialization, IsInitStage;
    InitializationIs(t, id);
  }

  /** In guided mode the last stage of a phase ends its turn at the gate: the loop stops, and the row
      awaits approval. */
  lemma PhaseEndWaits(s: State, w: World)
    requires Valid(s) && !w.cancelled && s.mode == Guided && Decide(s).action.ActRunStage?
    requires var id := Decide(s).action.stage; id in {StageId(1, 7), StageId(2, 8), StageId(3, 7), StageId(4, 7)}
    requires !IsInitialization(s, Decide(s).action.stage)
    requires var run := w.agent(Decide(s).action.stage);
             run.Dispatched? && run.ending.Finished? && run.ending.review == Ready && !run.ending.smokeFails
             && (run.signal.Some? || run.ending.exitOk)
    ensures var id := Decide(s).action.stage; var t := TakeTurn(s, w); var i := Find(s.rows, id, 0);
            && t.Stop? && t.reason == AtGate && i < |t.state.rows| && t.state.rows[i].status == AwaitingApproval
  {
    hide Decide, TakeTurn, Find, Valid, IsInitialization;
    StageTurnEnds(s, w);
  }

  // ----- after an error

  /** The loop never picks a stage whose row has failed. */
  lemma FailedIsPassedOver(s: State, id: StageId)
    requires Valid(s) && Find(s.rows, id, 0) < |s.rows| && s.rows[Find(s.rows, id, 0)].status == Failed
    ensures Decide(s).action != ActRunStage(id)
  {
    hide Decide, Find, Valid, ScanFrame;
    if Decide(s).action == ActRunStage(id) {
      DecideStage(s);
      var p :| PicksStage(s, Decide(s).state, id, p);
      KeyIsUnique(s, p, id, 0);
    }
  }

  lemma FirstRevisingRuns(s: State, p: nat)
    requires Valid(s) && AutoMode(s.mode) && NoRow(s.rows, InProgress) && NoRow(s.rows, AwaitingApproval)
    requires p < |s.rows| && s.rows[p].status == Revising && !IsPerBolt(s.rows[p].stage)
    requires forall j :: 0 <= j < p ==> s.rows[j].status != Revising
    ensures Decide(s) == Decision(s, ActRunStage(s.rows[p].stage))
  {
    hide DecideIdle, Valid;
    assert FirstWith(s.rows, Revising) == p;
  }

  /** A turn that stops for want of quota is repeated: in an automatic mode the next decision is to run the
      same stage.  After a crash it is not. */
  lemma QuotaRunsAgain(s: State, w: World)
    requires Valid(s) && !w.cancelled && Decide(s).action.ActRunStage? && (s.mode == Guided || s.mode == Autonomous)
    requires w.agent(Decide(s).action.stage).Dispatched?
    ensures var id := Decide(s).action.stage; var t := TakeTurn(s, w);
            && (w.agent(id).ending.Quota? ==> t == Stop(t.state, StageFailure) && Decide(t.state) == Decision(t.state, ActRunStage(id)))
            && (w.agent(id).ending.Crashed? ==> t == Stop(t.state, StageFailure) && Decide(t.state).action != ActRunStage(id))
  {
    hide Decide, TakeTurn, Find, Valid, TurnedDown, NeedsNobody, Picked;
    var id := Decide(s).action.stage;
    var run, t := w.agent(id), TakeTurn(s, w).state;
    StageTurnEnds(s, w);
    TurnKeepsValid(s, w);
    var p := PicksFirst(s);
    PickedCanRun(s, Decide(s).state, id, p);
    if run.ending.Quota? || run.ending.Crashed? {
      ErrorTouches(s, w, p);
      if run.ending.Quota? {
        FirstRevisingRuns(t, p);
      } else {
        FailedIsPassedOver(t, id);
      }
    }
  }

  lemma ErrorTouches(s: State, w: World, p: nat)
    requires Valid(s) && !w.cancelled && Decide(s).action.ActRunStage?
    requires Picked(s, Decide(s).state, Decide(s).action.stage, p)
    requires w.agent(Decide(s).action.stage).Dispatched? && !w.agent(Decide(s).action.stage).ending.Finished?
    requires var t := TakeTurn(s, w).state;
             p < |t.rows| && t.rows[p].status != InProgress && t.rows[p].status != AwaitingApproval
    ensures var t := TakeTurn(s, w).state; var id := Decide(s).action.stage;
            && NoRow(t.rows, InProgress) && NoRow(t.rows, AwaitingApproval) && t.mode == s.mode
            && |t.rows| == |s.rows| && t.rows[p].stage == id && Find(t.rows, id, 0) == p
            && forall j :: 0 <= j < p ==> t.rows[j].status != Revising
  {
    hide Decide, RunStage, Find, Valid, GateMatches, RowLeft;
    var id, d := Decide(s).action.stage, Decide(s).state;
    PickedCanRun(s, d, id, p);
    var run := w.agent(id);
    var t := RunStage(d, id, run).state;
    RunStageEffect(d, id, run);
    DispatchLeaves(d, id, run.signal, run.ending);
    TouchFinds(d, t, id, 0);
    forall j | 0 <= j < |d.rows| && j != p
      ensures t.rows[j] == d.rows[j]
    {
      KeyIsUnique(d, j, id, 0);
    }
  }
}
