/** What becomes of the gate of a stage whose agent has exited: when a bolt's run and the control loop
    approve it by themselves, and that a failed agent does not always keep them from it. */
module PipelineGates {
  import opened Basics
  import opened StageTable
  import opened BoltPlan
  import opened PipelineModel
  import opened PipelineEffects
  import opened PipelineTermination

  /** The agent has exited, and neither the smoke check nor the reviewer, which only look at a stage
      that passed, has turned it down. */
  predicate GateStaysOpen(def: StageDef, signal: Option<Outcome>, ending: Ending) {
    && ending.Finished?
    && !(Verdict(signal, ending.exitOk) == Pass && (ending.smokeFails || (def.hasReviewer && ending.review == NotReady)))
  }

  /** The stage is defined and its row is there, for a bolt if it runs per bolt. */
  predicate CanRun(s: State, id: StageId) {
    Pos(s.defs, id) < |s.defs| && Find(s.rows, id, BoltFor(s, id)) < |s.rows| && (IsPerBolt(id) ==> s.currentBolt > 0)
  }

  lemma FinishedGate(s: State, def: StageDef, bolt: nat, rev: nat, signal: Option<Outcome>, ending: Ending)
    requires signal.Some? ==> def.id in s.outcomes && s.outcomes[def.id] == signal.value
    requires signal.None? ==> def.id !in s.outcomes
    ensures var r := EndDispatch(s, def, bolt, rev, signal, ending);
            && (r.StageRan? <==> ending.Finished?)
            && (r.StageRan? ==>
                  && (r.result.gateOpen <==> GateStaysOpen(def, signal, ending))
                  && (r.result.gateOpen ==> r.result.source == FirstSource(signal, ending.exitOk))
                  && (Recirculated(r.state, def.id) <==> signal == Some(Recirculate)))
  {
    hide Write, Log, Touch, GateMatches;
    if ending.Finished? {
      var v, src := Verdict(signal, ending.exitOk), FirstSource(signal, ending.exitOk);
      SignalIsVerdict(s, def.id, signal, ending.exitOk);
      FinishEffect(s, def, bolt, rev, v, src, ending.smokeFails, ending.review);
    }
  }

  /** How running a stage leaves its gate. */
  lemma RunStageGate(s: State, id: StageId, signal: Option<Outcome>, ending: Ending)
    requires CanRun(s, id)
    ensures var r := RunStage(s, id, Dispatched(signal, ending));
            && (r.StageRan? <==> ending.Finished?)
            && (r.StageRan? ==>
                  && (r.result.gateOpen <==> GateStaysOpen(s.defs[Pos(s.defs, id)], signal, ending))
                  && (r.result.gateOpen ==> r.result.source == FirstSource(signal, ending.exitOk))
                  && (Recirculated(r.state, id) <==> signal == Some(Recirculate)))
  {
    hide Write, Log, EndDispatch, Find, GateStaysOpen, Recirculated;
    var p, b := Pos(s.defs, id), BoltFor(s, id);
    var rev := s.rows[Find(s.rows, id, b)].revisions;
    var started := Log(Write(s, id, b, InProgress, rev), StageStart(id));
    var sent := started.(outcomes := if signal.Some? then (started.outcomes - {id})[id := signal.value]
                                     else started.outcomes - {id});
    FinishedGate(sent, s.defs[p], b, rev, signal, ending);
  }

  // ----- in a bolt

  /** A stage of the bolt lets the run of the bolt go on. */
  predicate GoesOn(def: StageDef, run: AgentRun) {
    run.Dispatched? && GateStaysOpen(def, run.signal, run.ending) && run.signal != Some(Recirculate)
  }

  lemma ApprovesUnlessRecirculated(s: State, id: StageId, b: nat)
    requires IsPerBolt(id) && Find(s.rows, id, b) < |s.rows|
    requires var status := s.rows[Find(s.rows, id, b)].status; status == AwaitingApproval || status == Revising
    ensures Approve(s, id, b, true).Approved? <==> !Recirculated(s, id)
  {
    hide Find, Write, Log, NextStage;
  }

  /** The gate of a stage of a bolt is open and is approved exactly when the agent has exited, did not
      ask for another round, and was not turned down; the exit status and a signal of failure play no
      part.  The row is then completed. */
  lemma BoltGateExactly(s: State, m: nat, run: AgentRun)
    requires Valid(s) && 1 <= m <= 5 && CanRun(s, StageId(3, m))
    ensures var id, b := StageId(3, m), s.currentBolt;
            var r := RunStage(s, id, run);
            var a := Approve(r.state, id, b, true);
            && ((r.StageRan? && r.result.gateOpen && a.Approved?) <==> GoesOn(s.defs[Pos(s.defs, id)], run))
            && (GoesOn(s.defs[Pos(s.defs, id)], run) ==> CompletedAt(a.state.rows, id, b))
  {
    hide RunStage, Approve, Find, GateStaysOpen, Recirculated, Touch, Valid;
    var id, b := StageId(3, m), s.currentBolt;
    var r := RunStage(s, id, run);
    RunStageEffect(s, id, run);
    TouchFinds(s, r.state, id, b);
    if run.Dispatched? {
      RunStageGate(s, id, run.signal, run.ending);
      OnlyOpenStays(s.defs[Pos(s.defs, id)], run.signal, run.ending);
      if r.StageRan? && r.result.gateOpen {
        ApprovesUnlessRecirculated(r.state, id, b);
        TouchKeepsValid(s, r.state, id, b);
        ApproveEffect(r.state, id, b, true);
        var t := Approve(r.state, id, b, true).state;
        GateFrameFind(r.state, t, id, b);
      }
    } else {
      NotDispatched(s, id, run);
    }
  }

  lemma GateFrameFind(s: State, t: State, id: StageId, b: nat)
    requires GateFrame(s, t)
    ensures |t.rows| == |s.rows| && Find(t.rows, id, b) == Find(s.rows, id, b)
    ensures forall i :: 0 <= i < |s.rows| ==> t.rows[i].stage == s.rows[i].stage && t.rows[i].bolt == s.rows[i].bolt
  {
  }

  lemma NotDispatched(s: State, id: StageId, run: AgentRun)
    requires !run.Dispatched?
    ensures RunStage(s, id, run).StageError?
  {
    hide Find, Pos;
  }

  /** An agent that exits with an error and sends no signal: a bolt's run approves the stage and completes
      its row, while the control loop turns the same result into a revision. */
  lemma FailedAgentIsApproved(s: State, m: nat, smokeFails: bool, review: Review)
    requires Valid(s) && 1 <= m <= 5 && CanRun(s, StageId(3, m))
    ensures var id, b := StageId(3, m), s.currentBolt;
            var r := RunStage(s, id, Dispatched(None, Finished(false, smokeFails, review)));
            && r.StageRan? && r.result.source == AgentFailed && r.result.gateOpen
            && Approve(r.state, id, b, true).Approved?
            && CompletedAt(Approve(r.state, id, b, true).state.rows, id, b)
            && var q := ProcessStageResult(r.state, id, r.result);
               q.outcome == OutcomeFailed && var i := Find(q.state.rows, id, b); i < |q.state.rows| && q.state.rows[i].status == Revising
  {
    hide RunStage, Approve, Find, Write, Log, Valid, GateMatches, CompletedAt, Touch;
    var id, b := StageId(3, m), s.currentBolt;
    var run := Dispatched(None, Finished(false, smokeFails, review));
    var r := RunStage(s, id, run);
    BoltGateExactly(s, m, run);
    RunStageGate(s, id, None, run.ending);
    RunStageEffect(s, id, run);
    TouchFinds(s, r.state, id, b);
    var i := Find(r.state.rows, id, b);
    WriteLogTouches(r.state, id, b, Revising, r.state.rows[i].revisions, StageFailed(id));
    TouchFinds(r.state, ProcessStageResult(r.state, id, r.result).state, id, b);
  }

  // ----- a whole bolt

  /** Each stage of the bolt from 3.m on that is left to run lets the run go on. */
  ghost predicate AllGoOn(s: State, b: nat, m: nat, agent: StageId -> AgentRun) {
    forall k :: m <= k <= 5 ==> GoesOnAt(s, b, k, agent)
  }

  predicate GoesOnAt(s: State, b: nat, k: nat, agent: StageId -> AgentRun) {
    var id := StageId(3, k);
    SkipsInBolt(s, id, b) || (Pos(s.defs, id) < |s.defs| && GoesOn(s.defs[Pos(s.defs, id)], agent(id)))
  }

  /** The rows of the stages in scope are there. */
  ghost predicate RowsReady(s: State, b: nat) {
    forall k :: 1 <= k <= 5 && InScopeStage(s, StageId(3, k)) ==> Find(s.rows, StageId(3, k), b) < |s.rows|
  }

  lemma AllGoOnFrom(s: State, b: nat, m: nat, agent: StageId -> AgentRun)
    requires 1 <= m <= 5
    ensures AllGoOn(s, b, m, agent) <==> GoesOnAt(s, b, m, agent) && AllGoOn(s, b, m + 1, agent)
  {
    hide GoesOnAt;
  }

  /** A step of stage 3.m leaves the other stages of the bolt as they were. */
  lemma StepKeepsOthers(s: State, t: State, b: nat, m: nat, agent: StageId -> AgentRun)
    requires Valid(s) && b > 0 && 1 <= m <= 5 && BoltFrame(s, t, b) && RowsReady(s, b)
    requires exists i :: BoltStep(s, t, b, m, i)
    ensures RowsReady(t, b) && (AllGoOn(t, b, m + 1, agent) <==> AllGoOn(s, b, m + 1, agent))
  {
    hide Valid, Find, GoesOn, Quiet, BoltStep, Skips;
    forall k | 1 <= k <= 5
      ensures Find(t.rows, StageId(3, k), b) == Find(s.rows, StageId(3, k), b)
      ensures k != m ==> (SkipsInBolt(t, StageId(3, k), b) <==> SkipsInBolt(s, StageId(3, k), b))
    {
      FrameFacts(s, t, b, StageId(3, k));
      if k != m {
        OtherRowStays(s, t, b, m, k);
      }
    }
    hide SkipsInBolt;
    assert forall k :: m + 1 <= k <= 5 ==> (GoesOnAt(t, b, k, agent) <==> GoesOnAt(s, b, k, agent));
  }

  lemma OtherRowStays(s: State, t: State, b: nat, m: nat, k: nat)
    requires b > 0 && 1 <= m <= 5 && 1 <= k <= 5 && k != m && BoltFrame(s, t, b)
    requires exists i :: BoltStep(s, t, b, m, i)
    ensures SkipsInBolt(t, StageId(3, k), b) <==> SkipsInBolt(s, StageId(3, k), b)
  {
    hide Find, Valid, Quiet, Skips;
    var i :| BoltStep(s, t, b, m, i);
    FrameFacts(s, t, b, StageId(3, k));
    FindMatches(s, StageId(3, k), b);
  }

  lemma FindMatches(s: State, id: StageId, b: nat)
    ensures var i := Find(s.rows, id, b); i < |s.rows| ==> Matches(s.rows[i], id, b)
  {
  }

  lemma StepOfRun(s: State, b: nat, m: nat, run: AgentRun)
    requires Valid(s) && 1 <= m <= 5 && s.currentBolt == b && b > 0 && RunStage(s, StageId(3, m), run).StageRan?
    requires RunStage(s, StageId(3, m), run).result.gateOpen
    requires Approve(RunStage(s, StageId(3, m), run).state, StageId(3, m), b, true).Approved?
    ensures var t := Approve(RunStage(s, StageId(3, m), run).state, StageId(3, m), b, true).state;
            BoltFrame(s, t, b) && exists i :: BoltStep(s, t, b, m, i)
  {
    hide RunStage, Approve, Find, BoltFrame, Valid, Frame, BoltStep, GateMatches;
    var id := StageId(3, m);
    var i := Find(s.rows, id, b);
    var r := RunStage(s, id, run);
    RunInBolt(s, b, m, run);
    FrameFacts(s, r.state, b, id);
    ApproveInBolt(s, r.state, b, m, i, r.result);
    BoltFrameIsTransitive(s, r.state, Approve(r.state, id, b, true).state, b);
  }

  lemma RunnableInBolt(s: State, b: nat, m: nat)
    requires 1 <= m <= 5 && s.currentBolt == b && b > 0 && RowsReady(s, b) && !SkipsInBolt(s, StageId(3, m), b)
    ensures CanRun(s, StageId(3, m))
  {
    hide Find;
    NotSkipped(s, b, m);
  }

  /** In automatic mode a run of a bolt from stage 3.m finishes exactly when every stage left to run lets
      it go on. */
  lemma {:induction false} FinishesExactly(s: State, b: nat, m: nat, agent: StageId -> AgentRun, results: seq<StageResult>)
    requires Valid(s) && 1 <= m <= 6 && s.currentBolt == b && b > 0 && AutoMode(s.mode) && RowsReady(s, b)
    ensures BoltStages(s, b, m, agent, results).end.BoltFinished? <==> AllGoOn(s, b, m, agent)
    decreases 6 - m
  {
    hide RunStage, Approve, Find, SkipsInBolt, Valid, BoltFrame, RowsReady, GoesOn, AllGoOn, GoesOnAt;
    if m == 6 {
      NoneLeft(s, b, agent);
    } else {
      AllGoOnFrom(s, b, m, agent);
      var id := StageId(3, m);
      GoesOnAtIs(s, b, m, agent);
      if SkipsInBolt(s, id, b) {
        FinishesExactly(s, b, m + 1, agent, results);
      } else {
        RunnableInBolt(s, b, m);
        BoltGateExactly(s, m, agent(id));
        var r := RunStage(s, id, agent(id));
        if r.StageRan? {
          ClosedIsTurnedDown(s, id, agent(id));
          if r.result.gateOpen {
            var a := Approve(r.state, id, b, true);
            if a.Approved? {
              StepOfRun(s, b, m, agent(id));
              StepKeepsOthers(s, a.state, b, m, agent);
              FrameFacts(s, a.state, b, id);
              FinishesExactly(a.state, b, m + 1, agent, results + [r.result]);
            }
          }
        }
      }
    }
  }

  lemma NoneLeft(s: State, b: nat, agent: StageId -> AgentRun)
    ensures AllGoOn(s, b, 6, agent)
  {
  }

  lemma GoesOnAtIs(s: State, b: nat, m: nat, agent: StageId -> AgentRun)
    requires 1 <= m <= 5
    ensures var id := StageId(3, m);
            && (SkipsInBolt(s, id, b) ==> GoesOnAt(s, b, m, agent))
            && (!SkipsInBolt(s, id, b) ==>
                  Pos(s.defs, id) < |s.defs| && (GoesOnAt(s, b, m, agent) <==> GoesOn(s.defs[Pos(s.defs, id)], agent(id))))
  {
    hide GoesOn, Find;
  }

  lemma ClosedIsTurnedDown(s: State, id: StageId, run: AgentRun)
    ensures var r := RunStage(s, id, run);
            r.StageRan? && !r.result.gateOpen ==> r.result.source == SmokeFailed || r.result.source == ReviewerRejected
  {
    hide RunStage, Touch, Find;
    RunStageEffect(s, id, run);
  }

  lemma StartIsReady(s: State, b: nat)
    requires Valid(s) && b > 0
    ensures RowsReady(StartBolt(s, b), b)
  {
    hide Find, Scoped, Effective, InitBolt, Grown;
    var s0, stages := StartBolt(s, b), Scoped(s.defs, Effective(s.scope));
    ValidIsTable(s);
    InitBoltGrows(s.defs, s.rows, b, stages);
    forall k | 1 <= k <= 5 && InScopeStage(s0, StageId(3, k))
      ensures Find(s0.rows, StageId(3, k), b) < |s0.rows|
    {
      assert s.defs[Pos(s.defs, StageId(3, k))] in stages;
    }
  }

  lemma StartSkips(s: State, b: nat, k: nat)
    requires Valid(s) && b > 0 && 1 <= k <= 5
    ensures SkipsInBolt(StartBolt(s, b), StageId(3, k), b) <==> SkipsInBolt(s, StageId(3, k), b)
  {
    hide Find, Scoped, Effective, InitBolt, HasRows, Valid;
    var s0, id := StartBolt(s, b), StageId(3, k);
    var stages := Scoped(s.defs, Effective(s.scope));
    ValidIsTable(s);
    StartIsValid(s, b);
    InitBoltGrows(s.defs, s.rows, b, stages);
    var i, j := Find(s.rows, id, b), Find(s0.rows, id, b);
    FindMatches(s, id, b);
    FindMatches(s0, id, b);
    if i < |s.rows| {
      assert s.rows[i] in s0.rows;
      var x :| 0 <= x < |s0.rows| && s0.rows[x] == s.rows[i];
      KeyIsUnique(s0, x, id, b);
    } else if j < |s0.rows| {
      assert s0.rows[j] in s0.rows;
      FindIn(s.rows, id, b);
    }
  }

  /** A run of a bolt in automatic mode finishes exactly when the bolt is there and every stage that is in
      scope and not completed lets it go on. */
  lemma BoltFinishesExactly(s: State, b: nat, agent: StageId -> AgentRun)
    requires Valid(s) && b > 0 && AutoMode(s.mode)
    ensures RunBolt(s, b, agent).end.BoltFinished? <==>
              BoltAt(s.bolts, b) < |s.bolts| && AllGoOn(s, b, 1, agent)
  {
    hide BoltStages, StartBolt, Valid, RowsReady, SkipsInBolt, GoesOn;
    if BoltAt(s.bolts, b) < |s.bolts| {
      forall k | 1 <= k <= 5
        ensures GoesOnAt(StartBolt(s, b), b, k, agent) <==> GoesOnAt(s, b, k, agent)
      {
        StartSkips(s, b, k);
        StartDefs(s, b);
      }
      StartIsValid(s, b);
      StartIsReady(s, b);
      FinishesExactly(StartBolt(s, b), b, 1, agent, []);
    }
  }

  /** A bolt whose every agent exits with an error, and sends no signal, is completed. */
  lemma FailedAgentsFinishBolt(s: State, b: nat, smokeFails: bool, review: Review)
    requires Valid(s) && b > 0 && AutoMode(s.mode) && BoltAt(s.bolts, b) < |s.bolts|
    ensures RunBolt(s, b, (id: StageId) => Dispatched(None, Finished(false, smokeFails, review))).end.BoltFinished?
  {
    hide RunBolt, Valid, SkipsInBolt;
    var agent := (id: StageId) => Dispatched(None, Finished(false, smokeFails, review));
    forall k | 1 <= k <= 5
      ensures GoesOnAt(s, b, k, agent)
    {
      SkippedOrDefined(s, StageId(3, k), b);
    }
    BoltFinishesExactly(s, b, agent);
  }

  lemma StartDefs(s: State, b: nat)
    ensures StartBolt(s, b).defs == s.defs
  {
    hide InitBolt;
  }

  lemma SkippedOrDefined(s: State, id: StageId, b: nat)
    ensures SkipsInBolt(s, id, b) || Pos(s.defs, id) < |s.defs|
  {
  }

  // ----- in the control loop

  lemma ProcessedOpen(t: State, id: StageId, result: StageResult)
    requires result.gateOpen && Find(t.rows, id, result.bolt) < |t.rows|
    requires result.source != SmokeFailed && result.source != ReviewerRejected
    ensures ProcessStageResult(t, id, result).outcome == AutoApproved <==> result.source != AgentFailed && AutoApproves(t, id)
  {
    hide Find, Write, Log, AutoApproves;
  }

  lemma ProcessedClosed(t: State, id: StageId, result: StageResult)
    requires result.source == SmokeFailed || result.source == ReviewerRejected
    ensures ProcessStageResult(t, id, result).outcome == OutcomeFailed
  {
    hide Find, Write, Log, AutoApproves;
  }

  /** The control loop completes a stage by itself exactly when the agent has exited, sent some signal or
      exited well, was not turned down, and the mode and phase approve automatically.  What the signal
      says plays no part: a signalled failure, and a request for another round, are completed too. */
  lemma LinearGateExactly(s: State, id: StageId, signal: Option<Outcome>, ending: Ending)
    requires CanRun(s, id) && !IsPerBolt(id)
    ensures var r := RunStage(s, id, Dispatched(signal, ending));
            && ((r.StageRan? && ProcessStageResult(r.state, id, r.result).outcome == AutoApproved) <==>
                  && GateStaysOpen(s.defs[Pos(s.defs, id)], signal, ending)
                  && (signal.Some? || ending.exitOk) && AutoApproves(s, id))
            && (r.StageRan? && ProcessStageResult(r.state, id, r.result).outcome == AutoApproved ==>
                  CompletedAt(ProcessStageResult(r.state, id, r.result).state.rows, id, 0))
  {
    hide RunStage, Find, GateStaysOpen, Touch, ProcessStageResult, Recirculated;
    var run := Dispatched(signal, ending);
    var r := RunStage(s, id, run);
    RunStageGate(s, id, signal, ending);
    RunStageEffect(s, id, run);
    if r.StageRan? {
      TouchFinds(s, r.state, id, 0);
      SameApproval(s, r.state, id, 0);
      if r.result.gateOpen {
        ProcessedOpen(r.state, id, r.result);
      } else {
        ProcessedClosed(r.state, id, r.result);
        OnlyOpenStays(s.defs[Pos(s.defs, id)], signal, ending);
      }
      ProcessEffect(r.state, id, r.result);
      TouchFinds(r.state, ProcessStageResult(r.state, id, r.result).state, id, 0);
    } else {
      OnlyOpenStays(s.defs[Pos(s.defs, id)], signal, ending);
    }
  }

  lemma OnlyOpenStays(def: StageDef, signal: Option<Outcome>, ending: Ending)
    ensures GateStaysOpen(def, signal, ending) ==> ending.Finished?
  {
  }

  lemma SameApproval(s: State, t: State, id: StageId, b: nat)
    requires Touch(s, t, id, b)
    ensures AutoApproves(t, id) <==> AutoApproves(s, id)
  {
  }

  /** A linear stage whose agent signals failure is completed, in the modes and phases that approve
      automatically, and only there. */
  lemma SignalledFailureCompletes(s: State, id: StageId, exitOk: bool, smokeFails: bool, review: Review)
    requires CanRun(s, id) && !IsPerBolt(id)
    ensures var r := RunStage(s, id, Dispatched(Some(Fail), Finished(exitOk, smokeFails, review)));
            && r.StageRan? && r.result.source == AgentSignal
            && (ProcessStageResult(r.state, id, r.result).outcome == AutoApproved <==> AutoApproves(s, id))
            && (AutoApproves(s, id) ==> CompletedAt(ProcessStageResult(r.state, id, r.result).state.rows, id, 0))
  {
    hide RunStage, Find, ProcessStageResult, CompletedAt, AutoApproves;
    RunStageGate(s, id, Some(Fail), Finished(exitOk, smokeFails, review));
    LinearGateExactly(s, id, Some(Fail), Finished(exitOk, smokeFails, review));
  }
}
