/** The pipeline as the program runs it: one feature's stored rows, bolts, log and settings,
    updated in place.  Each method is proved to take the stored state to the state that the
    model's transition gives. */
module Pipeline {
  import opened Basics
  import opened StageTable
  import opened BoltPlan
  import opened PipelineModel
  import opened PipelineEffects
  import opened PipelineTermination
  import opened PipelineSafety

  class Feature {
    const defs: seq<StageDef>
    var rows: seq<Row>
    var bolts: seq<Bolt>
    var audit: seq<Event>
    var outcomes: map<StageId, Outcome>
    var scope: string
    var mode: Mode
    var finished: bool
    var currentStage: Option<StageId>
    var currentBolt: nat
    ghost var watch: Watch

    ghost function View(): State
      reads this
    {
      State(defs, rows, bolts, audit, outcomes, scope, mode, finished, currentStage, currentBolt, watch)
    }

    constructor (defs: seq<StageDef>, scope: string, mode: Mode)
      ensures View() == State(defs, [], [], [], map[], scope, mode, false, None, 0, Watch(true, true))
    {
      this.defs := defs;
      rows, bolts, audit, outcomes := [], [], [], map[];
      this.scope, this.mode := scope, mode;
      finished, currentStage, currentBolt := false, None, 0;
      watch := Watch(true, true);
    }

    // ----- the tables

    method UpdateRow(id: StageId, bolt: nat, status: Status, revisions: nat)
      modifies this
      ensures View() == Write(old(View()), id, bolt, status, revisions)
    {
      watch := Write(View(), id, bolt, status, revisions).watch;
      rows := SetRow(rows, id, bolt, status, revisions);
    }

    method Record(e: Event)
      modifies this`audit
      ensures View() == Log(old(View()), e)
    {
      audit := audit + [e];
    }

    method UpdateBolt(number: nat, status: BoltStatus)
      modifies this`bolts
      ensures View() == WriteBolt(old(View()), number, status)
    {
      bolts := SetBolt(bolts, number, status);
    }

    method GetStagesForScope() returns (stages: seq<StageDef>)
      ensures stages == Scoped(defs, Effective(scope))
    {
      hide Scoped, Effective, InScope;
      stages := [];
      ScopedEnds(defs, Effective(scope));
      for i := 0 to |defs|
        invariant stages + Scoped(defs, Effective(scope), i) == Scoped(defs, Effective(scope))
      {
        ScopedFrom(defs, Effective(scope), i);
        if InScope(defs[i], Effective(scope)) {
          stages := stages + [defs[i]];
        }
      }
    }

    method InitFeatureStages()
      modifies this`rows
      ensures View() == old(View()).(rows := InitLinear(defs, old(rows), Scoped(defs, Effective(scope))))
    {
      var stages := GetStagesForScope();
      for i := 0 to |stages|
        invariant InitLinear(defs, rows, stages[i..]) == InitLinear(defs, old(rows), stages)
      {
        assert stages[i..][1..] == stages[i + 1..];
        if !IsPerBolt(stages[i].id) {
          rows := InsertRow(defs, rows, stages[i].id, 0);
        }
      }
    }

    method InitBoltStages(b: nat)
      modifies this`rows
      ensures View() == old(View()).(rows := BoltRows(old(View()), b))
    {
      var stages := GetStagesForScope();
      for i := 0 to |stages|
        invariant InitBolt(defs, rows, b, stages[i..]) == InitBolt(defs, old(rows), b, stages)
      {
        assert stages[i..][1..] == stages[i + 1..];
        if IsPerBolt(stages[i].id) {
          rows := InsertRow(defs, rows, stages[i].id, b);
        }
      }
    }

    // ----- one stage

    method RunStage(id: StageId, run: AgentRun) returns (result: Option<StageResult>)
      modifies this
      ensures var r := PipelineModel.RunStage(old(View()), id, run);
              View() == r.state && result == (if r.StageRan? then Some(r.result) else None)
    {
      hide Write, Log, SetRow;
      var p := Pos(defs, id);
      var bolt := if IsPerBolt(id) then currentBolt else 0;
      if p == |defs| || (IsPerBolt(id) && bolt == 0) {
        return None;
      }
      var i := Find(rows, id, bolt);
      if i == |rows| {
        return None;
      }
      var rev := rows[i].revisions;
      UpdateRow(id, bolt, InProgress, rev);
      Record(StageStart(id));
      if run.ContextError? {
        return None;
      }
      outcomes := outcomes - {id};
      if run.RoleError? {
        return None;
      }
      if run.signal.Some? {
        outcomes := outcomes[id := run.signal.value];
      }
      match run.ending
      case Interrupted =>
        return None;
      case Quota =>
        Record(QuotaExhausted(id));
        UpdateRow(id, bolt, Revising, rev);
        return None;
      case Crashed =>
        UpdateRow(id, bolt, Failed, rev);
        return None;
      case Finished(exitOk, smokeFails, review) =>
        var r := Finish(p, bolt, rev, Verdict(run.signal, exitOk), FirstSource(run.signal, exitOk), smokeFails, review);
        return Some(r);
    }

    method Finish(p: nat, bolt: nat, rev: nat, verdict: Outcome, source: Source, smokeFails: bool, review: Review)
      returns (result: StageResult)
      requires p < |defs|
      modifies this
      ensures var r := FinishStage(old(View()), defs[p], bolt, rev, verdict, source, smokeFails, review);
              View() == r.state && result == r.result
    {
      hide Write, Log, SetRow;
      var id := defs[p].id;
      var outcomeSource := source;
      if verdict == Pass && smokeFails {
        outcomeSource := SmokeFailed;
      }
      if defs[p].hasReviewer && !(verdict == Pass && smokeFails) && verdict == Pass && review != ReviewError {
        Record(SubagentCompleted(id));
        if review == NotReady {
          outcomeSource := ReviewerRejected;
        }
      }
      var gateOpen := true;
      if (verdict == Pass && smokeFails) || (defs[p].hasReviewer && verdict == Pass && review == NotReady) {
        UpdateRow(id, bolt, Revising, rev + 1);
        Record(StageRevising(id));
        gateOpen := false;
      } else {
        UpdateRow(id, bolt, AwaitingApproval, rev);
        Record(StageAwaiting(id));
        if verdict == Fail {
          UpdateRow(id, bolt, Revising, rev);
          Record(StageFailed(id));
        }
      }
      result := StageResult(id, bolt, outcomeSource, gateOpen);
    }

    method ProcessResult(id: StageId, result: StageResult) returns (outcome: StageOutcome)
      modifies this
      ensures Processed(View(), outcome) == ProcessStageResult(old(View()), id, result)
    {
      hide Write, Log, SetRow;
      var i := Find(rows, id, result.bolt);
      if i == |rows| {
        return OutcomeFailed;
      }
      var rev := rows[i].revisions;
      if result.source == SmokeFailed || result.source == ReviewerRejected || result.source == AgentFailed {
        UpdateRow(id, result.bolt, Revising, rev);
        Record(StageFailed(id));
        return OutcomeFailed;
      }
      if !result.gateOpen {
        UpdateRow(id, result.bolt, Completed, rev);
        Record(StageCompleted(id));
        return AutoApproved;
      }
      if IsInitStage(defs, id) || mode == Autonomous || (mode == Guided && !IsPhaseEnd(defs, id)) {
        UpdateRow(id, result.bolt, Completed, rev);
        Record(GateApproved(id));
        Record(StageCompleted(id));
        return AutoApproved;
      }
      UpdateRow(id, result.bolt, AwaitingApproval, rev);
      Record(StageAwaiting(id));
      return NeedsReview;
    }

    // ----- the next linear stage

    predicate SkipsStage(id: StageId)
      reads this
      ensures SkipsStage(id) == Skips(View(), id)
    {
      var p := Pos(defs, id);
      p < |defs| && OutOfScope(defs[p], Effective(scope))
    }

    method NextStageToRun() returns (next: Option<StageId>)
      modifies this
      ensures Scan(View(), next) == NextStage(old(View()), old(rows), 0)
    {
      hide Write, Log, SetRow, Skips;
      var listing := rows;
      for i := 0 to |listing|
        invariant NextStage(View(), listing, i) == NextStage(old(View()), listing, 0)
      {
        if !IsPerBolt(listing[i].stage) {
          if listing[i].status == NotStarted {
            if SkipsStage(listing[i].stage) {
              UpdateRow(listing[i].stage, 0, Skipped, 0);
              Record(StageSkipped(listing[i].stage));
            } else {
              return Some(listing[i].stage);
            }
          }
        }
      }
      return None;
    }
 
    // ----- gates

    method AdvanceStage(id: StageId, authOk: bool) returns (ok: bool)
      modifies this
      ensures Advanced(View(), ok) == PipelineModel.AdvanceStage(old(View()), id, authOk)
    {
      hide Write, Log, SetRow, Scoped;
      var stages := GetStagesForScope();
      var k := Pos(stages, id);
      if k == |stages| {
        return false;
      }
      if k == |stages| - 1 {
        finished := true;
        currentStage := Some(id);
        Record(WorkflowComplete);
        return true;
      }
      var next := stages[k + 1];
      // The program would skip stages here that are out of scope; there are none in this list.
      ScopedNeverSkips(View(), k + 1);
      assert !OutOfScope(next, Effective(scope));
      currentStage := Some(next.id);
      UpdateRow(next.id, 0, NotStarted, 0);
      Record(StageAdvanced(next.id));
      if stages[k].phase != next.phase && !authOk {
        Record(AuthHealthFailed);
        return false;
      }
      return true;
    }
 
    method ApproveAndAdvance(id: StageId, bolt: nat, authOk: bool) returns (ok: bool, next: Option<StageId>)
      modifies this
      ensures var r := Approve(old(View()), id, bolt, authOk);
              View() == r.state && ok == r.Approved? && next == (if r.Approved? then r.next else None)
    {
      hide Write, Log, SetRow, PipelineModel.AdvanceStage, NextStage;
      next := None;
      var i := Find(rows, id, bolt);
      if i == |rows| {
        return false, None;
      }
      if rows[i].status != AwaitingApproval && rows[i].status != Revising {
        return false, None;
      }
      if id in outcomes && outcomes[id] == Recirculate {
        return false, None;
      }
      UpdateRow(id, bolt, Completed, rows[i].revisions);
      Record(GateApproved(id));
      Record(StageCompleted(id));
      if !IsPerBolt(id) {
        var advanced := AdvanceStage(id, authOk);
        if !advanced {
          return false, None;
        }
      }
      next := NextStageToRun();
      return true, next;
    }

    method RejectStage(id: StageId, bolt: nat) returns (ok: bool)
      modifies this
      ensures Advanced(View(), ok) == Reject(old(View()), id, bolt)
    {
      hide Write, Log, SetRow;
      var i := Find(rows, id, bolt);
      if i == |rows| {
        return false;
      }
      if rows[i].status != AwaitingApproval && rows[i].status != Revising {
        return false;
      }
      if Pos(defs, id) == |defs| {
        return false;
      }
      UpdateRow(id, bolt, Revising, rows[i].revisions + 1);
      Record(GateRejected(id));
      Record(RuleLearned(id));
      return true;
    }

    method AcceptStageAsIs(id: StageId, bolt: nat, authOk: bool) returns (ok: bool)
      modifies this
      ensures Advanced(View(), ok) == AcceptAsIs(old(View()), id, bolt, authOk)
    {
      hide Write, Log, SetRow, PipelineModel.AdvanceStage;
      var i := Find(rows, id, bolt);
      if i == |rows| {
        return false;
      }
      if rows[i].revisions < MAX_REVISIONS {
        return false;
      }
      UpdateRow(id, bolt, Completed, rows[i].revisions);
      Record(GateAcceptAsIs(id));
      Record(StageCompleted(id));
      ok := true;
      if !IsPerBolt(id) {
        ok := AdvanceStage(id, authOk);
      }
    }

    method JumpToStage(target: StageId) returns (ok: bool)
      modifies this
      ensures Advanced(View(), ok) == Jump(old(View()), target)
    {
      hide Write, Log, SetRow, Scoped, SkipRange, CurrentIndex, Pos;
      var stages := GetStagesForScope();
      var targetIndex := Pos(stages, target);
      if targetIndex == |stages| {
        return false;
      }
      var current := CurrentStageIndex(stages);
      var start := if current < |stages| then current + 1 else 0;
      MarkSkippedRange(stages, start, targetIndex);
      UpdateRow(target, 0, NotStarted, 0);
      Record(Event.JumpToStage(target));
      return true;
    }

    method CurrentStageIndex(stages: seq<StageDef>) returns (k: nat)
      ensures k == CurrentIndex(View(), stages, 0)
    {
      k := 0;
      while k < |stages|
        invariant k <= |stages| && CurrentIndex(View(), stages, k) == CurrentIndex(View(), stages, 0)
      {
        var i := Find(rows, stages[k].id, 0);
        if i < |rows| && (rows[i].status == InProgress || rows[i].status == AwaitingApproval) {
          return k;
        }
        k := k + 1;
      }
    }

    method MarkSkippedRange(stages: seq<StageDef>, start: nat, target: nat)
      requires target <= |stages|
      modifies this
      ensures View() == SkipRange(old(View()), stages, start, target)
    {
      hide Write;
      var i := start;
      while i < target
        invariant SkipRange(View(), stages, i, target) == SkipRange(old(View()), stages, start, target)
      {
        UpdateRow(stages[i].id, 0, Skipped, 0);
        i := i + 1;
      }
    }

    /** One of the first n rows has not passed. */
    static ghost predicate Unfinished(rows: seq<Row>, n: nat)
      requires n <= |rows|
    {
      exists j :: 0 <= j < n && !Passed(rows[j].status)
    }

    /** What a restart does to the rows of a feature without a live session. */
    method RestoreRows(live: bool) returns (needsAdvance: bool)
      modifies this
      ensures View() == Restore(old(View()), live)
      ensures needsAdvance <==> !old(finished) && !live && Unfinished(old(rows), |old(rows)|)
    {
      hide Write, Log, SetRow;
      needsAdvance := false;
      if finished || live {
        return;
      }
      var listing := rows;
      for i := 0 to |listing|
        invariant PipelineModel.RestoreRows(View(), listing, i) == PipelineModel.RestoreRows(old(View()), listing, 0)
        invariant needsAdvance <==> Unfinished(listing, i)
      {
        if listing[i].status == InProgress {
          UpdateRow(listing[i].stage, listing[i].bolt, Revising, 0);
          Record(StageInterrupted(listing[i].stage));
          needsAdvance := true;
        } else if listing[i].status == AwaitingApproval {
          needsAdvance := true;
        } else if listing[i].status == Revising {
          needsAdvance := true;
        } else if listing[i].status == NotStarted {
          needsAdvance := true;
        }
      }
    }

    // ----- bolts

    method CreateBolts(unitOfWork: string, dag: string)
      modifies this`bolts
      ensures View() == PrepareBolts(old(View()), unitOfWork, dag)
    {
      hide Plan;
      if |bolts| > 0 {
        return;
      }
      bolts := Plan(unitOfWork, dag);
    }

    method RunBolt(b: nat, agent: StageId -> AgentRun) returns (end: BoltEnd, results: seq<StageResult>)
      modifies this
      ensures BoltRun(View(), end, results) == PipelineModel.RunBolt(old(View()), b, agent)
    {
      hide Write, Log, PipelineModel.RunStage, Approve, BoltRows, BoltStages;
      results := [];
      if BoltAt(bolts, b) == |bolts| {
        return BoltError, [];
      }
      InitBoltStages(b);
      currentBolt := b;
      UpdateBolt(b, Running);
      Record(BoltStarted(b));
      end, results := RunBoltStages(b, agent);
    }

    method RunBoltStages(b: nat, agent: StageId -> AgentRun) returns (end: BoltEnd, results: seq<StageResult>)
      modifies this
      ensures BoltRun(View(), end, results) == BoltStages(old(View()), b, 1, agent, [])
    {
      hide Write, Log, PipelineModel.RunStage, Approve, WriteBolt;
      results := [];
      var m := 1;
      while m <= 5
        invariant 1 <= m <= 6
        invariant BoltStages(View(), b, m, agent, results) == BoltStages(old(View()), b, 1, agent, [])
      {
        var id := StageId(3, m);
        m := m + 1;
        var i := Find(rows, id, b);
        if i < |rows| && rows[i].status == Completed {
          continue;
        }
        var p := Pos(defs, id);
        if p == |defs| || !InScope(defs[p], Effective(scope)) {
          continue;
        }
        RunStageKeepsMode(View(), id, agent(id));
        var run := RunStage(id, agent(id));
        if run.None? {
          Record(BoltFailed(b));
          UpdateBolt(b, Broken);
          return BoltHalted(id), results;
        }
        var result := run.value;
        results := results + [result];
        if result.gateOpen {
          if mode == Autonomous || mode == Guided {
            var ok, _ := ApproveAndAdvance(id, b, true);
            if !ok {
              UpdateBolt(b, Pending);
              return BoltStalled, results;
            }
            continue;
          }
          UpdateBolt(b, Pending);
          return BoltPaused, results;
        }
        if result.source == SmokeFailed || result.source == ReviewerRejected {
          Record(HaltAndAsk(id));
          return BoltHalted(id), results;
        }
      }
      UpdateBolt(b, Done);
      Record(BoltCompleted(b));
      return BoltFinished, results;
    }
 
    // ----- the control loop

    method DecideNextAction() returns (action: Action)
      modifies this
      ensures Decision(View(), action) == Decide(old(View()))
    {
      hide Write, Log, SetRow, NextStage, FirstToRun, MergeRecorded, Skips;
      // 1. A stage in progress.
      for i := 0 to |rows|
        invariant forall j :: 0 <= j < i ==> rows[j].status != InProgress
        invariant View() == old(View())
      {
        if rows[i].status == InProgress {
          return ActWait;
        }
      }
      // 2. A stage awaiting approval.
      for i := 0 to |rows|
        invariant forall j :: 0 <= j < i ==> rows[j].status != AwaitingApproval
        invariant View() == old(View())
      {
        if rows[i].status == AwaitingApproval {
          if mode == Autonomous || mode == Guided {
            return ActAutoApprove(rows[i].stage, rows[i].bolt);
          }
          return ActNeedsHuman(rows[i].stage);
        }
      }
      // 3. A stage revising.
      for i := 0 to |rows|
        invariant forall j :: 0 <= j < i ==> rows[j].status != Revising
        invariant View() == old(View())
      {
        if rows[i].status == Revising {
          if mode == Autonomous || mode == Guided {
            if IsPerBolt(rows[i].stage) && rows[i].bolt > 0 {
              return ActRunBolt(rows[i].bolt);
            }
            return ActRunStage(rows[i].stage);
          }
          return ActWait;
        }
      }
      action := DecideWhenIdle();
    }

    /** Steps 4 to 8: no row is in progress, awaiting approval or revising. */
    method DecideWhenIdle() returns (action: Action)
      modifies this
      ensures Decision(View(), action) == DecideIdle(old(View()))
    {
      hide Write, Log, SetRow, Skips, NextStage, FirstToRun, StageDone;
      // 4. Inception is done but no bolts are prepared.
      var prepared := IsStageDone(LAST_OF_INCEPTION);
      if prepared && |bolts| == 0 {
        return ActPrepareBolts;
      }
      // 5. A bolt has stages to start.
      var k := FirstOpenBolt();
      if prepared && k < |bolts| {
        return ActRunBolt(bolts[k].number);
      }
      // 6. Construction is done but not merged.
      var constructed := IsStageDone(LAST_OF_CONSTRUCTION);
      if constructed && !(MergeAttempted in audit || MergedToMain in audit) {
        return ActMerge;
      }
      // 7. The next linear stage; 8. or none.
      var next := FirstLinearToStart();
      return if next.Some? then ActRunStage(next.value) else ActDone;
    }

    method IsStageDone(id: StageId) returns (done: bool)
      ensures done == StageDone(rows, id)
    {
      done := false;
      for i := 0 to |rows|
        invariant done <==> exists j :: 0 <= j < i && rows[j].stage == id && rows[j].status == Completed
      {
        if rows[i].stage == id && rows[i].status == Completed {
          done := true;
        }
      }
    }

    method FirstOpenBolt() returns (k: nat)
      ensures k == PipelineModel.FirstToRun(View(), 0)
    {
      k := 0;
      while k < |bolts|
        invariant k <= |bolts| && PipelineModel.FirstToRun(View(), k) == PipelineModel.FirstToRun(View(), 0)
      {
        if bolts[k].status != Done {
          var hasNotStarted := false;
          for i := 0 to |rows|
            invariant hasNotStarted <==>
                        exists j :: 0 <= j < i && rows[j].bolt == bolts[k].number && rows[j].status == NotStarted && IsPerBolt(rows[j].stage)
          {
            if rows[i].bolt == bolts[k].number && rows[i].status == NotStarted && IsPerBolt(rows[i].stage) {
              hasNotStarted := true;
              break;
            }
          }
          if hasNotStarted {
            return k;
          }
        }
        k := k + 1;
      }
    }

    /** Step 7 tests the status before the kind of stage, where NextStageToRun does the opposite. */
    method FirstLinearToStart() returns (next: Option<StageId>)
      modifies this
      ensures Scan(View(), next) == NextStage(old(View()), old(rows), 0)
    {
      hide Write, Log, SetRow, Skips;
      var listing := rows;
      for i := 0 to |listing|
        invariant NextStage(View(), listing, i) == NextStage(old(View()), listing, 0)
      {
        if listing[i].status != NotStarted || IsPerBolt(listing[i].stage) {
          continue;
        }
        if SkipsStage(listing[i].stage) {
          UpdateRow(listing[i].stage, 0, Skipped, 0);
          Record(StageSkipped(listing[i].stage));
          continue;
        }
        return Some(listing[i].stage);
      }
      return None;
    }

    method MarkFeatureDone()
      modifies this
      ensures View() == FinishFeature(old(View()))
    {
      finished := true;
      Record(FeatureDone);
    }

    /** One pass through the loop; None when it goes on. */
    method TakeTurn(w: World) returns (stop: Option<StopReason>)
      modifies this
      ensures PipelineModel.TakeTurn(old(View()), w) == (if stop.Some? then Stop(View(), stop.value) else Continue(View()))
    {
      hide Write, Log, Decide, Approve, PipelineModel.RunBolt, PipelineModel.RunStage, ProcessStageResult, PrepareBolts, IsInitStage;
      if w.cancelled {
        return Some(Cancelled);
      }
      var action := DecideNextAction();
      match action {
        case ActDone =>
          MarkFeatureDone();
          return Some(AllDone);
        case ActWait =>
          return Some(Waiting);
        case ActNeedsHuman(_) =>
          return Some(AtGate);
        case ActAutoApprove(id, bolt) =>
          var ok, _ := ApproveAndAdvance(id, bolt, w.authOk);
          return if ok then None else Some(ApproveFailed);
        case ActPrepareBolts =>
          CreateBolts(w.unitOfWork, w.dag);
          return None;
        case ActRunBolt(b) =>
          var end, _ := RunBolt(b, w.agent);
          return match end
            case BoltError => Some(BoltFailure)
            case BoltHalted(_) => Some(BoltFailure)
            case BoltPaused => Some(AtGate)
            case _ => None;
        case ActMerge =>
          Record(MergeAttempted);
          if w.mergeOk {
            Record(MergedToMain);
          }
          return None;
        case ActRunStage(id) =>
          var result := RunStage(id, w.agent(id));
          if result.None? {
            return Some(StageFailure);
          }
          var outcome := ProcessResult(id, result.value);
          if outcome == NeedsReview {
            return Some(AtGate);
          }
          if outcome == OutcomeFailed {
            return Some(StageFailure);
          }
          return if IsInitStage(defs, id) || mode == Guided || mode == Autonomous then None else Some(AtGate);
      }
    }

    /** The control loop.  It stops whenever it does not get stuck, and keeps the safety invariants;
        WillStopNeverSticks gives a condition on the state alone under which it never does. */
    method AdvanceFeature(world: nat -> World) returns (reason: StopReason, ghost turns: nat)
      requires Valid(View()) && NeverStuck(View(), world)
      modifies this
      ensures View() == Loop(old(View()), world, turns + 1)
      ensures PipelineModel.TakeTurn(Loop(old(View()), world, turns), world(turns)) == Stop(View(), reason)
      ensures forall i :: 0 <= i < turns ==> PipelineModel.TakeTurn(Loop(old(View()), world, i), world(i)).Continue?
      ensures Valid(View()) && (Inv(old(View())) ==> Inv(View()))
    {
      hide PipelineModel.TakeTurn, Valid, Inv, Stuck, Missing, BoltsLeft, MergeLeft, Weight, Open, Loop, KeepsCompleted;
      LoopStep(View(), world, 0);
      turns := 0;
      var n: nat := 0;
      while true
        invariant turns == n && View() == Loop(old(View()), world, n)
        invariant Valid(View()) && (Inv(old(View())) ==> Inv(View()))
        invariant forall i :: 0 <= i < n ==> PipelineModel.TakeTurn(Loop(old(View()), world, i), world(i)).Continue?
        decreases BoltsLeft(View()), MergeLeft(View()), Missing(View()), Weight(rows, |rows|), Open(bolts)
      {
        ghost var before := View();
        LoopStep(old(View()), world, n);
        assert Reaches(old(View()), world, n);
        TurnKeepsValid(before, world(n));
        if Inv(before) {
          TurnKeepsInv(before, world(n));
        }
        var stop := TakeTurn(world(n));
        if stop.Some? {
          return stop.value, turns;
        }
        TurnIsCloser(before, world(n));
        n, turns := n + 1, turns + 1;
      }
    }
  }
}
