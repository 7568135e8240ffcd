/** The stage pipeline of one feature as transitions on its stored state.

    Whatever an agent, a reviewer, the git host or the user can do is an input
    of the transition that consults it, so a statement for all inputs is a
    statement for every behaviour of the outside world. */
module PipelineModel {
  import opened Basics
  import opened StageTable
  import opened BoltPlan

  datatype Mode = Unset | Human | Guided | Autonomous

  /** What `devteam signal` records for a stage. */
  datatype Outcome = Pass | Fail | Recirculate | NeedsFeedback

  datatype Event =
    | StageStart(stage: StageId)
    | StageAwaiting(stage: StageId)
    | StageRevising(stage: StageId)
    | StageFailed(stage: StageId)
    | StageCompleted(stage: StageId)
    | StageSkipped(stage: StageId)
    | StageAdvanced(stage: StageId)
    | StageInterrupted(stage: StageId)
    | SubagentCompleted(stage: StageId)
    | QuotaExhausted(stage: StageId)
    | GateApproved(stage: StageId)
    | GateRejected(stage: StageId)
    | RuleLearned(stage: StageId)
    | GateAcceptAsIs(stage: StageId)
    | JumpToStage(stage: StageId)
    | BoltStarted(bolt: nat)
    | BoltFailed(bolt: nat)
    | BoltCompleted(bolt: nat)
    | HaltAndAsk(stage: StageId)
    | WorkflowComplete
    | AuthHealthFailed
    | MergeAttempted
    | MergedToMain
    | FeatureDone

  /** Observers of every write to the table; the program does not read them.
      solo: no write has left two rows in progress.
      unrepeated: no completed row has been put in progress. */
  datatype Watch = Watch(solo: bool, unrepeated: bool)

  datatype State = State(
    defs: seq<StageDef>,
    rows: seq<Row>,
    bolts: seq<Bolt>,
    audit: seq<Event>,
    outcomes: map<StageId, Outcome>,
    scope: string,
    mode: Mode,
    finished: bool,
    currentStage: Option<StageId>,
    currentBolt: nat,
    watch: Watch)

  const MAX_REVISIONS: nat := 3

  const LAST_OF_INCEPTION := StageId(2, 8)
  const LAST_OF_CONSTRUCTION := StageId(3, 7)

  /** A feature without a scope runs as a "feature". */
  function Effective(scope: string): string {
    if scope == "" then "feature" else scope
  }

  predicate AutoMode(m: Mode) {
    m == Guided || m == Autonomous
  }

  // ----- writes

  predicate OneRunning(rows: seq<Row>) {
    forall i, j | 0 <= i < j < |rows| :: !(rows[i].status == InProgress && rows[j].status == InProgress)
  }

  predicate CompletedAt(rows: seq<Row>, id: StageId, bolt: nat) {
    exists i | 0 <= i < |rows| :: Matches(rows[i], id, bolt) && rows[i].status == Completed
  }

  function Write(s: State, id: StageId, bolt: nat, status: Status, revisions: nat): State {
    var rows := SetRow(s.rows, id, bolt, status, revisions);
    s.(rows := rows,
       watch := Watch(s.watch.solo && OneRunning(rows),
                      s.watch.unrepeated && !(status == InProgress && CompletedAt(s.rows, id, bolt))))
  }

  function Log(s: State, e: Event): State {
    s.(audit := s.audit + [e])
  }

  function SetBolt(bolts: seq<Bolt>, number: nat, status: BoltStatus): (r: seq<Bolt>)
    ensures |r| == |bolts|
    ensures forall i :: 0 <= i < |r| ==>
              r[i] == if bolts[i].number == number then bolts[i].(status := status) else bolts[i]
  {
    seq(|bolts|, i requires 0 <= i < |bolts| =>
      if bolts[i].number == number then bolts[i].(status := status) else bolts[i])
  }

  function WriteBolt(s: State, number: nat, status: BoltStatus): State {
    s.(bolts := SetBolt(s.bolts, number, status))
  }

  /** Index of a bolt, |bolts| when there is none. */
  function BoltAt(bolts: seq<Bolt>, number: nat): (p: nat)
    ensures p <= |bolts|
    ensures p < |bolts| ==> bolts[p].number == number
    ensures forall i :: 0 <= i < p ==> bolts[i].number != number
  {
    if bolts == [] || bolts[0].number == number then 0 else 1 + BoltAt(bolts[1..], number)
  }

  // ----- running one stage

  datatype Review = ReviewError | Ready | NotReady

  /** How a dispatch ends: the context is cancelled while it waits to retry, the provider's quota
      is exhausted, it fails, or the agent exits. */
  datatype Ending = Interrupted | Quota | Crashed | Finished(exitOk: bool, smokeFails: bool, review: Review)

  datatype AgentRun =
    | ContextError
    | RoleError
    | Dispatched(signal: Option<Outcome>, ending: Ending)

  datatype Source = AgentSignal | DefaultPass | AgentFailed | SmokeFailed | ReviewerRejected

  datatype StageResult = StageResult(stage: StageId, bolt: nat, source: Source, gateOpen: bool)

  datatype StageRun = StageError(state: State) | StageRan(state: State, result: StageResult)

  function Verdict(signal: Option<Outcome>, exitOk: bool): Outcome {
    match signal
    case Some(o) => o
    case None => if exitOk then Pass else Fail
  }

  function FirstSource(signal: Option<Outcome>, exitOk: bool): Source {
    if signal.Some? then AgentSignal else if exitOk then DefaultPass else AgentFailed
  }

  function RunStage(s: State, id: StageId, run: AgentRun): StageRun {
    var p := Pos(s.defs, id);
    var bolt := if IsPerBolt(id) then s.currentBolt else 0;
    if p == |s.defs| || (IsPerBolt(id) && bolt == 0) then StageError(s)
    else
      var i := Find(s.rows, id, bolt);
      if i == |s.rows| then StageError(s)
      else
        var rev := s.rows[i].revisions;
        var started := Log(Write(s, id, bolt, InProgress, rev), StageStart(id));
        match run
        case ContextError => StageError(started)
        case RoleError => StageError(started.(outcomes := started.outcomes - {id}))
        case Dispatched(signal, ending) =>
          var sent := started.(outcomes := if signal.Some? then (started.outcomes - {id})[id := signal.value]
                                           else started.outcomes - {id});
          EndDispatch(sent, s.defs[p], bolt, rev, signal, ending)
  }

  function EndDispatch(s: State, def: StageDef, bolt: nat, rev: nat, signal: Option<Outcome>, ending: Ending): StageRun {
    match ending
    case Interrupted => StageError(s)
    case Quota => StageError(Write(Log(s, QuotaExhausted(def.id)), def.id, bolt, Revising, rev))
    case Crashed => StageError(Write(s, def.id, bolt, Failed, rev))
    case Finished(exitOk, smokeFails, review) =>
      FinishStage(s, def, bolt, rev, Verdict(signal, exitOk), FirstSource(signal, exitOk), smokeFails, review)
  }

  /** The smoke check, the review and the gate of a stage whose agent has exited. */
  function FinishStage(s: State, def: StageDef, bolt: nat, rev: nat, verdict: Outcome, source: Source,
                       smokeFails: bool, review: Review): (r: StageRun)
    ensures r.StageRan?
  {
    var id := def.id;
    var smoke := verdict == Pass && smokeFails;
    var reviewed := def.hasReviewer && !smoke && verdict == Pass && review != ReviewError;
    var s1 := if reviewed then Log(s, SubagentCompleted(id)) else s;
    if smoke then
      StageRan(Log(Write(s1, id, bolt, Revising, rev + 1), StageRevising(id)), StageResult(id, bolt, SmokeFailed, false))
    else if reviewed && review == NotReady then
      StageRan(Log(Write(s1, id, bolt, Revising, rev + 1), StageRevising(id)), StageResult(id, bolt, ReviewerRejected, false))
    else
      var s2 := Log(Write(s1, id, bolt, AwaitingApproval, rev), StageAwaiting(id));
      var s3 := if verdict == Fail then Log(Write(s2, id, bolt, Revising, rev), StageFailed(id)) else s2;
      StageRan(s3, StageResult(id, bolt, source, true))
  }

  // ----- after a stage

  datatype StageOutcome = NeedsReview | AutoApproved | OutcomeFailed

  datatype Processed = Processed(state: State, outcome: StageOutcome)

  predicate IsInitStage(defs: seq<StageDef>, id: StageId) {
    var p := Pos(defs, id);
    p < |defs| && defs[p].phase == Initialization
  }

  predicate IsPhaseEnd(defs: seq<StageDef>, id: StageId) {
    Pos(defs, id) < |defs| && (id == StageId(1, 7) || id == StageId(2, 8) || id == StageId(3, 7) || id == StageId(4, 7))
  }

  predicate AutoApproves(s: State, id: StageId) {
    IsInitStage(s.defs, id) || s.mode == Autonomous || (s.mode == Guided && !IsPhaseEnd(s.defs, id))
  }

  function ProcessStageResult(s: State, id: StageId, result: StageResult): Processed {
    var bolt := result.bolt;
    var i := Find(s.rows, id, bolt);
    if i == |s.rows| then Processed(s, OutcomeFailed)
    else
      var rev := s.rows[i].revisions;
      if result.source == SmokeFailed || result.source == ReviewerRejected || result.source == AgentFailed then
        Processed(Log(Write(s, id, bolt, Revising, rev), StageFailed(id)), OutcomeFailed)
      else if !result.gateOpen then
        Processed(Log(Write(s, id, bolt, Completed, rev), StageCompleted(id)), AutoApproved)
      else if AutoApproves(s, id) then
        Processed(Log(Log(Write(s, id, bolt, Completed, rev), GateApproved(id)), StageCompleted(id)), AutoApproved)
      else
        Processed(Log(Write(s, id, bolt, AwaitingApproval, rev), StageAwaiting(id)), NeedsReview)
  }

  predicate ShouldAutoAdvance(s: State, id: StageId) {
    IsInitStage(s.defs, id) || AutoMode(s.mode)
  }

  // ----- the next linear stage

  datatype Scan = Scan(state: State, next: Option<StageId>)

  predicate Waits(r: Row) {
    r.status == NotStarted && !IsPerBolt(r.stage)
  }

  predicate Skips(s: State, id: StageId) {
    var p := Pos(s.defs, id);
    p < |s.defs| && OutOfScope(s.defs[p], Effective(s.scope))
  }

  function MarkSkipped(s: State, id: StageId): State {
    Log(Write(s, id, 0, Skipped, 0), StageSkipped(id))
  }

  /** Rows k.. of the listing in order: out-of-scope linear rows that have not started are skipped
      until the first one that is in scope. */
  function NextStage(s: State, listing: seq<Row>, k: nat): Scan
    requires k <= |listing|
    decreases |listing| - k
  {
    if k == |listing| then Scan(s, None)
    else if !Waits(listing[k]) then NextStage(s, listing, k + 1)
    else if Skips(s, listing[k].stage) then NextStage(MarkSkipped(s, listing[k].stage), listing, k + 1)
    else Scan(s, Some(listing[k].stage))
  }

  // ----- gates

  datatype Advanced = Advanced(state: State, ok: bool)

  /** authOk: the answer of the auth-health check at a phase boundary. */
  function AdvanceStage(s: State, id: StageId, authOk: bool): Advanced {
    var stages := Scoped(s.defs, Effective(s.scope));
    var k := Pos(stages, id);
    if k == |stages| then Advanced(s, false)
    else if k == |stages| - 1 then
      Advanced(Log(s.(finished := true, currentStage := Some(id)), WorkflowComplete), true)
    else
      var next := stages[k + 1];
      var s1 := Log(Write(s.(currentStage := Some(next.id)), next.id, 0, NotStarted, 0), StageAdvanced(next.id));
      if stages[k].phase != next.phase && !authOk
      then Advanced(Log(s1, AuthHealthFailed), false)
      else Advanced(s1, true)
  }

  datatype Approval = Refused(state: State) | Approved(state: State, next: Option<StageId>)

  function Approve(s: State, id: StageId, bolt: nat, authOk: bool): Approval {
    var i := Find(s.rows, id, bolt);
    if i == |s.rows| then Refused(s)
    else if s.rows[i].status != AwaitingApproval && s.rows[i].status != Revising then Refused(s)
    else if id in s.outcomes && s.outcomes[id] == Recirculate then Refused(s)
    else
      var s1 := Log(Log(Write(s, id, bolt, Completed, s.rows[i].revisions), GateApproved(id)), StageCompleted(id));
      var adv := if IsPerBolt(id) then Advanced(s1, true) else AdvanceStage(s1, id, authOk);
      if !adv.ok then Refused(adv.state)
      else
        var scan := NextStage(adv.state, adv.state.rows, 0);
        Approved(scan.state, scan.next)
  }

  function Reject(s: State, id: StageId, bolt: nat): Advanced {
    var i := Find(s.rows, id, bolt);
    if i == |s.rows| then Advanced(s, false)
    else if s.rows[i].status != AwaitingApproval && s.rows[i].status != Revising then Advanced(s, false)
    else if Pos(s.defs, id) == |s.defs| then Advanced(s, false)
    else
      Advanced(Log(Log(Write(s, id, bolt, Revising, s.rows[i].revisions + 1), GateRejected(id)), RuleLearned(id)), true)
  }

  function AcceptAsIs(s: State, id: StageId, bolt: nat, authOk: bool): Advanced {
    var i := Find(s.rows, id, bolt);
    if i == |s.rows| then Advanced(s, false)
    else if s.rows[i].revisions < MAX_REVISIONS then Advanced(s, false)
    else
      var s1 := Log(Log(Write(s, id, bolt, Completed, s.rows[i].revisions), GateAcceptAsIs(id)), StageCompleted(id));
      if IsPerBolt(id) then Advanced(s1, true) else AdvanceStage(s1, id, authOk)
  }

  // ----- one bolt

  datatype BoltEnd =
    | BoltError
    | BoltFinished
    | BoltHalted(at: StageId)
    | BoltPaused
    | BoltStalled  // an automatic approval was refused; neither failed nor paused

  datatype BoltRun = BoltRun(state: State, end: BoltEnd, results: seq<StageResult>)

  /** Stages 3.m-3.5 of bolt b, whose rows exist; agent says what each dispatch does. */
  function BoltStages(s: State, b: nat, m: nat, agent: StageId -> AgentRun, results: seq<StageResult>): BoltRun
    requires 1 <= m <= 6
    decreases 6 - m
  {
    if m == 6 then
      BoltRun(Log(WriteBolt(s, b, Done), BoltCompleted(b)), BoltFinished, results)
    else
      var id := StageId(3, m);
      if SkipsInBolt(s, id, b) then BoltStages(s, b, m + 1, agent, results)
      else
        match RunStage(s, id, agent(id))
        case StageError(s1) =>
          BoltRun(WriteBolt(Log(s1, BoltFailed(b)), b, Broken), BoltHalted(id), results)
        case StageRan(s1, result) =>
          var results1 := results + [result];
          if result.gateOpen then
            if AutoMode(s.mode) then
              match Approve(s1, id, b, true)
              case Refused(s2) => BoltRun(WriteBolt(s2, b, Pending), BoltStalled, results1)
              case Approved(s2, _) => BoltStages(s2, b, m + 1, agent, results1)
            else
              BoltRun(WriteBolt(s1, b, Pending), BoltPaused, results1)
          else if result.source == SmokeFailed || result.source == ReviewerRejected then
            BoltRun(Log(s1, HaltAndAsk(id)), BoltHalted(id), results1)
          else
            BoltStages(s1, b, m + 1, agent, results1)
  }

  /** RunBolt passes over a stage that is completed for the bolt, undefined, or out of scope. */
  predicate SkipsInBolt(s: State, id: StageId, b: nat) {
    var i := Find(s.rows, id, b);
    var p := Pos(s.defs, id);
    || (i < |s.rows| && s.rows[i].status == Completed)
    || p == |s.defs|
    || !InScope(s.defs[p], Effective(s.scope))
  }

  function BoltRows(s: State, b: nat): seq<Row> {
    InitBolt(s.defs, s.rows, b, Scoped(s.defs, Effective(s.scope)))
  }

  function StartBolt(s: State, b: nat): State {
    Log(WriteBolt(s.(rows := BoltRows(s, b), currentBolt := b), b, Running), BoltStarted(b))
  }

  function RunBolt(s: State, b: nat, agent: StageId -> AgentRun): BoltRun {
    if BoltAt(s.bolts, b) == |s.bolts| then BoltRun(s, BoltError, [])
    else BoltStages(StartBolt(s, b), b, 1, agent, [])
  }

  // ----- what to do next

  datatype Action =
    | ActDone
    | ActWait
    | ActNeedsHuman(stage: StageId)
    | ActAutoApprove(stage: StageId, bolt: nat)
    | ActPrepareBolts
    | ActRunBolt(bolt: nat)
    | ActMerge
    | ActRunStage(stage: StageId)

  datatype Decision = Decision(state: State, action: Action)

  /** First row with the given status, |rows| when there is none. */
  function FirstWith(rows: seq<Row>, status: Status): (p: nat)
    ensures p <= |rows|
    ensures p < |rows| ==> rows[p].status == status
    ensures forall i :: 0 <= i < p ==> rows[i].status != status
  {
    if rows == [] || rows[0].status == status then 0 else 1 + FirstWith(rows[1..], status)
  }

  predicate StageDone(rows: seq<Row>, id: StageId) {
    exists i | 0 <= i < |rows| :: rows[i].stage == id && rows[i].status == Completed
  }

  predicate HasNotStarted(rows: seq<Row>, b: nat) {
    exists i | 0 <= i < |rows| :: rows[i].bolt == b && rows[i].status == NotStarted && IsPerBolt(rows[i].stage)
  }

  predicate NeedsRun(s: State, b: Bolt) {
    b.status != Done && HasNotStarted(s.rows, b.number)
  }

  /** First bolt that still has stages to start, |bolts| when there is none. */
  function FirstToRun(s: State, k: nat): (p: nat)
    requires k <= |s.bolts|
    ensures k <= p <= |s.bolts|
    ensures p < |s.bolts| ==> NeedsRun(s, s.bolts[p])
    ensures forall i :: k <= i < p ==> !NeedsRun(s, s.bolts[i])
    decreases |s.bolts| - k
  {
    if k == |s.bolts| || NeedsRun(s, s.bolts[k]) then k else FirstToRun(s, k + 1)
  }

  predicate MergeRecorded(audit: seq<Event>) {
    MergeAttempted in audit || MergedToMain in audit
  }

  function Decide(s: State): Decision {
    var n := |s.rows|;
    var waiting := FirstWith(s.rows, AwaitingApproval);
    var revising := FirstWith(s.rows, Revising);
    if FirstWith(s.rows, InProgress) < n then Decision(s, ActWait)
    else if waiting < n then
      var r := s.rows[waiting];
      Decision(s, if AutoMode(s.mode) then ActAutoApprove(r.stage, r.bolt) else ActNeedsHuman(r.stage))
    else if revising < n then
      var r := s.rows[revising];
      Decision(s, if !AutoMode(s.mode) then ActWait
                  else if IsPerBolt(r.stage) && r.bolt > 0 then ActRunBolt(r.bolt)
                  else ActRunStage(r.stage))
    else DecideIdle(s)
  }

  /** No row is in progress, awaiting approval or revising. */
  function DecideIdle(s: State): Decision {
    var prepared := StageDone(s.rows, LAST_OF_INCEPTION);
    var k := FirstToRun(s, 0);
    if prepared && s.bolts == [] then Decision(s, ActPrepareBolts)
    else if prepared && k < |s.bolts| then Decision(s, ActRunBolt(s.bolts[k].number))
    else if StageDone(s.rows, LAST_OF_CONSTRUCTION) && !MergeRecorded(s.audit) then Decision(s, ActMerge)
    else
      var scan := NextStage(s, s.rows, 0);
      Decision(scan.state, if scan.next.Some? then ActRunStage(scan.next.value) else ActDone)
  }

  // ----- one turn of the loop

  /** The outside world during one turn: cancellation, the auth check, the two artifacts of
      stage 2.7, what each dispatch does, and whether the merge succeeds. */
  datatype World = World(cancelled: bool, authOk: bool, unitOfWork: string, dag: string,
                         agent: StageId -> AgentRun, mergeOk: bool)

  datatype StopReason = Cancelled | AllDone | Waiting | AtGate | ApproveFailed | BoltFailure | StageFailure

  datatype Turn = Stop(state: State, reason: StopReason) | Continue(state: State)

  function FinishFeature(s: State): State {
    Log(s.(finished := true), FeatureDone)
  }

  function TakeTurn(s: State, w: World): Turn {
    if w.cancelled then Stop(s, Cancelled)
    else
      var d := Decide(s);
      Perform(d.state, d.action, w)
  }

  function Perform(s: State, a: Action, w: World): Turn {
    match a
    case ActDone => Stop(FinishFeature(s), AllDone)
    case ActWait => Stop(s, Waiting)
    case ActNeedsHuman(_) => Stop(s, AtGate)
    case ActAutoApprove(id, bolt) =>
      (match Approve(s, id, bolt, w.authOk)
       case Refused(t) => Stop(t, ApproveFailed)
       case Approved(t, _) => Continue(t))
    case ActPrepareBolts => Continue(PrepareBolts(s, w.unitOfWork, w.dag))
    case ActRunBolt(b) =>
      var run := RunBolt(s, b, w.agent);
      (match run.end
       case BoltError => Stop(run.state, BoltFailure)
       case BoltHalted(_) => Stop(run.state, BoltFailure)
       case BoltPaused => Stop(run.state, AtGate)
       case _ => Continue(run.state))
    case ActMerge =>
      var t := Log(s, MergeAttempted);
      Continue(if w.mergeOk then Log(t, MergedToMain) else t)
    case ActRunStage(id) =>
      match RunStage(s, id, w.agent(id))
      case StageError(t) => Stop(t, StageFailure)
      case StageRan(t, result) =>
        var p := ProcessStageResult(t, id, result);
        if p.outcome == NeedsReview then Stop(p.state, AtGate)
        else if p.outcome == OutcomeFailed then Stop(p.state, StageFailure)
        else if ShouldAutoAdvance(p.state, id) then Continue(p.state)
        else Stop(p.state, AtGate)
  }

  function PrepareBolts(s: State, unitOfWork: string, dag: string): State {
    if s.bolts != [] then s else s.(bolts := Plan(unitOfWork, dag))
  }

  // ----- restart and jumps

  /** Interrupted rows k.. of the listing become revising. */
  function RestoreRows(s: State, listing: seq<Row>, k: nat): State
    requires k <= |listing|
    decreases |listing| - k
  {
    if k == |listing| then s
    else if listing[k].status == InProgress then
      RestoreRows(Log(Write(s, listing[k].stage, listing[k].bolt, Revising, 0), StageInterrupted(listing[k].stage)),
                  listing, k + 1)
    else RestoreRows(s, listing, k + 1)
  }

  /** live: a tmux session of the feature survived the restart. */
  function Restore(s: State, live: bool): State {
    if s.finished || live then s else RestoreRows(s, s.rows, 0)
  }

  /** First of the stages k.. whose once-only row is in progress or awaiting approval, |stages| when none is. */
  function CurrentIndex(s: State, stages: seq<StageDef>, k: nat): (p: nat)
    requires k <= |stages|
    ensures k <= p <= |stages|
    decreases |stages| - k
  {
    if k == |stages| then k
    else
      var i := Find(s.rows, stages[k].id, 0);
      if i < |s.rows| && (s.rows[i].status == InProgress || s.rows[i].status == AwaitingApproval) then k
      else CurrentIndex(s, stages, k + 1)
  }

  function SkipRange(s: State, stages: seq<StageDef>, lo: nat, hi: nat): State
    requires hi <= |stages|
    decreases hi - lo
  {
    if lo >= hi then s else SkipRange(Write(s, stages[lo].id, 0, Skipped, 0), stages, lo + 1, hi)
  }

  function Jump(s: State, target: StageId): Advanced {
    var stages := Scoped(s.defs, Effective(s.scope));
    var t := Pos(stages, target);
    if t == |stages| then Advanced(s, false)
    else
      var c := CurrentIndex(s, stages, 0);
      var s1 := SkipRange(s, stages, if c < |stages| then c + 1 else 0, t);
      Advanced(Log(Write(s1, target, 0, NotStarted, 0), JumpToStage(target)), true)
  }
}
