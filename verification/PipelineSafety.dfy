/** What holds of a feature in every state of every run: turns of the control loop, direct bolt
    runs, gate decisions and restarts, in any order, with any behaviour of the outside world. */
module PipelineSafety {
  import opened Basics
  import opened StageTable
  import opened BoltPlan
  import opened PipelineModel
  import opened PipelineEffects
  import opened PipelineTermination

  // ----- the invariants

  predicate Passed(status: Status) {
    status == Completed || status == Skipped || status == Failed
  }

  predicate Active(status: Status) {
    status == InProgress || status == AwaitingApproval || status == Revising
  }

  predicate Linear(r: Row) {
    !IsPerBolt(r.stage)
  }

  /** In sort order the linear rows read: passed rows, at most one active row, rows not started. */
  ghost predicate Shape(rows: seq<Row>) {
    forall i, j :: 0 <= i < j < |rows| && Linear(rows[i]) && Linear(rows[j]) && rows[j].status != NotStarted
                   ==> Passed(rows[i].status)
  }

  ghost predicate AllInScope(s: State) {
    forall r :: r in s.rows ==> InScopeStage(s, r.stage)
  }

  /** So far no two rows were ever in progress together, and no completed row was started again. */
  ghost predicate Clean(s: State) {
    s.watch == Watch(true, true) && OneRunning(s.rows)
  }

  /** A bolt that is done has every stage in scope completed. */
  ghost predicate BoltsHonest(s: State) {
    forall i :: 0 <= i < |s.bolts| && s.bolts[i].status == Done ==> BoltComplete(s, s.bolts[i].number)
  }

  /** At most one attempt to merge is on record, and a success only right after it. */
  ghost predicate OneMerge(audit: seq<Event>) {
    && (forall i, j :: 0 <= i < j < |audit| && audit[j] == MergeAttempted ==>
          audit[i] != MergeAttempted && audit[i] != MergedToMain)
    && (forall j :: 0 <= j < |audit| && audit[j] == MergedToMain ==> j > 0 && audit[j - 1] == MergeAttempted)
  }

  ghost predicate Inv(s: State) {
    && Valid(s) && AllInScope(s) && Shape(s.rows) && Clean(s) && BoltsHonest(s) && OneMerge(s.audit)
  }

  // ----- linear rows

  /** Row p is where the linear stages have got to. */
  ghost predicate Frontier(rows: seq<Row>, p: nat) {
    && p < |rows| && Linear(rows[p])
    && (forall i :: 0 <= i < p && Linear(rows[i]) ==> Passed(rows[i].status))
    && (forall j :: p < j < |rows| && Linear(rows[j]) ==> rows[j].status == NotStarted)
  }

  lemma ActiveIsFrontier(rows: seq<Row>, p: nat)
    requires Shape(rows) && p < |rows| && Linear(rows[p]) && Active(rows[p].status)
    ensures Frontier(rows, p)
  {
  }

  /** With no active row, the first row not started is the frontier. */
  lemma WaitingIsFrontier(rows: seq<Row>, p: nat)
    requires Shape(rows) && p < |rows| && Waits(rows[p])
    requires NoRow(rows, InProgress) && NoRow(rows, AwaitingApproval) && NoRow(rows, Revising)
    requires forall i :: 0 <= i < p ==> !Waits(rows[i])
    ensures Frontier(rows, p)
  {
  }

  lemma InsertKeepsShape(defs: seq<StageDef>, rows: seq<Row>, id: StageId, b: nat)
    requires Shape(rows) && IsPerBolt(id)
    ensures Shape(InsertRow(defs, rows, id, b))
  {
    var t := InsertRow(defs, rows, id, b);
    if Find(rows, id, b) == |rows| {
      var p := Slot(defs, rows, Row(id, b, NotStarted, 0));
      forall i, j | 0 <= i < j < |t| && Linear(t[i]) && Linear(t[j]) && t[j].status != NotStarted
        ensures Passed(t[i].status)
      {
        var i', j' := if i < p then i else i - 1, if j < p then j else j - 1;
        assert t[i] == rows[i'] && t[j] == rows[j'];
      }
    }
  }

  lemma {:induction false} InitBoltKeepsShape(defs: seq<StageDef>, rows: seq<Row>, b: nat, stages: seq<StageDef>)
    requires Shape(rows)
    ensures Shape(InitBolt(defs, rows, b, stages))
    decreases |stages|
  {
    hide Shape, InsertRow;
    if stages != [] {
      if IsPerBolt(stages[0].id) {
        InsertKeepsShape(defs, rows, stages[0].id, b);
        InitBoltKeepsShape(defs, InsertRow(defs, rows, stages[0].id, b), b, stages[1..]);
      } else {
        InitBoltKeepsShape(defs, rows, b, stages[1..]);
      }
    }
  }

  // ----- one row at a time in progress

  lemma WriteKeepsClean(s: State, id: StageId, bolt: nat, status: Status, revisions: nat)
    requires Clean(s) && status != InProgress
    ensures Clean(Write(s, id, bolt, status, revisions))
    ensures NoRow(s.rows, InProgress) ==> NoRow(Write(s, id, bolt, status, revisions).rows, InProgress)
  {
  }

  /** Only the row with this key may be in progress. */
  ghost predicate OnlyRunning(s: State, id: StageId, bolt: nat) {
    Clean(s) && forall j :: 0 <= j < |s.rows| && s.rows[j].status == InProgress ==> Matches(s.rows[j], id, bolt)
  }

  ghost predicate Idle(s: State) {
    Clean(s) && NoRow(s.rows, InProgress)
  }

  /** Starting an unfinished stage while no other row is in progress. */
  lemma StartOnlyRunning(s: State, id: StageId, bolt: nat, revisions: nat, e: Event)
    requires Valid(s) && OnlyRunning(s, id, bolt)
    requires var i := Find(s.rows, id, bolt); i < |s.rows| && s.rows[i].status != Completed
    ensures OnlyRunning(Log(Write(s, id, bolt, InProgress, revisions), e), id, bolt)
  {
    hide Find;
    forall j | 0 <= j < |s.rows| && Matches(s.rows[j], id, bolt)
      ensures j == Find(s.rows, id, bolt)
    {
      KeyIsUnique(s, j, id, bolt);
    }
  }

  lemma IdleIsOnlyRunning(s: State, id: StageId, bolt: nat)
    requires Idle(s)
    ensures OnlyRunning(s, id, bolt)
  {
  }

  lemma EndIsIdle(s: State, id: StageId, bolt: nat, status: Status, revisions: nat)
    requires OnlyRunning(s, id, bolt) && status != InProgress
    ensures Idle(Write(s, id, bolt, status, revisions))
  {
  }

  lemma IdleWrite(s: State, id: StageId, bolt: nat, status: Status, revisions: nat, e: Event)
    requires Idle(s) && status != InProgress
    ensures Idle(Write(s, id, bolt, status, revisions)) && Idle(Log(Write(s, id, bolt, status, revisions), e))
  {
    hide OneRunning;
    WriteKeepsClean(s, id, bolt, status, revisions);
  }

  lemma LogKeepsRunning(s: State, e: Event, id: StageId, bolt: nat)
    requires OnlyRunning(s, id, bolt)
    ensures OnlyRunning(Log(s, e), id, bolt)
  {
  }

  lemma LogKeepsIdle(s: State, e: Event)
    requires Idle(s)
    ensures Idle(Log(s, e))
  {
  }

  lemma FinishIsIdle(s: State, def: StageDef, bolt: nat, rev: nat, verdict: Outcome, source: Source,
                     smokeFails: bool, review: Review)
    requires OnlyRunning(s, def.id, bolt)
    ensures Idle(FinishStage(s, def, bolt, rev, verdict, source, smokeFails, review).state)
  {
    hide Write, Log, OnlyRunning, Idle;
    var id := def.id;
    var s1 := if def.hasReviewer && !(verdict == Pass && smokeFails) && verdict == Pass && review != ReviewError
              then Log(s, SubagentCompleted(id)) else s;
    LogKeepsRunning(s, SubagentCompleted(id), id, bolt);
    EndIsIdle(s1, id, bolt, Revising, rev + 1);
    LogKeepsIdle(Write(s1, id, bolt, Revising, rev + 1), StageRevising(id));
    EndIsIdle(s1, id, bolt, AwaitingApproval, rev);
    LogKeepsIdle(Write(s1, id, bolt, AwaitingApproval, rev), StageAwaiting(id));
    IdleWrite(Log(Write(s1, id, bolt, AwaitingApproval, rev), StageAwaiting(id)), id, bolt, Revising, rev, StageFailed(id));
  }

  lemma RunningIsClean(s: State, id: StageId, bolt: nat, outcomes: map<StageId, Outcome>)
    requires OnlyRunning(s, id, bolt)
    ensures Clean(s) && Clean(s.(outcomes := outcomes)) && OnlyRunning(s.(outcomes := outcomes), id, bolt)
  {
  }

  lemma RunStageKeepsClean(s: State, id: StageId, run: AgentRun)
    requires Valid(s) && Idle(s)
    requires var i := Find(s.rows, id, BoltFor(s, id)); i < |s.rows| ==> s.rows[i].status != Completed
    ensures var r := RunStage(s, id, run); Clean(r.state) && (r.StageRan? ==> Idle(r.state))
  {
    hide RunStage, Idle, OnlyRunning, Find, Valid;
    IdleIsOnlyRunning(s, id, BoltFor(s, id));
    RunStageAlone(s, id, run);
  }

  /** Running an unfinished stage while no other row is in progress: no two rows are ever in progress
      together, and unless the dispatch was cut short none is left in progress. */
  lemma RunStageAlone(s: State, id: StageId, run: AgentRun)
    requires Valid(s) && OnlyRunning(s, id, BoltFor(s, id))
    requires var i := Find(s.rows, id, BoltFor(s, id)); i < |s.rows| ==> s.rows[i].status != Completed
    ensures var r := RunStage(s, id, run); Clean(r.state) && (r.StageRan? ==> Idle(r.state))
  {
    hide Write, Log, FinishStage, Find, OnlyRunning, Valid, OneRunning, NoRow;
    var p, b := Pos(s.defs, id), BoltFor(s, id);
    var i := Find(s.rows, id, b);
    RunningIsClean(s, id, b, s.outcomes);
    if p < |s.defs| && i < |s.rows| {
      var rev := s.rows[i].revisions;
      var started := Log(Write(s, id, b, InProgress, rev), StageStart(id));
      StartOnlyRunning(s, id, b, rev, StageStart(id));
      match run
      case ContextError => RunningIsClean(started, id, b, started.outcomes);
      case RoleError => RunningIsClean(started, id, b, started.outcomes - {id});
      case Dispatched(signal, ending) =>
        var sent := started.(outcomes := if signal.Some? then (started.outcomes - {id})[id := signal.value]
                                         else started.outcomes - {id});
        RunningIsClean(started, id, b, sent.outcomes);
        match ending
        case Interrupted =>
        case Quota =>
          LogKeepsRunning(sent, QuotaExhausted(id), id, b);
          EndIsIdle(Log(sent, QuotaExhausted(id)), id, b, Revising, rev);
        case Crashed => EndIsIdle(sent, id, b, Failed, rev);
        case Finished(exitOk, smokeFails, review) =>
          FinishIsIdle(sent, s.defs[p], b, rev, Verdict(signal, exitOk), FirstSource(signal, exitOk), smokeFails, review);
    }
  }

  lemma ProcessKeepsIdle(s: State, id: StageId, result: StageResult)
    requires Idle(s)
    ensures Idle(ProcessStageResult(s, id, result).state)
  {
    hide Write, Log, Idle, Find;
    var b, i := result.bolt, Find(s.rows, id, result.bolt);
    if i < |s.rows| {
      var rev := s.rows[i].revisions;
      IdleWrite(s, id, b, Revising, rev, StageFailed(id));
      IdleWrite(s, id, b, Completed, rev, StageCompleted(id));
      IdleWrite(s, id, b, AwaitingApproval, rev, StageAwaiting(id));
      IdleWrite(s, id, b, Completed, rev, GateApproved(id));
      LogKeepsIdle(Log(Write(s, id, b, Completed, rev), GateApproved(id)), StageCompleted(id));
    }
  }

  // Clean and Idle are kept alike by everything that starts no stage.

  /** Clean, and idle if asked. */
  ghost predicate CleanOrIdle(s: State, idle: bool) {
    Clean(s) && (idle ==> NoRow(s.rows, InProgress))
  }

  lemma WriteLogKeeps(s: State, id: StageId, bolt: nat, status: Status, revisions: nat, e: Event, idle: bool)
    requires CleanOrIdle(s, idle) && status != InProgress
    ensures CleanOrIdle(Log(Write(s, id, bolt, status, revisions), e), idle)
  {
    hide OneRunning;
    WriteKeepsClean(s, id, bolt, status, revisions);
  }

  lemma LogKeeps(s: State, e: Event, idle: bool)
    requires CleanOrIdle(s, idle)
    ensures CleanOrIdle(Log(s, e), idle)
  {
  }

  lemma {:induction false} ScanKeeps(s: State, listing: seq<Row>, k: nat, idle: bool)
    requires k <= |listing| && CleanOrIdle(s, idle)
    ensures CleanOrIdle(NextStage(s, listing, k).state, idle)
    decreases |listing| - k
  {
    hide CleanOrIdle, Log, Write, Skips, Waits;
    if k == |listing| {
    } else if !Waits(listing[k]) {
      ScanKeeps(s, listing, k + 1, idle);
    } else if Skips(s, listing[k].stage) {
      WriteLogKeeps(s, listing[k].stage, 0, Skipped, 0, StageSkipped(listing[k].stage), idle);
      ScanKeeps(MarkSkipped(s, listing[k].stage), listing, k + 1, idle);
    }
  }

  lemma AdvanceKeeps(s: State, id: StageId, authOk: bool, idle: bool)
    requires CleanOrIdle(s, idle)
    ensures CleanOrIdle(AdvanceStage(s, id, authOk).state, idle)
  {
    hide Log, Write, Scoped, Effective, OneRunning;
    var stages := Scoped(s.defs, Effective(s.scope));
    var k := Pos(stages, id);
    LogKeeps(s.(finished := true, currentStage := Some(id)), WorkflowComplete, idle);
    if k < |stages| - 1 {
      var next := stages[k + 1].id;
      var s0 := s.(currentStage := Some(next));
      var s1 := Log(Write(s0, next, 0, NotStarted, 0), StageAdvanced(next));
      WriteLogKeeps(s0, next, 0, NotStarted, 0, StageAdvanced(next), idle);
      LogKeeps(s1, AuthHealthFailed, idle);
    }
  }

  lemma CompleteKeeps(s: State, id: StageId, bolt: nat, rev: nat, e: Event, idle: bool)
    requires CleanOrIdle(s, idle)
    ensures CleanOrIdle(Log(Log(Write(s, id, bolt, Completed, rev), e), StageCompleted(id)), idle)
  {
    hide Log, Write, CleanOrIdle;
    WriteLogKeeps(s, id, bolt, Completed, rev, e, idle);
    LogKeeps(Log(Write(s, id, bolt, Completed, rev), e), StageCompleted(id), idle);
  }

  lemma ApproveKeeps(s: State, id: StageId, bolt: nat, authOk: bool, idle: bool)
    requires CleanOrIdle(s, idle)
    ensures CleanOrIdle(Approve(s, id, bolt, authOk).state, idle)
  {
    hide Log, Write, CleanOrIdle, AdvanceStage, NextStage, Find;
    var i := Find(s.rows, id, bolt);
    if i < |s.rows| {
      var s1 := Log(Log(Write(s, id, bolt, Completed, s.rows[i].revisions), GateApproved(id)), StageCompleted(id));
      CompleteKeeps(s, id, bolt, s.rows[i].revisions, GateApproved(id), idle);
      AdvanceKeeps(s1, id, authOk, idle);
      var adv := if IsPerBolt(id) then Advanced(s1, true) else AdvanceStage(s1, id, authOk);
      ScanKeeps(adv.state, adv.state.rows, 0, idle);
    }
  }

  lemma {:induction false} BoltKeepsClean(s: State, b: nat, m: nat, agent: StageId -> AgentRun, results: seq<StageResult>)
    requires Valid(s) && Idle(s) && 1 <= m <= 6 && s.currentBolt == b && b > 0
    ensures Clean(BoltStages(s, b, m, agent, results).state)
    decreases 6 - m
  {
    hide Find, BoltFrame, RunStage, Approve, SkipsInBolt, Valid, OneRunning, NoRow, BoltStep, Frame;
    if m < 6 {
      var id := StageId(3, m);
      if SkipsInBolt(s, id, b) {
        BoltKeepsClean(s, b, m + 1, agent, results);
      } else {
        var run := RunStage(s, id, agent(id));
        var s1 := run.state;
        RunInBolt(s, b, m, agent(id));
        NotSkipped(s, b, m);
        RunStageKeepsClean(s, id, agent(id));
        FrameFacts(s, s1, b, id);
        if run.StageRan? {
          var results1 := results + [run.result];
          if run.result.gateOpen && AutoMode(s.mode) {
            var app := Approve(s1, id, b, true);
            ApproveKeeps(s1, id, b, true, true);
            ApproveEffect(s1, id, b, true);
            GateIsBoltFrame(s1, app.state, b);
            FrameFacts(s1, app.state, b, id);
            if app.Approved? {
              BoltKeepsClean(app.state, b, m + 1, agent, results1);
            }
          } else if !run.result.gateOpen {
            BoltKeepsClean(s1, b, m + 1, agent, results1);
          }
        }
      }
    }
  }

  lemma GrownIsIdle(s: State, t: State, b: nat, stages: seq<StageDef>)
    requires Idle(s) && Grown(s.rows, t.rows, b, stages) && t.watch == s.watch
    ensures Idle(t)
  {
    forall i | 0 <= i < |t.rows|
      ensures t.rows[i].status != InProgress
    {
      assert t.rows[i] in t.rows;
      if t.rows[i] in s.rows {
        var j :| 0 <= j < |s.rows| && s.rows[j] == t.rows[i];
      }
    }
  }

  lemma RunBoltKeepsClean(s: State, b: nat, agent: StageId -> AgentRun)
    requires Valid(s) && Idle(s) && b > 0
    ensures Clean(RunBolt(s, b, agent).state)
  {
    hide Find, BoltStages, Scoped, Effective, Valid, Idle, InitBolt, Grown;
    if BoltAt(s.bolts, b) < |s.bolts| {
      StartIsValid(s, b);
      var stages := Scoped(s.defs, Effective(s.scope));
      ValidFacts(s);
      InitBoltGrows(s.defs, s.rows, b, stages);
      GrownIsIdle(s, StartBolt(s, b), b, stages);
      BoltKeepsClean(StartBolt(s, b), b, 1, agent, []);
    } else {
      IdleIsClean(s);
    }
  }

  lemma ValidFacts(s: State)
    requires Valid(s)
    ensures ValidTable(s.defs, s.rows)
  {
  }

  lemma IdleIsClean(s: State)
    requires Idle(s)
    ensures Clean(s)
  {
  }

  // ----- rows in scope, and honest bolts

  lemma SameKeysInScope(s: State, t: State)
    requires AllInScope(s) && SameKeys(s.rows, t.rows) && t.defs == s.defs && t.scope == s.scope
    ensures AllInScope(t)
  {
    forall r | r in t.rows
      ensures InScopeStage(t, r.stage)
    {
      var i :| 0 <= i < |t.rows| && t.rows[i] == r;
      assert s.rows[i] in s.rows && InScopeStage(s, s.rows[i].stage);
    }
  }

  lemma GrownInScope(s: State, t: State, b: nat)
    requires DistinctIds(s.defs) && AllInScope(s) && t.defs == s.defs && t.scope == s.scope
    requires Grown(s.rows, t.rows, b, Scoped(s.defs, Effective(s.scope)))
    ensures AllInScope(t)
  {
    hide Effective;
    forall r | r in t.rows
      ensures InScopeStage(t, r.stage)
    {
      if r in s.rows {
        assert InScopeStage(s, r.stage);
      } else {
        var d :| d in Scoped(s.defs, Effective(s.scope)) && d.id == r.stage;
        var p :| 0 <= p < |s.defs| && s.defs[p] == d;
        PosOf(s.defs, p);
      }
    }
  }

  /** Completed rows are still completed. */
  ghost predicate KeepsCompleted(a: seq<Row>, c: seq<Row>) {
    forall id, b :: CompletedAt(a, id, b) ==> CompletedAt(c, id, b)
  }

  lemma GrownCompleted(a: seq<Row>, c: seq<Row>, b: nat, stages: seq<StageDef>)
    requires Grown(a, c, b, stages)
    ensures KeepsCompleted(a, c)
  {
    forall id, n | CompletedAt(a, id, n)
      ensures CompletedAt(c, id, n)
    {
      var i :| 0 <= i < |a| && Matches(a[i], id, n) && a[i].status == Completed;
      assert a[i] in c;
    }
  }

  lemma KeepsComplete(s: State, t: State, b: nat)
    requires KeepsCompleted(s.rows, t.rows) && t.defs == s.defs && t.scope == s.scope && BoltComplete(s, b)
    ensures BoltComplete(t, b)
  {
    forall k | 1 <= k <= 5 && InScopeStage(t, StageId(3, k))
      ensures CompletedAt(t.rows, StageId(3, k), b)
    {
      assert InScopeStage(s, StageId(3, k));
    }
  }

  lemma HonestKept(s: State, t: State)
    requires BoltsHonest(s) && KeepsCompleted(s.rows, t.rows) && t.defs == s.defs && t.scope == s.scope
    requires |t.bolts| == |s.bolts|
    requires forall i :: 0 <= i < |s.bolts| ==>
               t.bolts[i].number == s.bolts[i].number && (t.bolts[i].status == Done ==> s.bolts[i].status == Done)
    ensures BoltsHonest(t)
  {
    hide BoltComplete, KeepsCompleted;
    forall i | 0 <= i < |t.bolts| && t.bolts[i].status == Done
      ensures BoltComplete(t, t.bolts[i].number)
    {
      KeepsComplete(s, t, s.bolts[i].number);
    }
  }

  lemma QuietKeepsOneMerge(a: seq<Event>, c: seq<Event>)
    requires OneMerge(a) && Quiet(a, c)
    ensures OneMerge(c)
  {
  }

  // ----- linear stages

  lemma {:induction false} ScanInScope(s: State, listing: seq<Row>, k: nat)
    requires k <= |listing| && forall i :: k <= i < |listing| ==> !Skips(s, listing[i].stage)
    ensures NextStage(s, listing, k).state == s
    decreases |listing| - k
  {
    hide Skips, Waits;
    if k < |listing| {
      ScanInScope(s, listing, k + 1);
    }
  }

  lemma InScopeSkipsNothing(s: State)
    requires AllInScope(s)
    ensures forall i :: 0 <= i < |s.rows| ==> !Skips(s, s.rows[i].stage)
  {
    forall i | 0 <= i < |s.rows|
      ensures !Skips(s, s.rows[i].stage)
    {
      assert s.rows[i] in s.rows;
    }
  }

  /** With every row in scope, deciding writes nothing. */
  lemma DecideWritesNothing(s: State)
    requires AllInScope(s)
    ensures Decide(s).state == s
  {
    hide Skips, FirstWith, FirstToRun, StageDone, MergeRecorded, AllInScope;
    InScopeSkipsNothing(s);
    ScanInScope(s, s.rows, 0);
  }

  /** The stage that the loop starts is the frontier; it has not started or is revising. */
  lemma DecideFrontier(s: State)
    requires Inv(s) && Decide(s).action.ActRunStage?
    ensures NoRow(s.rows, InProgress)
    ensures exists p :: FrontierStage(s, Decide(s).action.stage, p)
  {
    hide Skips, NextStage, StageDone, FirstToRun, MergeRecorded, BoltsHonest, OneMerge, Clean, ScanFrame;
    var p := FirstWith(s.rows, Revising);
    InScopeSkipsNothing(s);
    if p < |s.rows| {
      LinearHasNoBolt(s, p);
      ActiveIsFrontier(s.rows, p);
      assert FrontierStage(s, Decide(s).action.stage, p);
    } else {
      ScanEffect(s, s.rows, 0);
      var q := ScanEnd(s, s.rows, 0);
      LinearHasNoBolt(s, q);
      WaitingIsFrontier(s.rows, q);
      assert FrontierStage(s, Decide(s).action.stage, q);
    }
  }

  ghost predicate FrontierStage(s: State, id: StageId, p: nat) {
    && Frontier(s.rows, p) && s.rows[p].stage == id && s.rows[p].bolt == 0
    && (s.rows[p].status == NotStarted || s.rows[p].status == Revising)
  }

  lemma FrontierTouched(s: State, t: State, id: StageId, p: nat)
    requires Inv(s) && FrontierStage(s, id, p) && Touch(s, t, id, 0) && Clean(t)
    ensures Inv(t)
    ensures KeepsCompleted(s.rows, t.rows)
  {
    hide Clean, Skips, OneMerge, BoltComplete, AllInScope, Valid, InScopeStage;
    TouchKeepsValid(s, t, id, 0);
    SameKeysInScope(s, t);
    forall j | 0 <= j < |s.rows| && j != p
      ensures t.rows[j] == s.rows[j]
    {
      KeyIsUnique(s, j, id, 0);
      KeyIsUnique(s, p, id, 0);
    }
    HonestKept(s, t);
    QuietKeepsOneMerge(s.audit, t.audit);
  }

  lemma StageTurnKeepsInv(s: State, w: World)
    requires Inv(s) && !w.cancelled && Decide(s).action.ActRunStage?
    ensures Inv(TakeTurn(s, w).state)
    ensures KeepsCompleted(s.rows, TakeTurn(s, w).state.rows)
  {
    hide Inv, Decide, RunStage, ProcessStageResult, Touch, FrontierStage, Clean, NoRow, AllInScope, Valid, OneMerge, KeepsCompleted, GateMatches;
    InvFacts(s);
    DecideWritesNothing(s);
    DecideFrontier(s);
    var id := Decide(s).action.stage;
    var p :| FrontierStage(s, id, p);
    var r := RunStage(s, id, w.agent(id));
    FrontierFacts(s, id, p);
    RunStageEffect(s, id, w.agent(id));
    RunStageKeepsClean(s, id, w.agent(id));
    if r.StageError? {
      FrontierTouched(s, r.state, id, p);
    } else {
      var q := ProcessStageResult(r.state, id, r.result);
      ProcessEffect(r.state, id, r.result);
      ProcessKeepsIdle(r.state, id, r.result);
      TouchIsTransitive(s, r.state, q.state, id, 0);
      IdleIsClean(q.state);
      FrontierTouched(s, q.state, id, p);
    }
  }

  lemma InvFacts(s: State)
    requires Inv(s)
    ensures Valid(s) && AllInScope(s) && Clean(s) && OneMerge(s.audit)
  {
  }

  lemma FrontierFacts(s: State, id: StageId, p: nat)
    requires Valid(s) && FrontierStage(s, id, p)
    ensures BoltFor(s, id) == 0 && Find(s.rows, id, 0) == p < |s.rows| && s.rows[p].status != Completed
  {
    KeyIsUnique(s, p, id, 0);
  }

  // ----- gates

  /** Row i, active if linear, is decided; rows after a linear one may be reset. */
  ghost predicate GateRows(s: State, t: State, i: nat) {
    && SameKeys(s.rows, t.rows) && i < |s.rows|
    && (Linear(s.rows[i]) ==> Active(s.rows[i].status))
    && (!Linear(s.rows[i]) && s.rows[i].status == Completed ==> t.rows[i].status == Completed)
    && forall j :: 0 <= j < |s.rows| && j != i ==>
         t.rows[j] == s.rows[j] || (j > i && Linear(s.rows[i]) && Linear(s.rows[j]) && t.rows[j].status == NotStarted)
  }

  lemma GateKeepsInv(s: State, t: State, i: nat)
    requires Inv(s) && GateFrame(s, t) && GateRows(s, t, i) && Clean(t)
    ensures Inv(t)
    ensures KeepsCompleted(s.rows, t.rows)
  {
    hide Clean, OneMerge, BoltComplete, AllInScope, Valid, InScopeStage;
    SameKeysInScope(s, t);
    if Linear(s.rows[i]) {
      ActiveIsFrontier(s.rows, i);
    }
    HonestKept(s, t);
    QuietKeepsOneMerge(s.audit, t.audit);
  }

  lemma ApprovedAreGateRows(s: State, t: State, id: StageId, bolt: nat)
    requires Valid(s) && AllInScope(s) && Frame(s, t) && ApprovedRows(s, t, id, Find(s.rows, id, bolt))
    ensures GateRows(s, t, Find(s.rows, id, bolt))
  {
    hide Skips;
    var i := Find(s.rows, id, bolt);
    InScopeSkipsNothing(s);
    forall j | 0 <= j < |s.rows| && j != i && t.rows[j] != s.rows[j]
      ensures j > i && Linear(s.rows[i]) && Linear(s.rows[j]) && t.rows[j].status == NotStarted
    {
      assert j < i ==> Before(s.defs, s.rows[j], s.rows[i]);
      LinearHasNoBolt(s, j);
    }
  }

  lemma ApproveKeepsInv(s: State, id: StageId, bolt: nat, authOk: bool)
    requires Inv(s)
    ensures Inv(Approve(s, id, bolt, authOk).state)
    ensures KeepsCompleted(s.rows, Approve(s, id, bolt, authOk).state.rows)
  {
    hide Inv, Approve, GateFrame, GateRows, ApprovedRows, Clean, Find, Frame;
    var t := Approve(s, id, bolt, authOk).state;
    InvFacts(s);
    ApproveEffect(s, id, bolt, authOk);
    if t != s {
      ApproveKeeps(s, id, bolt, authOk, false);
      GateFrameFacts(s, t);
      ApprovedAreGateRows(s, t, id, bolt);
      GateKeepsInv(s, t, Find(s.rows, id, bolt));
    }
  }

  lemma GateFrameFacts(s: State, t: State)
    requires GateFrame(s, t)
    ensures Frame(s, t)
  {
  }

  lemma RejectKeepsInv(s: State, id: StageId, bolt: nat)
    requires Inv(s)
    ensures Inv(Reject(s, id, bolt).state)
    ensures KeepsCompleted(s.rows, Reject(s, id, bolt).state.rows)
  {
    hide Inv, GateFrame, GateRows, Clean, Find, Write, Log, OneRunning, Touch, CompletedAt;
    var i := Find(s.rows, id, bolt);
    if i < |s.rows| && (s.rows[i].status == AwaitingApproval || s.rows[i].status == Revising) && Pos(s.defs, id) < |s.defs| {
      InvFacts(s);
      var rev := s.rows[i].revisions + 1;
      var s1 := Log(Write(s, id, bolt, Revising, rev), GateRejected(id));
      WriteLogTouches(s, id, bolt, Revising, rev, GateRejected(id));
      WriteLogKeeps(s, id, bolt, Revising, rev, GateRejected(id), false);
      LogTouches(s1, RuleLearned(id), id, bolt);
      LogKeeps(s1, RuleLearned(id), false);
      TouchIsTransitive(s, s1, Log(s1, RuleLearned(id)), id, bolt);
      TouchIsGate(s, Log(s1, RuleLearned(id)), id, bolt);
      GateKeepsInv(s, Log(s1, RuleLearned(id)), i);
    }
  }

  /** A write to a row that is awaiting approval or revising. */
  lemma TouchIsGate(s: State, t: State, id: StageId, bolt: nat)
    requires Valid(s) && Touch(s, t, id, bolt) && t.outcomes == s.outcomes
    requires var i := Find(s.rows, id, bolt);
             i < |s.rows| && (s.rows[i].status == AwaitingApproval || s.rows[i].status == Revising)
    ensures GateFrame(s, t) && GateRows(s, t, Find(s.rows, id, bolt))
  {
    hide Find;
    TouchKeepsValid(s, t, id, bolt);
    var i := Find(s.rows, id, bolt);
    forall j | 0 <= j < |s.rows| && j != i
      ensures t.rows[j] == s.rows[j]
    {
      KeyIsUnique(s, j, id, bolt);
    }
  }

  /** Accepting a linear stage as it is, is allowed here only on the active row: the code does not
      check the status. */
  lemma AcceptKeepsInv(s: State, id: StageId, bolt: nat, authOk: bool)
    requires Inv(s)
    requires var i := Find(s.rows, id, bolt); i < |s.rows| && Linear(s.rows[i]) ==> Active(s.rows[i].status)
    ensures Inv(AcceptAsIs(s, id, bolt, authOk).state)
    ensures KeepsCompleted(s.rows, AcceptAsIs(s, id, bolt, authOk).state.rows)
  {
    hide Inv, GateFrame, GateRows, Clean, Find, Write, Log, OneRunning, AdvanceStage, ResetAfter, Frame, Valid;
    var i := Find(s.rows, id, bolt);
    if i < |s.rows| && s.rows[i].revisions >= MAX_REVISIONS {
      InvFacts(s);
      var s1 := Log(Log(Write(s, id, bolt, Completed, s.rows[i].revisions), GateAcceptAsIs(id)), StageCompleted(id));
      CompleteEffect(s, id, bolt, GateAcceptAsIs(id));
      CompleteKeeps(s, id, bolt, s.rows[i].revisions, GateAcceptAsIs(id), false);
      GateFrameIsValid(s, s1);
      var t := AcceptAsIs(s, id, bolt, authOk).state;
      if IsPerBolt(id) {
        AcceptRows(s, s1, s1, id, i);
        GateKeepsInv(s, s1, i);
      } else {
        AdvanceGateEffect(s1, id, authOk);
        AdvanceKeeps(s1, id, authOk, false);
        GateFrameIsTransitive(s, s1, t);
        AcceptRows(s, s1, t, id, i);
        GateKeepsInv(s, t, i);
      }
    }
  }

  lemma AcceptRows(s: State, s1: State, t: State, id: StageId, i: nat)
    requires Valid(s) && GateFrame(s, s1) && |t.rows| == |s1.rows| && GateFrame(s, t) && i < |s.rows|
    requires s.rows[i].stage == id && (Linear(s.rows[i]) ==> Active(s.rows[i].status))
    requires s1.rows[i].status == Completed && forall j :: 0 <= j < |s.rows| && j != i ==> s1.rows[j] == s.rows[j]
    requires t == s1 || (!IsPerBolt(id) && ResetAfter(s1, t, id))
    ensures GateRows(s, t, i)
  {
    forall j | 0 <= j < |s.rows| && j != i && t.rows[j] != s.rows[j]
      ensures j > i && Linear(s.rows[i]) && Linear(s.rows[j]) && t.rows[j].status == NotStarted
    {
      assert j < i ==> Before(s.defs, s.rows[j], s.rows[i]);
      LinearHasNoBolt(s, j);
    }
  }

  // ----- bolts

  lemma BoltOutcomeKeeps(s0: State, r: BoltRun, b: nat)
    requires AllInScope(s0) && Shape(s0.rows) && BoltOutcome(s0, r, b, 1)
    ensures Valid(r.state) && AllInScope(r.state) && Shape(r.state.rows) && KeepsCompleted(s0.rows, r.state.rows)
  {
    hide Skips, Find, FinishedFrom, NoneHigher, InScopeStage, Valid;
    InScopeSkipsNothing(s0);
    var t := r.state;
    SameKeysInScope(s0, t);
  }

  lemma FinishedIsComplete(s0: State, t: State, b: nat)
    requires FinishedFrom(s0, t, b, 1) && t.defs == s0.defs && t.scope == s0.scope
    ensures BoltComplete(t, b)
  {
    hide Find;
    forall k | 1 <= k <= 5 && InScopeStage(t, StageId(3, k))
      ensures CompletedAt(t.rows, StageId(3, k), b)
    {
      assert InScopeStage(s0, StageId(3, k));
      assert Matches(t.rows[Find(t.rows, StageId(3, k), b)], StageId(3, k), b);
    }
  }

  lemma BoltOutcomeIsHonest(s0: State, r: BoltRun, b: nat)
    requires BoltsHonest(s0) && BoltOutcome(s0, r, b, 1) && KeepsCompleted(s0.rows, r.state.rows)
    ensures BoltsHonest(r.state)
  {
    hide Find, NoneHigher, KeepsCompleted, BoltRowsFrom, Valid, BoltComplete, FinishedFrom;
    var t := r.state;
    forall i | 0 <= i < |t.bolts| && t.bolts[i].status == Done
      ensures BoltComplete(t, t.bolts[i].number)
    {
      if r.end.BoltFinished? && s0.bolts[i].number == b {
        FinishedIsComplete(s0, t, b);
      } else {
        KeepsComplete(s0, t, s0.bolts[i].number);
      }
    }
  }

  lemma StartKeeps(s: State, b: nat)
    requires Inv(s) && b > 0
    ensures var t := StartBolt(s, b); Valid(t) && AllInScope(t) && Shape(t.rows) && BoltsHonest(t) && OneMerge(t.audit)
                                      && KeepsCompleted(s.rows, t.rows)
  {
    hide Find, Scoped, Effective, Valid, Clean, BoltComplete, Grown, InitBolt, StartBolt, Shape, AllInScope, KeepsCompleted;
    var t := StartBolt(s, b);
    var stages := Scoped(s.defs, Effective(s.scope));
    StartIsValid(s, b);
    ValidFacts(s);
    InitBoltGrows(s.defs, s.rows, b, stages);
    GrownInScope(s, t, b);
    InitBoltKeepsShape(s.defs, s.rows, b, stages);
    GrownCompleted(s.rows, t.rows, b, stages);
    HonestKept(s, t);
    QuietKeepsOneMerge(s.audit, t.audit);
  }

  lemma RunBoltKeepsInv(s: State, b: nat, agent: StageId -> AgentRun)
    requires Inv(s) && b > 0 && NoRow(s.rows, InProgress)
    ensures Inv(RunBolt(s, b, agent).state)
    ensures KeepsCompleted(s.rows, RunBolt(s, b, agent).state.rows)
  {
    hide Find, BoltStages, StartBolt, BoltOutcome, OneMerge, Shape, AllInScope, BoltsHonest, Clean, Valid;
    if BoltAt(s.bolts, b) < |s.bolts| {
      var s0, r := StartBolt(s, b), RunBolt(s, b, agent);
      StartIsValid(s, b);
      StartKeeps(s, b);
      BoltStagesEffect(s0, b, 1, agent, []);
      BoltOutcomeKeeps(s0, r, b);
      BoltOutcomeIsHonest(s0, r, b);
      RunBoltKeepsClean(s, b, agent);
      OutcomeFrame(s0, r, b, 1);
      QuietKeepsOneMerge(s0.audit, r.state.audit);
    }
  }

  // ----- restart

  /** Interrupted rows become revising; nothing else changes. */
  ghost predicate Restored(a: seq<Row>, c: seq<Row>, k: nat) {
    && SameKeys(a, c)
    && forall i :: 0 <= i < |a| ==>
         c[i] == if i >= k && a[i].status == InProgress then Row(a[i].stage, a[i].bolt, Revising, 0) else a[i]
  }

  lemma {:induction false} RestoreEffect(s: State, listing: seq<Row>, k: nat)
    requires Valid(s) && k <= |listing| == |s.rows|
    requires forall i :: k <= i < |listing| ==> s.rows[i] == listing[i]
    ensures var t := RestoreRows(s, listing, k);
            && GateFrame(s, t) && t.finished == s.finished && Restored(s.rows, t.rows, k)
            && (Clean(s) ==> Clean(t))
    decreases |listing| - k
  {
    hide Write, Log, GateFrame, Find, OneRunning, Valid, Clean;
    if k == |listing| {
      GateFrameIsReflexive(s);
    } else if listing[k].status == InProgress {
      var id, b := listing[k].stage, listing[k].bolt;
      var s1 := Log(Write(s, id, b, Revising, 0), StageInterrupted(id));
      RestoreOne(s, k);
      GateFrameIsValid(s, s1);
      RestoreEffect(s1, listing, k + 1);
      GateFrameIsTransitive(s, s1, RestoreRows(s1, listing, k + 1));
    } else {
      RestoreEffect(s, listing, k + 1);
    }
  }

  lemma RestoreOne(s: State, k: nat)
    requires Valid(s) && k < |s.rows|
    ensures var r := s.rows[k]; var t := Log(Write(s, r.stage, r.bolt, Revising, 0), StageInterrupted(r.stage));
            && GateFrame(s, t) && t.finished == s.finished && (Clean(s) ==> Clean(t))
            && t.rows[k] == Row(r.stage, r.bolt, Revising, 0)
            && forall i :: 0 <= i < |s.rows| && i != k ==> t.rows[i] == s.rows[i]
  {
    hide Write, Log, Find, OneRunning;
    var r := s.rows[k];
    var w := Write(s, r.stage, r.bolt, Revising, 0);
    FindOf(s.defs, s.rows, k);
    WriteTouches(s, r.stage, r.bolt, Revising, 0);
    WriteLogTouches(s, r.stage, r.bolt, Revising, 0, StageInterrupted(r.stage));
    LogKeepsRows(w, StageInterrupted(r.stage));
    if Clean(s) {
      WriteLogKeeps(s, r.stage, r.bolt, Revising, 0, StageInterrupted(r.stage), false);
    }
    TouchKeepsValid(s, Log(w, StageInterrupted(r.stage)), r.stage, r.bolt);
    forall i | 0 <= i < |s.rows| && i != k
      ensures w.rows[i] == s.rows[i]
    {
      KeyIsUnique(s, i, r.stage, r.bolt);
    }
  }

  lemma RestoreKeepsInv(s: State, live: bool)
    requires Inv(s)
    ensures Inv(Restore(s, live))
    ensures KeepsCompleted(s.rows, Restore(s, live).rows)
  {
    hide RestoreRows, Clean, OneMerge, BoltComplete, AllInScope, Valid, InScopeStage;
    if !(s.finished || live) {
      RestoreEffect(s, s.rows, 0);
      var t := Restore(s, live);
      SameKeysInScope(s, t);
      HonestKept(s, t);
      QuietKeepsOneMerge(s.audit, t.audit);
    }
  }

  // ----- turns

  lemma SameTableKeepsInv(s: State, t: State)
    requires Inv(s) && t.rows == s.rows && t.defs == s.defs && t.bolts == s.bolts && t.scope == s.scope && t.watch == s.watch
    requires OneMerge(t.audit)
    ensures Inv(t)
  {
    hide OneMerge, Skips, OneRunning;
    HonestKept(s, t);
    SameKeysInScope(s, t);
  }

  lemma PrepareKeepsInv(s: State, w: World)
    requires Inv(s)
    ensures Inv(PrepareBolts(s, w.unitOfWork, w.dag)) && PrepareBolts(s, w.unitOfWork, w.dag).rows == s.rows
  {
    hide Units, PlanUnits, PlanLinks, Shape, OneMerge, OneRunning, Plan, ValidTable, BoltComplete, InScopeStage;
    PlanIsClosed(w.unitOfWork, w.dag);
    var t := PrepareBolts(s, w.unitOfWork, w.dag);
    SameKeysInScope(s, t);
    if s.bolts == [] {
      forall i | 0 <= i < |t.bolts|
        ensures t.bolts[i].status != Done
      {
        assert t.bolts[i] in t.bolts;
      }
    }
  }

  lemma FirstMerge(a: seq<Event>, c: seq<Event>)
    requires OneMerge(a) && !MergeRecorded(a)
    requires c == a + [MergeAttempted] || c == a + [MergeAttempted] + [MergedToMain]
    ensures OneMerge(c)
  {
    assert forall i :: 0 <= i < |a| ==> c[i] == a[i] && a[i] in a;
  }

  lemma MoreEvents(a: seq<Event>, e: Event)
    requires OneMerge(a) && e != MergeAttempted && e != MergedToMain
    ensures OneMerge(a + [e])
  {
  }

  /** A turn of the control loop keeps the invariants, whatever the outside world does in it. */
  lemma TurnKeepsInv(s: State, w: World)
    requires Inv(s)
    ensures Inv(TakeTurn(s, w).state)
    ensures KeepsCompleted(s.rows, TakeTurn(s, w).state.rows)
  {
    hide Inv, Decide, Approve, RunBolt, RunStage, ProcessStageResult, PrepareBolts, OneMerge, Clean, MergeRecorded, NoRow, Stuck;
    if !w.cancelled {
      var t := TakeTurn(s, w).state;
      InvFacts(s);
      DecideWritesNothing(s);
      DecideOther(s);
      match Decide(s).action
      case ActDone =>
        MoreEvents(s.audit, FeatureDone);
        SameTableKeepsInv(s, t);
      case ActAutoApprove(id, bolt) => ApproveKeepsInv(s, id, bolt, w.authOk);
      case ActPrepareBolts => PrepareKeepsInv(s, w);
      case ActRunBolt(b) =>
        DecideBolt(s, b);
        RunBoltKeepsInv(s, b, w.agent);
      case ActMerge =>
        FirstMerge(s.audit, t.audit);
        SameTableKeepsInv(s, t);
      case ActRunStage(_) => StageTurnKeepsInv(s, w);
      case _ =>
    }
  }

  // ----- runs

  /** Everything that can happen to a feature, one operation at a time. */
  datatype Op =
    | Turn(w: World)
    | BoltRequest(bolt: nat, agent: StageId -> AgentRun)
    | ApproveRequest(stage: StageId, bolt: nat, authOk: bool)
    | RejectRequest(stage: StageId, bolt: nat)
    | AcceptRequest(stage: StageId, bolt: nat, authOk: bool)
    | Restart(live: bool)

  ghost function Apply(s: State, op: Op): State {
    match op
    case Turn(w) => TakeTurn(s, w).state
    case BoltRequest(b, agent) => RunBolt(s, b, agent).state
    case ApproveRequest(id, b, authOk) => Approve(s, id, b, authOk).state
    case RejectRequest(id, b) => Reject(s, id, b).state
    case AcceptRequest(id, b, authOk) => AcceptAsIs(s, id, b, authOk).state
    case Restart(live) => Restore(s, live)
  }

  /** A bolt is requested by a positive number while nothing is in progress, and a linear stage is
      accepted as it is only while it is the active one. */
  ghost predicate Allowed(s: State, op: Op) {
    match op
    case BoltRequest(b, _) => b > 0 && NoRow(s.rows, InProgress)
    case AcceptRequest(id, b, _) =>
      (var i := Find(s.rows, id, b); i < |s.rows| && Linear(s.rows[i]) ==> Active(s.rows[i].status))
    case _ => true
  }

  ghost function Run(s: State, ops: seq<Op>): State
    decreases |ops|
  {
    if ops == [] then s else Run(Apply(s, ops[0]), ops[1..])
  }

  ghost predicate Legal(s: State, ops: seq<Op>)
    decreases |ops|
  {
    ops == [] || (Allowed(s, ops[0]) && Legal(Apply(s, ops[0]), ops[1..]))
  }

  lemma ApplyKeepsInv(s: State, op: Op)
    requires Inv(s) && Allowed(s, op)
    ensures Inv(Apply(s, op))
    ensures KeepsCompleted(s.rows, Apply(s, op).rows)
  {
    hide Inv, TakeTurn, RunBolt, Approve, Reject, AcceptAsIs, Restore;
    match op
    case Turn(w) => TurnKeepsInv(s, w);
    case BoltRequest(b, agent) => RunBoltKeepsInv(s, b, agent);
    case ApproveRequest(id, b, authOk) => ApproveKeepsInv(s, id, b, authOk);
    case RejectRequest(id, b) => RejectKeepsInv(s, id, b);
    case AcceptRequest(id, b, authOk) => AcceptKeepsInv(s, id, b, authOk);
    case Restart(live) => RestoreKeepsInv(s, live);
  }

  /** Every state of every run of a new feature satisfies the invariants: the linear rows read
      passed, active, not started; no two rows were ever in progress together and no completed row
      was ever started again; a done bolt has every stage completed; at most one merge was attempted.  Whatever was
      completed at the start of the run is completed at its end. */
  lemma {:induction false} EveryRunIsSafe(s: State, ops: seq<Op>)
    requires Inv(s) && Legal(s, ops)
    ensures Inv(Run(s, ops))
    ensures KeepsCompleted(s.rows, Run(s, ops).rows)
    decreases |ops|
  {
    hide Inv, Apply, Allowed;
    if ops != [] {
      ApplyKeepsInv(s, ops[0]);
      EveryRunIsSafe(Apply(s, ops[0]), ops[1..]);
    }
  }
}
