/** Where the pipeline's promises stop: inputs on which they fail, and exactly when they hold. */
module PipelineLimits {
  import opened Basics
  import opened StageTable
  import opened BoltPlan
  import opened PipelineModel
  import opened PipelineEffects
  import opened PipelineTermination
  import opened PipelineSafety
  import opened PipelineGates

  // ----- a bolt requested while a stage is in progress

  /** The first stage 3.k, k >= m, that a run of bolt b dispatches; 6 when there is none. */
  function FirstRun(s: State, b: nat, m: nat): (k: nat)
    requires 1 <= m <= 6
    ensures m <= k <= 6
    ensures k < 6 ==> !SkipsInBolt(s, StageId(3, k), b)
    decreases 6 - m
  {
    if m == 6 || !SkipsInBolt(s, StageId(3, m), b) then m else FirstRun(s, b, m + 1)
  }

  /** No row is in progress but that of the first stage the run dispatches. */
  ghost predicate FreeToRun(s: State, b: nat) {
    var k := FirstRun(s, b, 1);
    k == 6 || forall j :: 0 <= j < |s.rows| && s.rows[j].status == InProgress ==> Matches(s.rows[j], StageId(3, k), b)
  }

  lemma {:induction false} StartsAtFirstRun(s: State, b: nat, m: nat, agent: StageId -> AgentRun, results: seq<StageResult>)
    requires 1 <= m <= 6
    ensures BoltStages(s, b, m, agent, results) == BoltStages(s, b, FirstRun(s, b, m), agent, results)
    decreases 6 - m
  {
    hide SkipsInBolt, RunStage, Approve;
    if m < 6 && SkipsInBolt(s, StageId(3, m), b) {
      StartsAtFirstRun(s, b, m + 1, agent, results);
    }
  }

  lemma FirstStageClean(s: State, b: nat, m: nat, agent: StageId -> AgentRun)
    requires Valid(s) && 1 <= m <= 5 && s.currentBolt == b && b > 0 && !SkipsInBolt(s, StageId(3, m), b)
    requires OnlyRunning(s, StageId(3, m), b)
    ensures Clean(BoltStages(s, b, m, agent, []).state)
  {
    hide Find, BoltFrame, RunStage, Approve, SkipsInBolt, Valid, OneRunning, NoRow, BoltStep, Frame, OnlyRunning;
    var id := StageId(3, m);
    var run := RunStage(s, id, agent(id));
    var s1 := run.state;
    RunInBolt(s, b, m, agent(id));
    NotSkipped(s, b, m);
    RunStageAlone(s, id, agent(id));
    FrameFacts(s, s1, b, id);
    if run.StageRan? {
      var results := [] + [run.result];
      if run.result.gateOpen && AutoMode(s.mode) {
        var app := Approve(s1, id, b, true);
        ApproveKeeps(s1, id, b, true, true);
        ApproveEffect(s1, id, b, true);
        GateIsBoltFrame(s1, app.state, b);
        FrameFacts(s1, app.state, b, id);
        if app.Approved? {
          BoltKeepsClean(app.state, b, m + 1, agent, results);
        }
      } else if !run.result.gateOpen {
        BoltKeepsClean(s1, b, m + 1, agent, results);
      }
    }
  }

  // Once two rows have been in progress together, that stays on record.

  lemma RunStageDirty(s: State, id: StageId, run: AgentRun)
    requires !s.watch.solo
    ensures !RunStage(s, id, run).state.watch.solo
  {
    hide Write, Log, FinishStage, Find, Pos;
    var p := Pos(s.defs, id);
    var bolt := if IsPerBolt(id) then s.currentBolt else 0;
    var i := Find(s.rows, id, bolt);
    if p < |s.defs| && i < |s.rows| {
      var rev := s.rows[i].revisions;
      var started := Log(Write(s, id, bolt, InProgress, rev), StageStart(id));
      WriteDirty(s, id, bolt, InProgress, rev, StageStart(id));
      match run
      case Dispatched(signal, ending) =>
        var sent := started.(outcomes := if signal.Some? then (started.outcomes - {id})[id := signal.value]
                                         else started.outcomes - {id});
        match ending {
          case Interrupted =>
          case Quota => LogThenWriteDirty(sent, id, bolt, Revising, rev, QuotaExhausted(id));
          case Crashed => WriteDirty(sent, id, bolt, Failed, rev, QuotaExhausted(id));
          case Finished(exitOk, smokeFails, review) =>
            FinishDirty(sent, s.defs[p], bolt, rev, Verdict(signal, exitOk), FirstSource(signal, exitOk), smokeFails, review);
        }
      case _ =>
    }
  }

  lemma WriteDirty(s: State, id: StageId, bolt: nat, status: Status, rev: nat, e: Event)
    requires !s.watch.solo
    ensures !Write(s, id, bolt, status, rev).watch.solo && !Log(Write(s, id, bolt, status, rev), e).watch.solo
  {
    hide OneRunning, CompletedAt, SetRow;
  }

  lemma LogThenWriteDirty(s: State, id: StageId, bolt: nat, status: Status, rev: nat, e: Event)
    requires !s.watch.solo
    ensures !Write(Log(s, e), id, bolt, status, rev).watch.solo
  {
    hide OneRunning, CompletedAt, SetRow;
  }

  lemma {:induction false} ScanDirty(s: State, listing: seq<Row>, k: nat)
    requires k <= |listing| && !s.watch.solo
    ensures !NextStage(s, listing, k).state.watch.solo
    decreases |listing| - k
  {
    hide OneRunning, CompletedAt, SetRow, Skips, Waits;
    if k == |listing| {
    } else if !Waits(listing[k]) {
      ScanDirty(s, listing, k + 1);
    } else if Skips(s, listing[k].stage) {
      ScanDirty(MarkSkipped(s, listing[k].stage), listing, k + 1);
    }
  }

  lemma ApproveDirty(s: State, id: StageId, bolt: nat, authOk: bool)
    requires !s.watch.solo
    ensures !Approve(s, id, bolt, authOk).state.watch.solo
  {
    hide OneRunning, CompletedAt, SetRow, Find, NextStage, Scoped, Effective, Pos;
    var i := Find(s.rows, id, bolt);
    if i < |s.rows| {
      var s1 := Log(Log(Write(s, id, bolt, Completed, s.rows[i].revisions), GateApproved(id)), StageCompleted(id));
      var adv := if IsPerBolt(id) then Advanced(s1, true) else AdvanceStage(s1, id, authOk);
      ScanDirty(adv.state, adv.state.rows, 0);
    }
  }

  lemma {:induction false} BoltDirty(s: State, b: nat, m: nat, agent: StageId -> AgentRun, results: seq<StageResult>)
    requires 1 <= m <= 6 && !s.watch.solo
    ensures !BoltStages(s, b, m, agent, results).state.watch.solo
    decreases 6 - m
  {
    hide RunStage, Approve, SkipsInBolt;
    if m < 6 {
      var id := StageId(3, m);
      if SkipsInBolt(s, id, b) {
        BoltDirty(s, b, m + 1, agent, results);
      } else {
        var run := RunStage(s, id, agent(id));
        RunStageDirty(s, id, agent(id));
        if run.StageRan? {
          var results1 := results + [run.result];
          if run.result.gateOpen && AutoMode(s.mode) {
            ApproveDirty(run.state, id, b, true);
            if Approve(run.state, id, b, true).Approved? {
              BoltDirty(Approve(run.state, id, b, true).state, b, m + 1, agent, results1);
            }
          } else if !run.result.gateOpen {
            BoltDirty(run.state, b, m + 1, agent, results1);
          }
        }
      }
    }
  }

  /** Starting a stage beside another row in progress. */
  lemma StartsTogether(s: State, id: StageId, run: AgentRun, j: nat)
    requires Pos(s.defs, id) < |s.defs| && BoltFor(s, id) > 0 && Find(s.rows, id, BoltFor(s, id)) < |s.rows|
    requires j < |s.rows| && s.rows[j].status == InProgress && !Matches(s.rows[j], id, BoltFor(s, id))
    ensures !RunStage(s, id, run).state.watch.solo
  {
    hide Find, Pos, CompletedAt, SetRow, FinishStage, OneRunning;
    var b := BoltFor(s, id);
    var i := Find(s.rows, id, b);
    TwoRunning(s.rows, id, b, i, j, s.rows[i].revisions);
    var started := Log(Write(s, id, b, InProgress, s.rows[i].revisions), StageStart(id));
    if run.Dispatched? && run.ending.Finished? {
      var sent := started.(outcomes := if run.signal.Some? then (started.outcomes - {id})[id := run.signal.value]
                                       else started.outcomes - {id});
      FinishDirty(sent, s.defs[Pos(s.defs, id)], b, s.rows[i].revisions, Verdict(run.signal, run.ending.exitOk),
                  FirstSource(run.signal, run.ending.exitOk), run.ending.smokeFails, run.ending.review);
    }
  }

  lemma TwoRunning(rows: seq<Row>, id: StageId, b: nat, i: nat, j: nat, rev: nat)
    requires i < |rows| && j < |rows| && Matches(rows[i], id, b) && !Matches(rows[j], id, b) && rows[j].status == InProgress
    ensures !OneRunning(SetRow(rows, id, b, InProgress, rev))
  {
    var t := SetRow(rows, id, b, InProgress, rev);
    assert t[i].status == InProgress && t[j].status == InProgress;
    var lo, hi := if i < j then i else j, if i < j then j else i;
    assert t[lo].status == InProgress && t[hi].status == InProgress;
  }

  lemma FinishDirty(s: State, def: StageDef, bolt: nat, rev: nat, verdict: Outcome, source: Source, smokeFails: bool, review: Review)
    requires !s.watch.solo
    ensures !FinishStage(s, def, bolt, rev, verdict, source, smokeFails, review).state.watch.solo
  {
    hide OneRunning, CompletedAt, SetRow;
  }

  lemma GrownIsClean(s: State, t: State, b: nat, stages: seq<StageDef>)
    requires Valid(s) && Valid(t) && Clean(s) && Grown(s.rows, t.rows, b, stages) && t.watch == s.watch
    ensures Clean(t)
  {
    assert forall i :: 0 <= i < |t.rows| && t.rows[i].status == InProgress ==> t.rows[i] in s.rows;
    assert forall i, j :: 0 <= i < j < |t.rows| ==> Before(t.defs, t.rows[i], t.rows[j]);
  }

  /** A bolt may be requested while a stage is in progress; no two rows are then in progress together
      exactly when the only row in progress is that of the stage the request dispatches first, or the
      request dispatches none. */
  lemma BoltRequestOverlaps(s: State, b: nat, agent: StageId -> AgentRun)
    requires Valid(s) && Clean(s) && b > 0 && BoltAt(s.bolts, b) < |s.bolts|
    ensures Clean(RunBolt(s, b, agent).state) <==> FreeToRun(StartBolt(s, b), b)
  {
    hide Find, BoltStages, Scoped, Effective, Valid, InitBolt, Grown, StartBolt, OneRunning, SkipsInBolt, HasRows;
    var s0 := StartBolt(s, b);
    var stages := Scoped(s.defs, Effective(s.scope));
    StartIsValid(s, b);
    StartWatch(s, b);
    ValidFacts(s);
    InitBoltGrows(s.defs, s.rows, b, stages);
    GrownIsClean(s, s0, b, stages);
    StartsAtFirstRun(s0, b, 1, agent, []);
    var k := FirstRun(s0, b, 1);
    if k == 6 {
      NothingStarted(s0, b, agent);
    } else if FreeToRun(s0, b) {
      FirstStageClean(s0, b, k, agent);
    } else {
      var j :| 0 <= j < |s0.rows| && s0.rows[j].status == InProgress && !Matches(s0.rows[j], StageId(3, k), b);
      FirstRow(s, s0, b, k);
      StartsTogether(s0, StageId(3, k), agent(StageId(3, k)), j);
      FirstStageDirty(s0, b, k, agent);
    }
  }

  lemma StartWatch(s: State, b: nat)
    ensures StartBolt(s, b).watch == s.watch
  {
  }

  lemma NothingStarted(s: State, b: nat, agent: StageId -> AgentRun)
    requires Clean(s)
    ensures Clean(BoltStages(s, b, 6, agent, []).state)
  {
  }

  lemma FirstRow(s: State, s0: State, b: nat, k: nat)
    requires Valid(s) && s0.defs == s.defs && s0.scope == s.scope && 1 <= k <= 5 && !SkipsInBolt(s0, StageId(3, k), b)
    requires HasRows(s0.rows, b, Scoped(s.defs, Effective(s.scope)))
    ensures Pos(s0.defs, StageId(3, k)) < |s0.defs| && Find(s0.rows, StageId(3, k), b) < |s0.rows|
  {
    hide Find, Effective;
    var p := Pos(s0.defs, StageId(3, k));
    assert s.defs[p] in Scoped(s.defs, Effective(s.scope));
  }

  lemma FirstStageDirty(s: State, b: nat, m: nat, agent: StageId -> AgentRun)
    requires 1 <= m <= 5 && !SkipsInBolt(s, StageId(3, m), b)
    requires !RunStage(s, StageId(3, m), agent(StageId(3, m))).state.watch.solo
    ensures !BoltStages(s, b, m, agent, []).state.watch.solo
  {
    hide RunStage, Approve, SkipsInBolt;
    var id := StageId(3, m);
    var run := RunStage(s, id, agent(id));
    if run.StageRan? {
      var results := [] + [run.result];
      if run.result.gateOpen && AutoMode(s.mode) {
        ApproveDirty(run.state, id, b, true);
        if Approve(run.state, id, b, true).Approved? {
          BoltDirty(Approve(run.state, id, b, true).state, b, m + 1, agent, results);
        }
      } else if !run.result.gateOpen {
        BoltDirty(run.state, b, m + 1, agent, results);
      }
    }
  }

  // ----- how a row is left in progress

  /** The context or the role of the agent cannot be built, or the wait to retry it is cancelled. */
  predicate CutShort(run: AgentRun) {
    run.ContextError? || run.RoleError? || (run.Dispatched? && run.ending.Interrupted?)
  }

  /** Row i, of the given key, is the only one in progress. */
  ghost predicate RunsAlone(s: State, i: nat, id: StageId, bolt: nat) {
    && i < |s.rows| && Matches(s.rows[i], id, bolt)
    && forall j :: 0 <= j < |s.rows| ==> (s.rows[j].status == InProgress <==> j == i)
  }

  lemma NotCutShort(s: State, id: StageId, run: AgentRun)
    requires CanRun(s, id) && !CutShort(run)
    ensures var r := RunStage(s, id, run).state; var i := Find(s.rows, id, BoltFor(s, id));
            |r.rows| == |s.rows| && r.rows[i].status != InProgress
  {
    hide Find, Log, Write, FinishStage, Touch, GateMatches;
    var b := BoltFor(s, id);
    var i := Find(s.rows, id, b);
    RunStageEffect(s, id, run);
    if run.ending.Finished? {
      RunStageGate(s, id, run.signal, run.ending);
      GateNotRunning(RunStage(s, id, run), i);
    } else {
      var rev := s.rows[i].revisions;
      var started := Log(Write(s, id, b, InProgress, rev), StageStart(id));
      var sent := started.(outcomes := if run.signal.Some? then (started.outcomes - {id})[id := run.signal.value]
                                       else started.outcomes - {id});
      WriteLogTouches(s, id, b, InProgress, rev, StageStart(id));
      TouchFinds(s, started, id, b);
      EndedRow(sent, s.defs[Pos(s.defs, id)], b, rev, run.signal, run.ending);
    }
  }

  lemma GateNotRunning(r: StageRun, i: nat)
    requires r.StageRan? && i < |r.state.rows| && GateMatches(r.result, r.state, i)
    ensures r.state.rows[i].status != InProgress
  {
  }

  lemma EndedRow(s: State, def: StageDef, b: nat, rev: nat, signal: Option<Outcome>, ending: Ending)
    requires (ending.Quota? || ending.Crashed?) && Find(s.rows, def.id, b) < |s.rows|
    ensures var t := EndDispatch(s, def, b, rev, signal, ending).state; var i := Find(s.rows, def.id, b);
            |t.rows| == |s.rows| && t.rows[i].status != InProgress
  {
    hide Find, OneRunning, CompletedAt;
  }

  /** A stage run is left in progress exactly when the dispatch is cut short. */
  lemma LeftRunningExactlyWhen(s: State, id: StageId, run: AgentRun)
    requires Valid(s) && Clean(s) && NoRow(s.rows, InProgress) && CanRun(s, id)
    requires s.rows[Find(s.rows, id, BoltFor(s, id))].status != Completed
    ensures var t := RunStage(s, id, run).state; var i := Find(s.rows, id, BoltFor(s, id));
            && Valid(t) && Clean(t) && t.defs == s.defs && t.bolts == s.bolts && t.scope == s.scope
            && (CutShort(run) ==> RunsAlone(t, i, id, BoltFor(s, id)))
            && (!CutShort(run) ==> NoRow(t.rows, InProgress))
  {
    hide Find, RunStage, Valid, OneRunning;
    var b := BoltFor(s, id);
    var i := Find(s.rows, id, b);
    var t := RunStage(s, id, run).state;
    FindMatches(s, id, b);
    RunStageAlone(s, id, run) by {
      IsOnlyRunning(s, id, b);
    }
    RunStageEffect(s, id, run);
    TouchKeepsValid(s, t, id, b);
    if CutShort(run) {
      CutRow(s, id, run);
    } else {
      NotCutShort(s, id, run);
    }
    forall j | 0 <= j < |s.rows| && j != i
      ensures t.rows[j].status != InProgress && !Matches(s.rows[j], id, b)
    {
      KeyIsUnique(s, j, id, b);
    }
  }

  lemma IsOnlyRunning(s: State, id: StageId, b: nat)
    requires Clean(s) && NoRow(s.rows, InProgress)
    ensures OnlyRunning(s, id, b)
  {
  }

  lemma CutRow(s: State, id: StageId, run: AgentRun)
    requires CanRun(s, id) && CutShort(run)
    ensures var t := RunStage(s, id, run).state; var i := Find(s.rows, id, BoltFor(s, id));
            |t.rows| == |s.rows| && t.rows[i].status == InProgress
  {
    hide Find, OneRunning, CompletedAt;
  }

  /** The row in progress is still the only one once the rows of a bolt are there. */
  lemma StartRunsAlone(s: State, i: nat, id: StageId, bolt: nat, b: nat)
    requires Valid(s) && b > 0 && RunsAlone(s, i, id, bolt)
    ensures var s0 := StartBolt(s, b);
            && (exists j :: 0 <= j < |s0.rows| && s0.rows[j].status == InProgress)
            && (forall j :: 0 <= j < |s0.rows| && s0.rows[j].status == InProgress ==> Matches(s0.rows[j], id, bolt))
  {
    hide Scoped, Effective, InitBolt, HasRows, Valid;
    var s0 := StartBolt(s, b);
    ValidIsTable(s);
    InitBoltGrows(s.defs, s.rows, b, Scoped(s.defs, Effective(s.scope)));
    assert s.rows[i] in s0.rows;
    forall j | 0 <= j < |s0.rows| && s0.rows[j].status == InProgress
      ensures Matches(s0.rows[j], id, bolt)
    {
      assert s0.rows[j] in s0.rows;
    }
  }

  /** After a dispatch that was cut short, a request for a bolt puts a second row in progress exactly when
      it dispatches some stage, and its first is not the one that was cut short. */
  lemma OverlapsAfterCutShort(s: State, id: StageId, run: AgentRun, b: nat, agent: StageId -> AgentRun)
    requires Valid(s) && Clean(s) && NoRow(s.rows, InProgress) && CanRun(s, id) && CutShort(run)
    requires s.rows[Find(s.rows, id, BoltFor(s, id))].status != Completed
    requires b > 0 && BoltAt(s.bolts, b) < |s.bolts|
    ensures var t := RunStage(s, id, run).state; var k := FirstRun(StartBolt(t, b), b, 1);
            !Clean(RunBolt(t, b, agent).state) <==> k < 6 && !(id == StageId(3, k) && BoltFor(s, id) == b)
  {
    hide Find, RunStage, StartBolt, RunBolt, Valid, Clean, FirstRun, CanRun;
    var t := RunStage(s, id, run).state;
    LeftRunningExactlyWhen(s, id, run);
    BoltRequestOverlaps(t, b, agent);
    StartRunsAlone(t, Find(s.rows, id, BoltFor(s, id)), id, BoltFor(s, id), b);
  }

  /** Stage 1.1 is to run, and bolt 1 has its stage 3.1 to run. */
  function TwoToRun(): State {
    State([StageDef(StageId(1, 1), Ideation, ["feature"], false), StageDef(StageId(3, 1), Construction, ["feature"], false)],
          [Row(StageId(1, 1), 0, NotStarted, 0), Row(StageId(3, 1), 1, NotStarted, 0)],
          [Bolt(1, ["unit-1"], [], Pending, true)],
          [], map[], "feature", Human, false, None, 0, Watch(true, true))
  }

  lemma TwoToRunFacts()
    ensures var s := TwoToRun();
            && Valid(s) && Clean(s) && NoRow(s.rows, InProgress) && CanRun(s, StageId(1, 1)) && BoltAt(s.bolts, 1) == 0
            && Find(s.rows, StageId(1, 1), BoltFor(s, StageId(1, 1))) == 0
            && !SkipsInBolt(s, StageId(3, 1), 1)
  {
    var s := TwoToRun();
    assert Pos(s.defs, StageId(1, 1)) == 0 && Pos(s.defs, StageId(3, 1)) == 1;
    assert Find(s.rows, StageId(3, 1), 1) == 1;
    assert s.defs[1].scopes[0] == "feature";
  }

  /** The context of stage 1.1 cannot be built, and bolt 1 is requested. */
  lemma OverlapExample(agent: StageId -> AgentRun)
    ensures !Clean(RunBolt(RunStage(TwoToRun(), StageId(1, 1), ContextError).state, 1, agent).state)
  {
    hide RunStage, RunBolt, StartBolt, Valid, Clean, Find, CanRun, SkipsInBolt, NoRow;
    var s, id := TwoToRun(), StageId(1, 1);
    TwoToRunFacts();
    var t := RunStage(s, id, ContextError).state;
    OverlapsAfterCutShort(s, id, ContextError, 1, agent);
    LeftRunningExactlyWhen(s, id, ContextError);
    OtherSkipStays(s, id, ContextError, StageId(3, 1), 1);
    StartSkips(t, 1, 1);
  }

  lemma OtherSkipStays(s: State, id: StageId, run: AgentRun, other: StageId, b: nat)
    requires id != other
    ensures SkipsInBolt(RunStage(s, id, run).state, other, b) <==> SkipsInBolt(s, other, b)
  {
    hide RunStage, Find, Quiet;
    var t := RunStage(s, id, run).state;
    RunStageEffect(s, id, run);
    SameKeysFind(s.rows, t.rows, other, b);
    FindMatches(s, other, b);
  }

  // ----- accepting a stage that is not the active one

  /** Index of the row that accepting a linear stage resets, |rows| when it resets none. */
  function ResetRow(s: State, id: StageId): nat {
    var stages := Scoped(s.defs, Effective(s.scope));
    var k := Pos(stages, id);
    if k < |stages| - 1 then Find(s.rows, stages[k + 1].id, 0) else |s.rows|
  }

  /** Every linear row before row i has passed, and nothing after the row that is reset has started. */
  ghost predicate AcceptIsSafe(s: State, id: StageId, i: nat) {
    && (forall j :: 0 <= j < i < |s.rows| && Linear(s.rows[j]) ==> Passed(s.rows[j].status))
    && var n := ResetRow(s, id);
       forall k :: n < k < |s.rows| && Linear(s.rows[k]) ==> s.rows[k].status == NotStarted
  }

  ghost predicate Accepted(a: seq<Row>, c: seq<Row>, i: nat, n: nat) {
    && SameKeys(a, c) && i < |a| && i < n <= |a| && Linear(a[i]) && (n < |a| ==> Linear(a[n]))
    && forall j :: 0 <= j < |a| ==>
         c[j].status == (if j == n then NotStarted else if j == i then Completed else a[j].status)
  }

  lemma AcceptedRows(s: State, id: StageId, authOk: bool)
    requires Valid(s) && !IsPerBolt(id)
    requires var i := Find(s.rows, id, 0); i < |s.rows| && s.rows[i].revisions >= MAX_REVISIONS
    ensures Accepted(s.rows, AcceptAsIs(s, id, 0, authOk).state.rows, Find(s.rows, id, 0), ResetRow(s, id))
  {
    hide Write, Log, AdvanceStage, Scoped, Effective, Find, OneRunning, ValidTable, Numbered, Accepted;
    var i := Find(s.rows, id, 0);
    var s1 := Log(Log(Write(s, id, 0, Completed, s.rows[i].revisions), GateAcceptAsIs(id)), StageCompleted(id));
    CompleteEffect(s, id, 0, GateAcceptAsIs(id));
    AdvanceRows(s1, id, authOk);
    var stages := Scoped(s.defs, Effective(s.scope));
    var k := Pos(stages, id);
    if k < |stages| - 1 {
      var next := stages[k + 1].id;
      NextIsLater(s, id);
      ResetIsLater(s, id, next);
      ResetStatus(s, s1, id, next);
    } else {
      NoResetStatus(s, s1, id);
    }
  }

  lemma NextIsLater(s: State, id: StageId)
    requires Valid(s)
    ensures var stages := Scoped(s.defs, Effective(s.scope)); var k := Pos(stages, id);
            k < |stages| - 1 ==> Pos(s.defs, id) < Pos(s.defs, stages[k + 1].id)
  {
    hide Scoped, Effective, Sorted, WellKeyed, Numbered;
    ScopedKeepsOrder(s.defs, Effective(s.scope), 0);
  }

  lemma ResetStatus(s: State, s1: State, id: StageId, next: StageId)
    requires Valid(s) && GateFrame(s, s1)
    requires var i, n := Find(s.rows, id, 0), Find(s.rows, next, 0);
             i < n && i < |s.rows| && Linear(s.rows[i]) && (n < |s.rows| ==> Linear(s.rows[n])) && s1.rows[i].status == Completed
             && forall j :: 0 <= j < |s.rows| && j != i ==> s1.rows[j] == s.rows[j]
    ensures Accepted(s.rows, SetRow(s1.rows, next, 0, NotStarted, 0), Find(s.rows, id, 0), Find(s.rows, next, 0))
  {
    hide Find;
    forall j | 0 <= j < |s.rows|
      ensures Matches(s1.rows[j], next, 0) <==> j == Find(s.rows, next, 0)
    {
      KeyIsUnique(s, j, next, 0);
    }
  }

  lemma NoResetStatus(s: State, s1: State, id: StageId)
    requires GateFrame(s, s1)
    requires var i := Find(s.rows, id, 0);
             i < |s.rows| && Linear(s.rows[i]) && s1.rows[i].status == Completed
             && forall j :: 0 <= j < |s.rows| && j != i ==> s1.rows[j] == s.rows[j]
    ensures Accepted(s.rows, s1.rows, Find(s.rows, id, 0), |s.rows|)
  {
    hide Find;
  }

  lemma ResetIsLater(s: State, id: StageId, next: StageId)
    requires Valid(s) && Pos(s.defs, id) < Pos(s.defs, next) && Find(s.rows, id, 0) < |s.rows|
    ensures Find(s.rows, id, 0) < Find(s.rows, next, 0)
    ensures Find(s.rows, next, 0) < |s.rows| ==> Linear(s.rows[Find(s.rows, next, 0)])
  {
    var i, n := Find(s.rows, id, 0), Find(s.rows, next, 0);
    if n < |s.rows| {
      LinearHasNoBolt(s, n);
      assert forall j :: 0 <= j < i ==> Before(s.defs, s.rows[j], s.rows[i]);
    }
  }

  /** The code accepts a linear stage in any status once it was revised three times.  The linear rows
      keep their shape exactly when no stage before it is unfinished and nothing has started beyond
      the stage that the acceptance resets. */
  lemma AcceptKeepsShape(s: State, id: StageId, authOk: bool)
    requires Valid(s) && Shape(s.rows) && !IsPerBolt(id)
    requires var i := Find(s.rows, id, 0); i < |s.rows| && s.rows[i].revisions >= MAX_REVISIONS
    ensures Shape(AcceptAsIs(s, id, 0, authOk).state.rows) <==> AcceptIsSafe(s, id, Find(s.rows, id, 0))
  {
    hide AcceptAsIs, Find, ResetRow, ValidTable, Numbered;
    var t := AcceptAsIs(s, id, 0, authOk).state;
    var i, n := Find(s.rows, id, 0), ResetRow(s, id);
    AcceptedRows(s, id, authOk);
    if Shape(t.rows) {
      forall k | n < k < |s.rows| && Linear(s.rows[k])
        ensures s.rows[k].status == NotStarted
      {
        assert Linear(t.rows[n]) && Linear(t.rows[k]);
      }
      forall j | 0 <= j < i && Linear(s.rows[j])
        ensures Passed(s.rows[j].status)
      {
        assert Linear(t.rows[j]) && Linear(t.rows[i]);
      }
    }
    if AcceptIsSafe(s, id, i) {
      forall a, b | 0 <= a < b < |t.rows| && Linear(t.rows[a]) && Linear(t.rows[b]) && t.rows[b].status != NotStarted
        ensures Passed(t.rows[a].status)
      {
        assert Linear(s.rows[a]) && Linear(s.rows[b]);
      }
    }
  }

  /** Stages 1.1 and 1.2 are completed, 1.1 after three revisions; 1.3 awaits approval. */
  function ThreeStages(): State {
    State([StageDef(StageId(1, 1), Ideation, ["feature"], false), StageDef(StageId(1, 2), Ideation, ["feature"], false),
           StageDef(StageId(1, 3), Ideation, ["feature"], false)],
          [Row(StageId(1, 1), 0, Completed, 3), Row(StageId(1, 2), 0, Completed, 0), Row(StageId(1, 3), 0, AwaitingApproval, 0)],
          [], [], map[], "feature", Human, false, None, 0, Watch(true, true))
  }

  /** Accepting 1.1 again resets the completed 1.2 in front of the active 1.3. */
  lemma AcceptExample()
    ensures var s, id := ThreeStages(), StageId(1, 1);
            && Valid(s) && Shape(s.rows) && Find(s.rows, id, 0) == 0
            && !Shape(AcceptAsIs(s, id, 0, true).state.rows)
  {
    hide AcceptAsIs, ResetRow, AcceptIsSafe, Valid, Shape;
    ThreeStagesValid();
    ThreeStagesUnsafe();
    AcceptKeepsShape(ThreeStages(), StageId(1, 1), true);
  }

  lemma ThreeStagesValid()
    ensures var s := ThreeStages(); Valid(s) && Shape(s.rows) && Find(s.rows, StageId(1, 1), 0) == 0
  {
    var s := ThreeStages();
    assert Pos(s.defs, StageId(1, 1)) == 0 && Pos(s.defs, StageId(1, 2)) == 1 && Pos(s.defs, StageId(1, 3)) == 2;
  }

  lemma ThreeStagesUnsafe()
    ensures !AcceptIsSafe(ThreeStages(), StageId(1, 1), 0)
  {
    hide ResetRow;
    ThreeStagesReset();
    var s := ThreeStages();
    assert Linear(s.rows[2]) && s.rows[2].status != NotStarted;
  }

  lemma ThreeStagesReset()
    ensures ResetRow(ThreeStages(), StageId(1, 1)) == 1
  {
    var s := ThreeStages();
    assert s.defs[0].scopes[0] == "feature" && s.defs[1].scopes[0] == "feature" && s.defs[2].scopes[0] == "feature";
    assert Scoped(s.defs, "feature", 3) == [];
    assert Scoped(s.defs, "feature", 2) == [s.defs[2]];
    assert Scoped(s.defs, "feature", 1) == [s.defs[1], s.defs[2]];
    assert Scoped(s.defs, "feature", 0) == s.defs;
    assert Find(s.rows, StageId(1, 2), 0) == 1;
  }
}
