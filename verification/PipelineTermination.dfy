/** The control loop of AdvanceFeature: every turn that goes on brings it closer to stopping,
    except from one kind of state, from which it never stops. */
module PipelineTermination {
  import opened Basics
  import opened StageTable
  import opened BoltPlan
  import opened PipelineModel
  import opened PipelineEffects

  // ----- the measure

  function BoltsLeft(s: State): nat {
    if s.bolts == [] then 1 else 0
  }

  function MergeLeft(s: State): nat {
    if MergeRecorded(s.audit) then 0 else 1
  }

  /** Rows that running the planned bolts would still create. */
  function Missing(s: State): set<(StageId, nat)> {
    set d, n | d in s.defs && 1 <= n <= |s.bolts| && LacksRow(s, d, n) :: (d.id, n)
  }

  predicate LacksRow(s: State, d: StageDef, n: nat) {
    IsPerBolt(d.id) && InScope(d, Effective(s.scope)) && Find(s.rows, d.id, n) == |s.rows|
  }

  /** The ranks of the first n rows, read as the digits of one number. */
  function Weight(rows: seq<Row>, n: nat): nat
    requires n <= |rows|
  {
    if n == 0 then 0 else 4 * Weight(rows, n - 1) + Rank(rows[n - 1].status)
  }

  function Open(bolts: seq<Bolt>): nat {
    if bolts == [] then 0 else (if bolts[0].status == Done then 0 else 1) + Open(bolts[1..])
  }

  /** t is closer to the end of the loop than s, in the lexicographic order of the five parts. */
  ghost predicate Closer(t: State, s: State) {
    (BoltsLeft(s), MergeLeft(s), Missing(s), Weight(s.rows, |s.rows|), Open(s.bolts)
     decreases to
     BoltsLeft(t), MergeLeft(t), Missing(t), Weight(t.rows, |t.rows|), Open(t.bolts))
  }

  lemma {:induction false} WeightMono(a: seq<Row>, b: seq<Row>, n: nat)
    requires n <= |a| == |b|
    requires forall j :: 0 <= j < n ==> Rank(b[j].status) <= Rank(a[j].status)
    ensures Weight(b, n) <= Weight(a, n)
  {
    if n > 0 {
      WeightMono(a, b, n - 1);
    }
  }

  /** A lower digit outweighs whatever happens to the digits after it. */
  lemma {:induction false} WeightDrops(a: seq<Row>, b: seq<Row>, i: nat, n: nat)
    requires i < n <= |a| == |b| && Lower(a, b, i)
    requires forall j :: 0 <= j < i ==> Rank(b[j].status) <= Rank(a[j].status)
    ensures Weight(b, n) < Weight(a, n)
  {
    if n == i + 1 {
      WeightMono(a, b, i);
    } else {
      WeightDrops(a, b, i, n - 1);
    }
  }

  // ----- what a decision is based on

  ghost predicate NoRow(rows: seq<Row>, status: Status) {
    forall i :: 0 <= i < |rows| ==> rows[i].status != status
  }

  /** The row at p is a linear row to run, once the waiting rows before it have been skipped. */
  ghost predicate PicksStage(s: State, t: State, id: StageId, p: nat) {
    && p < |s.rows| && ScanFrame(s, t)
    && s.rows[p].stage == id && s.rows[p].bolt == 0 && !IsPerBolt(id)
    && (s.rows[p].status == NotStarted || s.rows[p].status == Revising)
    && t.rows[p] == s.rows[p]
    && (t == s || SkippedIn(s.rows, t.rows, 0, p))
  }

  lemma DecideStage(s: State)
    requires Valid(s) && Decide(s).action.ActRunStage?
    ensures exists p :: PicksStage(s, Decide(s).state, Decide(s).action.stage, p)
    ensures NoRow(s.rows, InProgress) && NoRow(s.rows, AwaitingApproval)
  {
    hide Valid, ScanFrame, NextStage;
    var d := Decide(s);
    var p := FirstWith(s.rows, Revising);
    if p < |s.rows| {
      ScanFrameIsReflexive(s);
      LinearHasNoBolt(s, p);
      assert PicksStage(s, s, d.action.stage, p);
    } else {
      ScanEffect(s, s.rows, 0);
      var q := ScanEnd(s, s.rows, 0);
      LinearHasNoBolt(s, q);
      assert PicksStage(s, d.state, d.action.stage, q);
    }
  }

  lemma LinearHasNoBolt(s: State, i: nat)
    requires Valid(s) && i < |s.rows|
    ensures s.rows[i].bolt > 0 <==> IsPerBolt(s.rows[i].stage)
  {
    assert s.rows[i] in s.rows;
  }

  // ----- turns that go on

  lemma SameMissing(s: State, t: State)
    requires Frame(s, t) && |t.bolts| == |s.bolts|
    ensures Missing(t) == Missing(s)
  {
    forall d, n | d in s.defs && 1 <= n <= |s.bolts|
      ensures LacksRow(t, d, n) == LacksRow(s, d, n)
    {
    }
  }

  /** Nothing before the weight changes, and the weight drops. */
  lemma DropIsCloser(s: State, t: State, i: nat)
    requires Frame(s, t) && Quiet(s.audit, t.audit) && |t.bolts| == |s.bolts|
    requires Lower(s.rows, t.rows, i)
    requires forall j :: 0 <= j < i ==> Rank(t.rows[j].status) <= Rank(s.rows[j].status)
    ensures Closer(t, s)
  {
    QuietKeepsMerge(s.audit, t.audit);
    SameMissing(s, t);
    WeightDrops(s.rows, t.rows, i, |s.rows|);
  }

  lemma ApproveTurn(s: State, id: StageId, bolt: nat, authOk: bool)
    requires Valid(s) && Approve(s, id, bolt, authOk).Approved?
    ensures Closer(Approve(s, id, bolt, authOk).state, s)
  {
    hide Approve, Find, Closer, Skips;
    var t := Approve(s, id, bolt, authOk).state;
    var i := Find(s.rows, id, bolt);
    ApproveEffect(s, id, bolt, authOk);
    forall j | 0 <= j < i
      ensures Rank(t.rows[j].status) <= Rank(s.rows[j].status)
    {
      assert Before(s.defs, s.rows[j], s.rows[i]);
    }
    DropIsCloser(s, t, i);
  }

  lemma StageTurn(s: State, s1: State, id: StageId, p: nat, run: AgentRun)
    requires Valid(s) && PicksStage(s, s1, id, p)
    requires RunStage(s1, id, run).StageRan?
    ensures var r := RunStage(s1, id, run); var q := ProcessStageResult(r.state, id, r.result);
            q.outcome == AutoApproved ==> Closer(q.state, s)
  {
    hide RunStage, ProcessStageResult, Find, Closer, Valid, Skips;
    var r := RunStage(s1, id, run);
    var q := ProcessStageResult(r.state, id, r.result);
    RunStageEffect(s1, id, run);
    ProcessEffect(r.state, id, r.result);
    TouchIsTransitive(s1, r.state, q.state, id, 0);
    if q.outcome == AutoApproved {
      KeyIsUnique(s1, p, id, 0);
      TouchFinds(s1, r.state, id, 0);
      forall j | 0 <= j < p
        ensures Rank(q.state.rows[j].status) <= Rank(s.rows[j].status)
      {
        KeyIsUnique(s1, j, id, 0);
        assert q.state.rows[j] == s1.rows[j];
      }
      DropIsCloser(s, q.state, p);
    }
  }

  lemma GrowthIsCloser(s: State, b: nat, s0: State, t: State)
    requires Valid(s) && Valid(s0) && b > 0 && BoltAt(s.bolts, b) < |s.bolts|
    requires s0 == StartBolt(s, b) && BoltFrame(s0, t, b)
    requires !HasRows(s.rows, b, Scoped(s.defs, Effective(s.scope)))
    ensures Closer(t, s)
  {
    hide Find, Scoped, Effective, InitBolt, Missing, Weight, Open, Grown, HasRows;
    var stages := Scoped(s.defs, Effective(s.scope));
    assert s.bolts[BoltAt(s.bolts, b)].number == b;
    InitBoltGrows(s.defs, s.rows, b, stages);
    SameMissing(s0, t);
    QuietIsTransitive(s.audit, s0.audit, t.audit);
    QuietKeepsMerge(s.audit, t.audit);
    MissingShrinks(s, s0, b, stages);
  }

  lemma MissingShrinks(s: State, s0: State, b: nat, stages: seq<StageDef>)
    requires s0.defs == s.defs && s0.scope == s.scope && |s0.bolts| == |s.bolts| && 1 <= b <= |s.bolts|
    requires stages == Scoped(s.defs, Effective(s.scope))
    requires Grown(s.rows, s0.rows, b, stages) && HasRows(s0.rows, b, stages) && !HasRows(s.rows, b, stages)
    ensures Missing(s0) < Missing(s)
  {
    hide Find, Effective;
    forall d, n | d in s.defs && 1 <= n <= |s.bolts| && LacksRow(s0, d, n)
      ensures LacksRow(s, d, n)
    {
      if Find(s.rows, d.id, n) < |s.rows| {
        assert s.rows[Find(s.rows, d.id, n)] in s0.rows;
        FindIn(s0.rows, d.id, n);
      }
    }
    var d :| d in stages && IsPerBolt(d.id) && Find(s.rows, d.id, b) == |s.rows|;
    assert LacksRow(s, d, b) && (d.id, b) in Missing(s);
  }

  /** Every stage of the bolt that is in scope has its row, completed. */
  ghost predicate BoltComplete(s: State, b: nat) {
    forall k :: 1 <= k <= 5 && InScopeStage(s, StageId(3, k)) ==> CompletedAt(s.rows, StageId(3, k), b)
  }

  lemma {:induction false} OpenMono(a: seq<Bolt>, c: seq<Bolt>)
    requires |a| == |c| && forall i :: 0 <= i < |a| && a[i].status == Done ==> c[i].status == Done
    ensures Open(c) <= Open(a)
  {
    if a != [] {
      assert forall i :: 0 <= i < |a| - 1 ==> a[1..][i] == a[i + 1] && c[1..][i] == c[i + 1];
      OpenMono(a[1..], c[1..]);
    }
  }

  lemma {:induction false} OpenDrops(a: seq<Bolt>, c: seq<Bolt>, k: nat)
    requires k < |a| == |c| && forall i :: 0 <= i < |a| && a[i].status == Done ==> c[i].status == Done
    requires a[k].status != Done && c[k].status == Done
    ensures Open(c) < Open(a)
  {
    assert forall i :: 0 <= i < |a| - 1 ==> a[1..][i] == a[i + 1] && c[1..][i] == c[i + 1];
    if k == 0 {
      OpenMono(a[1..], c[1..]);
    } else {
      OpenDrops(a[1..], c[1..], k - 1);
    }
  }

  /** A run of bolt b brings the loop closer to its end, unless there was nothing to do. */
  lemma BoltTurn(s: State, b: nat, agent: StageId -> AgentRun)
    requires Valid(s) && b > 0 && NoRow(s.rows, AwaitingApproval)
    requires RunBolt(s, b, agent).end.BoltFinished? || RunBolt(s, b, agent).end.BoltStalled?
    ensures BoltAt(s.bolts, b) < |s.bolts|
    ensures || Closer(RunBolt(s, b, agent).state, s)
            || (BoltComplete(s, b) && s.bolts[BoltAt(s.bolts, b)].status == Done)
  {
    hide Find, BoltStages, Closer, Scoped, Effective, BoltOutcome, Valid, StartBolt;
    var s0, r := StartBolt(s, b), RunBolt(s, b, agent);
    var stages := Scoped(s.defs, Effective(s.scope));
    StartIsValid(s, b);
    BoltStagesEffect(s0, b, 1, agent, []);
    OutcomeFrame(s0, r, b, 1);
    if !HasRows(s.rows, b, stages) {
      GrowthIsCloser(s, b, s0, r.state);
    } else {
      InitBoltIsIdempotent(s.defs, s.rows, b, stages);
      SameRowsTurn(s, b, s0, r);
    }
  }

  lemma OutcomeFrame(s: State, r: BoltRun, b: nat, m: nat)
    requires BoltOutcome(s, r, b, m)
    ensures BoltFrame(s, r.state, b)
  {
  }

  lemma StartIsValid(s: State, b: nat)
    requires Valid(s) && b > 0
    ensures var t := StartBolt(s, b);
            && Valid(t) && t.currentBolt == b && t.rows == BoltRows(s, b) && t.defs == s.defs && t.scope == s.scope
            && t.mode == s.mode && Quiet(s.audit, t.audit) && |t.bolts| == |s.bolts|
            && forall i :: 0 <= i < |s.bolts| ==>
                 t.bolts[i] == (if s.bolts[i].number == b then s.bolts[i].(status := Running) else s.bolts[i])
  {
    hide Find, Scoped, Effective, InitBolt, Grown, HasRows;
    InitBoltGrows(s.defs, s.rows, b, Scoped(s.defs, Effective(s.scope)));
  }

  lemma SameRowsTurn(s: State, b: nat, s0: State, r: BoltRun)
    requires Valid(s) && BoltAt(s.bolts, b) < |s.bolts| && NoRow(s.rows, AwaitingApproval)
    requires s0 == StartBolt(s, b) && s0.rows == s.rows && BoltOutcome(s0, r, b, 1)
    requires r.end.BoltFinished? || r.end.BoltStalled?
    ensures Closer(r.state, s) || (BoltComplete(s, b) && s.bolts[BoltAt(s.bolts, b)].status == Done)
  {
    hide Find, Scoped, Effective, Closer, InitBolt, ValidTable, Rank, FinishedFrom, SameKeys;
    var t := r.state;
    QuietIsTransitive(s.audit, s0.audit, t.audit);
    if j :| Lower(s.rows, t.rows, j) {
      DropIsCloser(s, t, j);
    } else {
      EqualRanks(s, t);
      FinishedMeansComplete(s, s0, t, b);
      if s.bolts[BoltAt(s.bolts, b)].status != Done {
        BoltIsCloser(s, s0, t, b);
      }
    }
  }

  lemma EqualRanks(s: State, t: State)
    requires NoneHigher(s.rows, t.rows) && forall j :: !Lower(s.rows, t.rows, j)
    ensures |t.rows| == |s.rows| && forall j :: 0 <= j < |s.rows| ==> Rank(t.rows[j].status) == Rank(s.rows[j].status)
  {
    forall j | 0 <= j < |s.rows|
      ensures Rank(t.rows[j].status) == Rank(s.rows[j].status)
    {
      assert !Lower(s.rows, t.rows, j);
    }
  }

  lemma FinishedMeansComplete(s: State, s0: State, t: State, b: nat)
    requires s0.defs == s.defs && s0.scope == s.scope && SameKeys(s.rows, t.rows)
    requires forall j :: 0 <= j < |s.rows| ==> Rank(t.rows[j].status) == Rank(s.rows[j].status)
    requires FinishedFrom(s0, t, b, 1)
    ensures BoltComplete(s, b)
  {
    hide Find;
    forall k | 1 <= k <= 5 && InScopeStage(s, StageId(3, k))
      ensures CompletedAt(s.rows, StageId(3, k), b)
    {
      assert InScopeStage(s0, StageId(3, k));
      var i := Find(t.rows, StageId(3, k), b);
      assert Matches(s.rows[i], StageId(3, k), b);
    }
  }

  lemma BoltIsCloser(s: State, s0: State, t: State, b: nat)
    requires Valid(s) && s0 == StartBolt(s, b) && s0.rows == s.rows && BoltFrame(s0, t, b)
    requires Quiet(s.audit, t.audit)
    requires forall j :: 0 <= j < |s.rows| ==> Rank(t.rows[j].status) == Rank(s.rows[j].status)
    requires var k := BoltAt(s.bolts, b);
             k < |s.bolts| && s.bolts[k].status != Done && t.bolts[k].status == Done
    ensures Closer(t, s)
  {
    hide Find, Scoped, Effective, InitBolt, Rank, Quiet, Missing, Weight, Open, ValidTable;
    QuietKeepsMerge(s.audit, t.audit);
    StartFrame(s, b);
    SameMissing(s, t);
    WeightMono(s.rows, t.rows, |s.rows|);
    WeightMono(t.rows, s.rows, |s.rows|);
    hide Frame;
    BoltGetsDone(s, s0, t, b);
  }

  lemma StartFrame(s: State, b: nat)
    ensures var s0 := StartBolt(s, b);
            |s0.bolts| == |s.bolts| && s0.defs == s.defs && s0.scope == s.scope && s0.mode == s.mode && s0.finished == s.finished
  {
    hide InitBolt, Scoped, Effective;
  }

  lemma BoltGetsDone(s: State, s0: State, t: State, b: nat)
    requires s0 == StartBolt(s, b) && BoltFrame(s0, t, b)
    requires var k := BoltAt(s.bolts, b);
             k < |s.bolts| && |t.bolts| == |s.bolts| && s.bolts[k].status != Done && t.bolts[k].status == Done
    requires Numbered(s.bolts)
    ensures Open(t.bolts) < Open(s.bolts)
  {
    hide InitBolt, Scoped, Effective, Open, Frame, Quiet, Valid, BoltAt;
    OpenDrops(s.bolts, t.bolts, BoltAt(s.bolts, b));
  }

  // ----- the exception

  /** The first row that needs work is a revising row of a bolt that is done: the stage of the row
      is out of scope, so RunBolt passes over it, finds nothing to do, and reports success. */
  ghost predicate Stuck(s: State) {
    && AutoMode(s.mode) && NoRow(s.rows, InProgress) && NoRow(s.rows, AwaitingApproval)
    && var p := FirstWith(s.rows, Revising);
       && p < |s.rows| && IsPerBolt(s.rows[p].stage)
       && BoltAt(s.bolts, s.rows[p].bolt) < |s.bolts|
       && s.bolts[BoltAt(s.bolts, s.rows[p].bolt)].status == Done
       && BoltComplete(s, s.rows[p].bolt)
  }

  lemma CompleteHasRows(s: State, b: nat)
    requires Valid(s) && BoltComplete(s, b)
    ensures HasRows(s.rows, b, Scoped(s.defs, Effective(s.scope)))
  {
    hide Find, Effective;
    forall d | d in Scoped(s.defs, Effective(s.scope)) && IsPerBolt(d.id)
      ensures Find(s.rows, d.id, b) < |s.rows|
    {
      var p :| 0 <= p < |s.defs| && s.defs[p] == d;
      PosOf(s.defs, p);
      assert d.id == StageId(3, d.id.minor) && InScopeStage(s, d.id);
      var i :| 0 <= i < |s.rows| && Matches(s.rows[i], d.id, b) && s.rows[i].status == Completed;
      KeyIsUnique(s, i, d.id, b);
    }
  }

  lemma {:induction false} NothingToRun(s: State, b: nat, m: nat, agent: StageId -> AgentRun, results: seq<StageResult>)
    requires 1 <= m <= 6 && forall k :: m <= k <= 5 ==> SkipsInBolt(s, StageId(3, k), b)
    ensures BoltStages(s, b, m, agent, results) == BoltRun(Log(WriteBolt(s, b, Done), BoltCompleted(b)), BoltFinished, results)
    decreases 6 - m
  {
    hide SkipsInBolt;
    if m < 6 {
      NothingToRun(s, b, m + 1, agent, results);
    }
  }

  /** Running a bolt that is done and complete changes no row and no bolt. */
  lemma CompleteBoltRuns(s: State, b: nat, agent: StageId -> AgentRun)
    requires Valid(s) && b > 0 && BoltComplete(s, b)
    requires var k := BoltAt(s.bolts, b); k < |s.bolts| && s.bolts[k].status == Done
    ensures var r := RunBolt(s, b, agent); var t := r.state;
            && r.end.BoltFinished? && t.rows == s.rows && t.bolts == s.bolts && t.defs == s.defs
            && t.scope == s.scope && t.mode == s.mode && Quiet(s.audit, t.audit)
  {
    hide Find, Scoped, Effective, BoltStages, SkipsInBolt, InitBolt;
    var s0 := StartBolt(s, b);
    CompleteHasRows(s, b);
    InitBoltIsIdempotent(s.defs, s.rows, b, Scoped(s.defs, Effective(s.scope)));
    forall k | 1 <= k <= 5
      ensures SkipsInBolt(s0, StageId(3, k), b)
    {
      SkipsAgree(s, s0, k, b);
    }
    NothingToRun(s0, b, 1, agent, []);
    DoneAgain(s.bolts, b);
  }

  lemma SkipsAgree(s: State, t: State, k: nat, b: nat)
    requires t.rows == s.rows && t.defs == s.defs && t.scope == s.scope && SkipsInBolt(s, StageId(3, k), b)
    ensures SkipsInBolt(t, StageId(3, k), b)
  {
  }

  lemma DoneAgain(bolts: seq<Bolt>, b: nat)
    requires Numbered(bolts)
    requires var k := BoltAt(bolts, b); k < |bolts| && bolts[k].status == Done
    ensures SetBolt(SetBolt(bolts, b, Running), b, Done) == bolts
  {
  }

  lemma StuckDecides(s: State)
    requires Valid(s) && Stuck(s)
    ensures var p := FirstWith(s.rows, Revising);
            s.rows[p].bolt > 0 && Decide(s) == Decision(s, ActRunBolt(s.rows[p].bolt))
  {
    hide BoltComplete;
    LinearHasNoBolt(s, FirstWith(s.rows, Revising));
  }

  /** From a stuck state the loop goes on for ever: whatever the world does short of cancelling,
      the next turn goes on, and ends in a stuck state with the same rows and bolts. */
  lemma StuckGoesOn(s: State, w: World)
    requires Valid(s) && Stuck(s) && !w.cancelled
    ensures var r := TakeTurn(s, w);
            && r.Continue? && Stuck(r.state) && Valid(r.state)
            && r.state.rows == s.rows && r.state.bolts == s.bolts && !Closer(r.state, s)
  {
    hide Decide, RunBolt, Find, FirstWith;
    var b := s.rows[FirstWith(s.rows, Revising)].bolt;
    StuckDecides(s);
    CompleteBoltRuns(s, b, w.agent);
    var t := RunBolt(s, b, w.agent).state;
    assert Frame(s, t);
    SameMissing(s, t);
    QuietKeepsMerge(s.audit, t.audit);
  }

  // ----- the theorem

  lemma DecideBolt(s: State, b: nat)
    requires Valid(s) && Decide(s).action == ActRunBolt(b)
    ensures Decide(s).state == s && b > 0 && NoRow(s.rows, AwaitingApproval) && NoRow(s.rows, InProgress)
    ensures BoltComplete(s, b) && BoltAt(s.bolts, b) < |s.bolts| && s.bolts[BoltAt(s.bolts, b)].status == Done ==> Stuck(s)
  {
    hide BoltComplete, NextStage;
    var p := FirstWith(s.rows, Revising);
    if p == |s.rows| {
      var k := FirstToRun(s, 0);
      assert s.bolts[k].number == b;
      assert BoltAt(s.bolts, b) == k;
    }
  }

  lemma DecideOther(s: State)
    requires Valid(s)
    ensures var d := Decide(s);
            && (d.action.ActAutoApprove? || d.action.ActPrepareBolts? || d.action.ActMerge? ==> d.state == s)
            && (d.action.ActPrepareBolts? ==> s.bolts == [])
            && (d.action.ActMerge? ==> !MergeRecorded(s.audit))
            && (d.action.ActAutoApprove? ==> !NoRow(s.rows, AwaitingApproval))
            && (!d.action.ActRunBolt? ==> !Stuck(s))
  {
    hide BoltComplete, NextStage, FirstToRun;
    var p := FirstWith(s.rows, Revising);
    if Stuck(s) {
      LinearHasNoBolt(s, p);
    }
  }

  /** A turn that goes on brings the loop strictly closer to its end exactly when the state is
      not stuck, whatever the agents, the auth check, the artifacts and the merge do. */
  lemma TurnIsCloser(s: State, w: World)
    requires Valid(s) && TakeTurn(s, w).Continue?
    ensures Closer(TakeTurn(s, w).state, s) <==> !Stuck(s)
  {
    hide Decide, Approve, RunBolt, RunStage, ProcessStageResult, Closer, Stuck, Valid, MergeRecorded;
    var d := Decide(s);
    var t := TakeTurn(s, w).state;
    if Stuck(s) {
      StuckGoesOn(s, w);
    } else {
      DecideOther(s);
      match d.action
      case ActAutoApprove(id, bolt) => ApproveTurn(s, id, bolt, w.authOk);
      case ActPrepareBolts => PrepareTurn(s, w);
      case ActRunBolt(b) =>
        DecideBolt(s, b);
        BoltTurn(s, b, w.agent);
      case ActMerge => MergeTurn(s, t);
      case ActRunStage(id) =>
        DecideStage(s);
        var p :| PicksStage(s, d.state, id, p);
        StageTurn(s, d.state, id, p, w.agent(id));
    }
  }

  lemma PrepareTurn(s: State, w: World)
    requires s.bolts == []
    ensures Closer(PrepareBolts(s, w.unitOfWork, w.dag), s)
  {
    hide Units, PlanUnits, PlanLinks, Missing;
  }

  lemma MergeTurn(s: State, t: State)
    requires !MergeRecorded(s.audit) && t == s.(audit := t.audit) && s.audit + [MergeAttempted] <= t.audit
    ensures Closer(t, s)
  {
    assert t.audit[|s.audit|] == (s.audit + [MergeAttempted])[|s.audit|];
    assert MergeAttempted in t.audit;
  }

  lemma TouchKeepsValid(s: State, t: State, id: StageId, bolt: nat)
    requires Valid(s) && Touch(s, t, id, bolt)
    ensures Valid(t)
  {
  }

  lemma RunBoltKeepsValid(s: State, b: nat, agent: StageId -> AgentRun)
    requires Valid(s) && b > 0
    ensures Valid(RunBolt(s, b, agent).state)
  {
    hide Find, BoltStages, Scoped, Effective, BoltOutcome, Valid, StartBolt;
    if BoltAt(s.bolts, b) < |s.bolts| {
      StartIsValid(s, b);
      BoltStagesEffect(StartBolt(s, b), b, 1, agent, []);
      OutcomeFrame(StartBolt(s, b), RunBolt(s, b, agent), b, 1);
      FrameFacts(StartBolt(s, b), RunBolt(s, b, agent).state, b, StageId(3, 1));
    }
  }

  lemma DecideKeepsValid(s: State)
    requires Valid(s)
    ensures Valid(Decide(s).state) && (Decide(s).action.ActRunBolt? ==> Decide(s).action.bolt > 0)
  {
    hide Valid, NextStage, FirstToRun;
    ScanEffect(s, s.rows, 0);
    if Decide(s).action.ActRunBolt? {
      DecideBolt(s, Decide(s).action.bolt);
    }
  }

  /** Turns keep the table and the bolts valid. */
  lemma TurnKeepsValid(s: State, w: World)
    requires Valid(s)
    ensures Valid(TakeTurn(s, w).state)
  {
    hide Decide, Approve, RunBolt, RunStage, ProcessStageResult, Valid, Touch, Plan, Frame;
    if !w.cancelled {
      var d := Decide(s);
      DecideKeepsValid(s);
      match d.action
      case ActAutoApprove(id, bolt) =>
        ApproveEffect(d.state, id, bolt, w.authOk);
        GateFrameIsValid(d.state, Approve(d.state, id, bolt, w.authOk).state);
      case ActPrepareBolts => PlanIsValid(d.state, w);
      case ActRunBolt(b) => RunBoltKeepsValid(d.state, b, w.agent);
      case ActRunStage(id) =>
        var r := RunStage(d.state, id, w.agent(id));
        RunStageEffect(d.state, id, w.agent(id));
        TouchKeepsValid(d.state, r.state, id, BoltFor(d.state, id));
        if r.StageRan? {
          ProcessEffect(r.state, id, r.result);
          TouchKeepsValid(r.state, ProcessStageResult(r.state, id, r.result).state, id, r.result.bolt);
        }
      case _ => SameTableIsValid(d.state, TakeTurn(s, w).state);
    }
  }

  lemma PlanIsValid(s: State, w: World)
    requires Valid(s)
    ensures Valid(PrepareBolts(s, w.unitOfWork, w.dag))
  {
    PlanIsClosed(w.unitOfWork, w.dag);
  }

  lemma SameTableIsValid(s: State, t: State)
    requires Valid(s) && t.rows == s.rows && t.defs == s.defs && t.bolts == s.bolts
    ensures Valid(t)
  {
  }

  /** The state after n turns of the loop. */
  ghost function Loop(s: State, world: nat -> World, n: nat): State {
    if n == 0 then s else TakeTurn(Loop(s, world, n - 1), world(n - 1)).state
  }

  lemma LoopStep(s: State, world: nat -> World, n: nat)
    ensures Loop(s, world, 0) == s
    ensures Loop(s, world, n + 1) == TakeTurn(Loop(s, world, n), world(n)).state
  {
  }

  // ----- when the loop stops

  /** No bolt row waits for a revision of a stage that is out of scope. */
  ghost predicate NoOrphan(s: State) {
    forall i :: 0 <= i < |s.rows| && IsPerBolt(s.rows[i].stage) && s.rows[i].status == Revising
                ==> InScopeStage(s, s.rows[i].stage)
  }

  /** What a caller can check before starting the loop. */
  ghost predicate WillStop(s: State) {
    !AutoMode(s.mode) || NoOrphan(s)
  }

  lemma WillStopIsNotStuck(s: State)
    requires Valid(s) && WillStop(s)
    ensures !Stuck(s)
  {
    hide FirstWith, InScopeStage;
    var p := FirstWith(s.rows, Revising);
    if Stuck(s) {
      var r := s.rows[p];
      assert r.stage == StageId(3, r.stage.minor);
      var i :| 0 <= i < |s.rows| && Matches(s.rows[i], r.stage, r.bolt) && s.rows[i].status == Completed;
      KeyIsUnique(s, i, r.stage, r.bolt);
      KeyIsUnique(s, p, r.stage, r.bolt);
    }
  }

  /** A bolt row became revising only if its stage is in scope. */
  ghost predicate NoNewOrphan(s: State, t: State) {
    && t.defs == s.defs && t.scope == s.scope && t.mode == s.mode
    && forall i :: 0 <= i < |t.rows| && IsPerBolt(t.rows[i].stage) && t.rows[i].status == Revising ==>
         t.rows[i] in s.rows || InScopeStage(s, t.rows[i].stage)
  }

  lemma NoNewOrphanKeeps(s: State, t: State)
    requires NoNewOrphan(s, t) && WillStop(s)
    ensures WillStop(t)
  {
  }

  lemma ApproveOrphans(s: State, id: StageId, bolt: nat, authOk: bool)
    requires Valid(s)
    ensures NoNewOrphan(s, Approve(s, id, bolt, authOk).state)
  {
    hide Approve, Find, Skips, Valid;
    ApproveEffect(s, id, bolt, authOk);
  }

  lemma LinearOrphans(s: State, t: State, id: StageId)
    requires Valid(s) && Touch(s, t, id, 0) && !IsPerBolt(id)
    ensures NoNewOrphan(s, t)
  {
  }

  lemma StageOrphans(s: State, id: StageId, run: AgentRun)
    requires Valid(s) && !IsPerBolt(id)
    ensures var r := RunStage(s, id, run);
            && NoNewOrphan(s, r.state)
            && (r.StageRan? ==> NoNewOrphan(s, ProcessStageResult(r.state, id, r.result).state))
  {
    hide RunStage, ProcessStageResult, Touch, Valid, NoNewOrphan, Find, GateMatches;
    var r := RunStage(s, id, run);
    RunStageEffect(s, id, run);
    LinearOrphans(s, r.state, id);
    if r.StageRan? {
      var q := ProcessStageResult(r.state, id, r.result);
      ProcessEffect(r.state, id, r.result);
      TouchIsTransitive(s, r.state, q.state, id, 0);
      LinearOrphans(s, q.state, id);
    }
  }

  lemma BoltOrphans(s: State, b: nat, agent: StageId -> AgentRun)
    requires Valid(s) && b > 0
    ensures NoNewOrphan(s, RunBolt(s, b, agent).state)
  {
    hide Find, BoltStages, Scoped, Effective, Valid, StartBolt, InitBolt, HasRows, FinishedFrom, NoneHigher, Grown;
    if BoltAt(s.bolts, b) < |s.bolts| {
      var stages := Scoped(s.defs, Effective(s.scope));
      StartIsValid(s, b);
      ValidIsTable(s);
      InitBoltGrows(s.defs, s.rows, b, stages);
      BoltStagesEffect(StartBolt(s, b), b, 1, agent, []);
      GrownOrphans(s, StartBolt(s, b), RunBolt(s, b, agent), b, stages);
    }
  }

  lemma ValidIsTable(s: State)
    requires Valid(s)
    ensures ValidTable(s.defs, s.rows)
  {
  }

  lemma GrownOrphans(s: State, s0: State, r: BoltRun, b: nat, stages: seq<StageDef>)
    requires Grown(s.rows, s0.rows, b, stages) && BoltOutcome(s0, r, b, 1)
    requires s0.defs == s.defs && s0.scope == s.scope && s0.mode == s.mode
    ensures NoNewOrphan(s, r.state)
  {
    hide Find, Skips, FinishedFrom, NoneHigher, Valid;
    var t := r.state;
    forall i | 0 <= i < |t.rows| && IsPerBolt(t.rows[i].stage) && t.rows[i].status == Revising
      ensures t.rows[i] in s.rows || InScopeStage(s, t.rows[i].stage)
    {
      assert s0.rows[i] in s0.rows;
    }
  }

  lemma ScanOrphans(s: State)
    requires Valid(s)
    ensures NoNewOrphan(s, Decide(s).state)
  {
    hide NextStage, FirstWith, FirstToRun, StageDone, MergeRecorded, Valid;
    ScanEffect(s, s.rows, 0);
  }

  /** The condition holds in every turn if it holds in the first. */
  lemma TurnKeepsWillStop(s: State, w: World)
    requires Valid(s) && WillStop(s)
    ensures WillStop(TakeTurn(s, w).state)
  {
    hide Decide, Approve, RunBolt, RunStage, ProcessStageResult, Valid, Plan, NoNewOrphan, WillStop;
    var d := Decide(s);
    if !w.cancelled {
      ScanOrphans(s);
      NoNewOrphanKeeps(s, d.state);
      DecideKeepsValid(s);
      match d.action
      case ActAutoApprove(id, bolt) =>
        ApproveOrphans(d.state, id, bolt, w.authOk);
        NoNewOrphanKeeps(d.state, Approve(d.state, id, bolt, w.authOk).state);
      case ActRunBolt(b) =>
        BoltOrphans(d.state, b, w.agent);
        NoNewOrphanKeeps(d.state, RunBolt(d.state, b, w.agent).state);
      case ActRunStage(id) =>
        DecideStage(s);
        var p :| PicksStage(s, d.state, id, p);
        var r := RunStage(d.state, id, w.agent(id));
        StageOrphans(d.state, id, w.agent(id));
        NoNewOrphanKeeps(d.state, r.state);
        if r.StageRan? {
          NoNewOrphanKeeps(d.state, ProcessStageResult(r.state, id, r.result).state);
        }
      case _ => 
        NoNewOrphanKeeps(d.state, TakeTurn(s, w).state);
    }
  }

  // ----- the whole loop

  /** The loop gets to turn n. */
  ghost predicate Reaches(s: State, world: nat -> World, n: nat) {
    forall i :: 0 <= i < n ==> TakeTurn(Loop(s, world, i), world(i)).Continue?
  }

  ghost predicate NeverStuck(s: State, world: nat -> World) {
    forall n: nat :: Reaches(s, world, n) ==> !Stuck(Loop(s, world, n))
  }

  lemma {:induction false} LoopKeepsWillStop(s: State, world: nat -> World, n: nat)
    requires Valid(s) && WillStop(s) && Reaches(s, world, n)
    ensures Valid(Loop(s, world, n)) && WillStop(Loop(s, world, n))
  {
    hide Valid, WillStop, TakeTurn, Loop;
    LoopStep(s, world, 0);
    if n > 0 {
      LoopKeepsWillStop(s, world, n - 1);
      LoopStep(s, world, n - 1);
      TurnKeepsValid(Loop(s, world, n - 1), world(n - 1));
      TurnKeepsWillStop(Loop(s, world, n - 1), world(n - 1));
    }
  }

  /** The condition a caller can check keeps the loop from getting stuck, whatever the world does. */
  lemma WillStopNeverSticks(s: State, world: nat -> World)
    requires Valid(s) && WillStop(s)
    ensures NeverStuck(s, world)
  {
    hide Valid, WillStop, Reaches, Stuck, Loop;
    forall n: nat | Reaches(s, world, n)
      ensures !Stuck(Loop(s, world, n))
    {
      LoopKeepsWillStop(s, world, n);
      WillStopIsNotStuck(Loop(s, world, n));
    }
  }
}
