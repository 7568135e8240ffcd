/** What each transition may change, row by row.  The theorems about termination
    and safety use these facts instead of the transitions' bodies. */
module PipelineEffects {
  import opened Basics
  import opened StageTable
  import opened BoltPlan
  import opened PipelineModel

  ghost predicate Valid(s: State) {
    ValidTable(s.defs, s.rows) && Numbered(s.bolts)
  }

  ghost predicate SameKeys(a: seq<Row>, b: seq<Row>) {
    |a| == |b| && forall i :: 0 <= i < |a| ==> b[i].stage == a[i].stage && b[i].bolt == a[i].bolt
  }

  /** Everything that row writes leave alone. */
  ghost predicate Frame(s: State, t: State) {
    && t.defs == s.defs && t.scope == s.scope && t.mode == s.mode
    && SameKeys(s.rows, t.rows)
  }

  ghost predicate OnlyRow(a: seq<Row>, b: seq<Row>, id: StageId, bolt: nat) {
    SameKeys(a, b) && forall i :: 0 <= i < |a| && !Matches(a[i], id, bolt) ==> b[i] == a[i]
  }

  /** The log grew, and not by a merge record. */
  ghost predicate Quiet(a: seq<Event>, b: seq<Event>) {
    && |a| <= |b|
    && (forall i :: 0 <= i < |a| ==> b[i] == a[i])
    && (forall i :: |a| <= i < |b| ==> b[i] != MergeAttempted && b[i] != MergedToMain)
  }

  lemma KeyIsUnique(s: State, i: nat, id: StageId, bolt: nat)
    requires Valid(s) && i < |s.rows|
    ensures Matches(s.rows[i], id, bolt) <==> i == Find(s.rows, id, bolt)
  {
    FindOf(s.defs, s.rows, i);
  }

  lemma QuietIsTransitive(a: seq<Event>, b: seq<Event>, c: seq<Event>)
    requires Quiet(a, b) && Quiet(b, c)
    ensures Quiet(a, c)
  {
  }

  lemma QuietKeepsMerge(a: seq<Event>, b: seq<Event>)
    requires Quiet(a, b)
    ensures MergeRecorded(a) == MergeRecorded(b)
  {
    if e :| e in a && (e == MergeAttempted || e == MergedToMain) {
      var i :| 0 <= i < |a| && a[i] == e;
      assert b[i] == e;
    }
  }

  // ----- one stage

  function BoltFor(s: State, id: StageId): nat {
    if IsPerBolt(id) then s.currentBolt else 0
  }

  predicate Recirculated(s: State, id: StageId) {
    id in s.outcomes && s.outcomes[id] == Recirculate
  }

  /** How a stage's gate and source agree with the row (index i) it leaves behind. */
  ghost predicate GateMatches(result: StageResult, t: State, i: nat)
    requires i < |t.rows|
  {
    var status := t.rows[i].status;
    && (result.gateOpen <==> result.source != SmokeFailed && result.source != ReviewerRejected)
    && (result.gateOpen ==> status == AwaitingApproval || (status == Revising && !Recirculated(t, result.stage)))
    && (!result.gateOpen ==> status == Revising)
  }

  /** Writes to one row, and log entries other than merge records. */
  ghost predicate Touch(s: State, t: State, id: StageId, bolt: nat) {
    && Frame(s, t) && OnlyRow(s.rows, t.rows, id, bolt) && Quiet(s.audit, t.audit)
    && t.bolts == s.bolts && t.currentBolt == s.currentBolt && t.finished == s.finished
  }

  lemma WriteTouches(s: State, id: StageId, bolt: nat, status: Status, revisions: nat)
    ensures Touch(s, Write(s, id, bolt, status, revisions), id, bolt)
    ensures var i := Find(s.rows, id, bolt);
            i < |s.rows| ==> Write(s, id, bolt, status, revisions).rows[i] == Row(id, bolt, status, revisions)
  {
  }

  lemma LogTouches(s: State, e: Event, id: StageId, bolt: nat)
    requires e != MergeAttempted && e != MergedToMain
    ensures Touch(s, Log(s, e), id, bolt) && Log(s, e).outcomes == s.outcomes
  {
  }

  lemma TouchIsTransitive(s: State, t: State, u: State, id: StageId, bolt: nat)
    requires Touch(s, t, id, bolt) && Touch(t, u, id, bolt)
    ensures Touch(s, u, id, bolt)
  {
    forall i | 0 <= i < |s.rows| && !Matches(s.rows[i], id, bolt)
      ensures u.rows[i] == s.rows[i]
    {
      assert t.rows[i] == s.rows[i];
    }
  }

  lemma TouchIsReflexive(s: State, id: StageId, bolt: nat)
    ensures Touch(s, s, id, bolt)
  {
  }

  lemma TouchFinds(s: State, t: State, id: StageId, bolt: nat)
    requires Touch(s, t, id, bolt)
    ensures Find(t.rows, id, bolt) == Find(s.rows, id, bolt) && |t.rows| == |s.rows|
  {
  }

  /** A write followed by a log entry. */
  lemma WriteLogTouches(s: State, id: StageId, bolt: nat, status: Status, revisions: nat, e: Event)
    requires e != MergeAttempted && e != MergedToMain
    ensures var t := Log(Write(s, id, bolt, status, revisions), e);
            Touch(s, t, id, bolt) && t.outcomes == s.outcomes && (var i := Find(s.rows, id, bolt); i < |s.rows| ==> t.rows[i].status == status)
  {
    var w := Write(s, id, bolt, status, revisions);
    WriteTouches(s, id, bolt, status, revisions);
    LogTouches(w, e, id, bolt);
    TouchIsTransitive(s, w, Log(w, e), id, bolt);
  }

  lemma FinishClosed(s: State, id: StageId, bolt: nat, rev: nat)
    ensures var t := Log(Write(s, id, bolt, Revising, rev), StageRevising(id));
            && Touch(s, t, id, bolt) && t.outcomes == s.outcomes && |t.rows| == |s.rows|
            && (var i := Find(s.rows, id, bolt); i < |s.rows| ==> t.rows[i].status == Revising)
  {
    hide Log, Write, Find;
    WriteLogTouches(s, id, bolt, Revising, rev, StageRevising(id));
  }

  lemma FinishOpen(s: State, id: StageId, bolt: nat, rev: nat, failed: bool)
    ensures var s2 := Log(Write(s, id, bolt, AwaitingApproval, rev), StageAwaiting(id));
            var t := if failed then Log(Write(s2, id, bolt, Revising, rev), StageFailed(id)) else s2;
            && Touch(s, t, id, bolt) && t.outcomes == s.outcomes && |t.rows| == |s.rows|
            && (var i := Find(s.rows, id, bolt);
                i < |s.rows| ==> t.rows[i].status == if failed then Revising else AwaitingApproval)
  {
    hide Log, Write, Find, Touch;
    var s2 := Log(Write(s, id, bolt, AwaitingApproval, rev), StageAwaiting(id));
    WriteLogTouches(s, id, bolt, AwaitingApproval, rev, StageAwaiting(id));
    WriteLogTouches(s2, id, bolt, Revising, rev, StageFailed(id));
    var t := Log(Write(s2, id, bolt, Revising, rev), StageFailed(id));
    TouchIsTransitive(s, s2, t, id, bolt);
    TouchFinds(s, s2, id, bolt);
    TouchFinds(s, t, id, bolt);
  }

  lemma FinishEffect(s: State, def: StageDef, bolt: nat, rev: nat, verdict: Outcome, source: Source,
                     smokeFails: bool, review: Review)
    requires source != SmokeFailed && source != ReviewerRejected
    requires verdict == Fail ==> !Recirculated(s, def.id)
    ensures var r := FinishStage(s, def, bolt, rev, verdict, source, smokeFails, review);
            && Touch(s, r.state, def.id, bolt)
            && r.result.stage == def.id && r.result.bolt == bolt
            && (var i := Find(s.rows, def.id, bolt);
                i < |s.rows| ==> i < |r.state.rows| && GateMatches(r.result, r.state, i))
            && r.state.outcomes == s.outcomes
  {
    hide Write, Log, Touch, Find;
    var id := def.id;
    var s1 := if def.hasReviewer && !(verdict == Pass && smokeFails) && verdict == Pass && review != ReviewError
              then Log(s, SubagentCompleted(id)) else s;
    LogTouches(s, SubagentCompleted(id), id, bolt);
    TouchIsReflexive(s, id, bolt);
    TouchFinds(s, s1, id, bolt);
    FinishClosed(s1, id, bolt, rev + 1);
    FinishOpen(s1, id, bolt, rev, verdict == Fail);
    TouchIsTransitive(s, s1, FinishStage(s, def, bolt, rev, verdict, source, smokeFails, review).state, id, bolt);
  }

  lemma BoltForIs(s: State, id: StageId)
    ensures BoltFor(s, id) == if IsPerBolt(id) then s.currentBolt else 0
  {
  }

  lemma SignalIsVerdict(s: State, id: StageId, signal: Option<Outcome>, exitOk: bool)
    requires signal.Some? ==> id in s.outcomes && s.outcomes[id] == signal.value
    requires signal.None? ==> id !in s.outcomes
    ensures Verdict(signal, exitOk) == Fail ==> !Recirculated(s, id)
    ensures FirstSource(signal, exitOk) != SmokeFailed && FirstSource(signal, exitOk) != ReviewerRejected
  {
  }

  /** From a row in progress to whatever a dispatch leaves. */
  lemma EndDispatchEffect(s: State, def: StageDef, bolt: nat, rev: nat, signal: Option<Outcome>, ending: Ending)
    requires var i := Find(s.rows, def.id, bolt); i < |s.rows| && s.rows[i].status != Completed
    requires signal.Some? ==> def.id in s.outcomes && s.outcomes[def.id] == signal.value
    requires signal.None? ==> def.id !in s.outcomes
    ensures var r := EndDispatch(s, def, bolt, rev, signal, ending); var i := Find(s.rows, def.id, bolt);
            && Touch(s, r.state, def.id, bolt)
            && |r.state.rows| == |s.rows| && r.state.rows[i].status != Completed
            && (r.StageRan? ==> r.result.stage == def.id && r.result.bolt == bolt && GateMatches(r.result, r.state, i))
  {
    hide Write, Log, FinishStage, Find, Touch, GateMatches, Recirculated;
    var id := def.id;
    TouchIsReflexive(s, id, bolt);
    match ending
    case Interrupted =>
    case Quota =>
      var logged := Log(s, QuotaExhausted(id));
      LogTouches(s, QuotaExhausted(id), id, bolt);
      TouchFinds(s, logged, id, bolt);
      WriteIsLast(s, logged, id, bolt, Revising, rev);
    case Crashed => WriteIsLast(s, s, id, bolt, Failed, rev);
    case Finished(exitOk, smokeFails, review) =>
      var v, src := Verdict(signal, exitOk), FirstSource(signal, exitOk);
      SignalIsVerdict(s, id, signal, exitOk);
      FinishEffect(s, def, bolt, rev, v, src, smokeFails, review);
      var r := FinishStage(s, def, bolt, rev, v, src, smokeFails, review);
      TouchFinds(s, r.state, id, bolt);
      GateIsOpenRow(r, Find(s.rows, id, bolt));
  }

  lemma GateIsOpenRow(r: StageRun, i: nat)
    requires r.StageRan? && i < |r.state.rows| && GateMatches(r.result, r.state, i)
    ensures r.state.rows[i].status != Completed
  {
  }

  /** Running a stage touches its own row only; the gate it returns agrees with the row it leaves. */
  lemma RunStageEffect(s: State, id: StageId, run: AgentRun)
    ensures var r := RunStage(s, id, run); var b := BoltFor(s, id);
            && Touch(s, r.state, id, b)
            && |r.state.rows| == |s.rows|
            && (r.state == s || (var i := Find(s.rows, id, b); i < |s.rows| && r.state.rows[i].status != Completed))
            && (r.StageRan? ==>
                  && r.result.stage == id && r.result.bolt == b
                  && Find(s.rows, id, b) < |s.rows|
                  && GateMatches(r.result, r.state, Find(s.rows, id, b)))
  {
    hide Write, Log, EndDispatch, Find, Touch, BoltFor, GateMatches;
    var p, b := Pos(s.defs, id), BoltFor(s, id);
    BoltForIs(s, id);
    var i := Find(s.rows, id, b);
    TouchIsReflexive(s, id, b);
    if p < |s.defs| && i < |s.rows| {
      var rev := s.rows[i].revisions;
      var started := Log(Write(s, id, b, InProgress, rev), StageStart(id));
      WriteLogTouches(s, id, b, InProgress, rev, StageStart(id));
      TouchFinds(s, started, id, b);
      match run
      case ContextError =>
      case RoleError => OutcomesTouch(s, started, id, b, started.outcomes - {id});
      case Dispatched(signal, ending) =>
        var sent := started.(outcomes := if signal.Some? then (started.outcomes - {id})[id := signal.value]
                                         else started.outcomes - {id});
        OutcomesTouch(s, started, id, b, sent.outcomes);
        EndDispatchEffect(sent, s.defs[p], b, rev, signal, ending);
        var t := EndDispatch(sent, s.defs[p], b, rev, signal, ending).state;
        TouchIsTransitive(s, sent, t, id, b);
    }
  }

  lemma RunStageKeepsMode(s: State, id: StageId, run: AgentRun)
    ensures RunStage(s, id, run).state.mode == s.mode
  {
    hide RunStage, OnlyRow, Quiet, Find;
    RunStageEffect(s, id, run);
  }

  lemma OutcomesTouch(s: State, t: State, id: StageId, b: nat, outcomes: map<StageId, Outcome>)
    requires Touch(s, t, id, b)
    ensures Touch(s, t.(outcomes := outcomes), id, b)
  {
  }

  lemma WriteIsLast(s: State, t: State, id: StageId, b: nat, status: Status, rev: nat)
    requires Touch(s, t, id, b) && Find(t.rows, id, b) == Find(s.rows, id, b) < |t.rows| == |s.rows|
    ensures var u := Write(t, id, b, status, rev);
            Touch(s, u, id, b) && |u.rows| == |s.rows| && u.rows[Find(s.rows, id, b)].status == status
  {
    hide Write, Find, Touch;
    WriteTouches(t, id, b, status, rev);
    TouchIsTransitive(s, t, Write(t, id, b, status, rev), id, b);
    TouchFinds(s, Write(t, id, b, status, rev), id, b);
  }

  lemma ProcessEffect(s: State, id: StageId, result: StageResult)
    ensures var r := ProcessStageResult(s, id, result);
            && Touch(s, r.state, id, result.bolt)
            && (r.outcome == AutoApproved ==>
                  var i := Find(s.rows, id, result.bolt); i < |s.rows| && r.state.rows[i].status == Completed)
  {
    var b := result.bolt;
    var i := Find(s.rows, id, b);
    if i < |s.rows| {
      var rev := s.rows[i].revisions;
      WriteLogTouches(s, id, b, Revising, rev, StageFailed(id));
      WriteLogTouches(s, id, b, Completed, rev, StageCompleted(id));
      WriteLogTouches(s, id, b, AwaitingApproval, rev, StageAwaiting(id));
      var g := Log(Write(s, id, b, Completed, rev), GateApproved(id));
      WriteLogTouches(s, id, b, Completed, rev, GateApproved(id));
      LogTouches(g, StageCompleted(id), id, b);
      TouchIsTransitive(s, g, Log(g, StageCompleted(id)), id, b);
    }
  }

  // ----- the scan for the next linear stage

  /** Rows k..p that waited are skipped; all others are as before. */
  ghost predicate SkippedIn(a: seq<Row>, b: seq<Row>, k: nat, p: nat) {
    && SameKeys(a, b)
    && forall i :: 0 <= i < |a| ==>
         if k <= i < p && Waits(a[i]) then b[i].status == Skipped else b[i] == a[i]
  }

  ghost predicate ScanFrame(s: State, t: State) {
    && Frame(s, t) && Valid(t) && Quiet(s.audit, t.audit)
    && t.bolts == s.bolts && t.currentBolt == s.currentBolt && t.finished == s.finished && t.outcomes == s.outcomes
  }

  lemma SkipOne(s: State, k: nat)
    requires Valid(s) && k < |s.rows| && Waits(s.rows[k])
    ensures var t := MarkSkipped(s, s.rows[k].stage);
            ScanFrame(s, t) && SkippedIn(s.rows, t.rows, k, k + 1)
  {
    assert s.rows[k] in s.rows;
    FindOf(s.defs, s.rows, k);
    var t := MarkSkipped(s, s.rows[k].stage);
    forall i | 0 <= i < |s.rows|
      ensures Matches(s.rows[i], s.rows[k].stage, 0) <==> i == k
    {
      KeyIsUnique(s, i, s.rows[k].stage, 0);
    }
  }

  /** Where the scan that starts at row k stops. */
  function ScanEnd(s: State, listing: seq<Row>, k: nat): (p: nat)
    requires k <= |listing|
    ensures k <= p <= |listing|
    ensures p < |listing| ==> Waits(listing[p]) && !Skips(s, listing[p].stage)
    ensures forall i :: k <= i < p && Waits(listing[i]) ==> Skips(s, listing[i].stage)
    decreases |listing| - k
  {
    if k < |listing| && !(Waits(listing[k]) && !Skips(s, listing[k].stage)) then ScanEnd(s, listing, k + 1) else k
  }

  /** The scan skips the waiting rows before the first one in scope and returns that one. */
  lemma {:induction false} ScanEffect(s: State, listing: seq<Row>, k: nat)
    requires Valid(s) && k <= |listing| == |s.rows|
    requires forall i :: k <= i < |listing| ==> s.rows[i] == listing[i]
    ensures var r := NextStage(s, listing, k); var p := ScanEnd(s, listing, k);
            && ScanFrame(s, r.state) && SkippedIn(s.rows, r.state.rows, k, p)
            && r.next == if p < |listing| then Some(listing[p].stage) else None
    decreases |listing| - k
  {
    hide ScanFrame, SkippedIn, MarkSkipped, Skips, Waits, Valid;
    if k == |listing| || (Waits(listing[k]) && !Skips(s, listing[k].stage)) {
      ScanFrameIsReflexive(s);
      SkippedNone(s.rows, k);
    } else if !Waits(listing[k]) {
      ScanEffect(s, listing, k + 1);
      SkippedWider(s.rows, NextStage(s, listing, k + 1).state.rows, k, ScanEnd(s, listing, k + 1));
    } else {
      var t := MarkSkipped(s, listing[k].stage);
      SkipOne(s, k);
      SkippedKeepsRest(s.rows, t.rows, listing, k);
      ScanEffect(t, listing, k + 1);
      ScanEndAgrees(s, t, listing, k + 1);
      var u := NextStage(t, listing, k + 1).state;
      ScanFrameIsTransitive(s, t, u);
      SkippedJoin(s.rows, t.rows, u.rows, k, k + 1, ScanEnd(s, listing, k + 1));
    }
  }

  lemma ScanFrameIsReflexive(s: State)
    requires Valid(s)
    ensures ScanFrame(s, s)
  {
  }

  lemma ScanFrameIsTransitive(s: State, t: State, u: State)
    requires ScanFrame(s, t) && ScanFrame(t, u)
    ensures ScanFrame(s, u)
  {
  }

  lemma SkippedNone(a: seq<Row>, k: nat)
    ensures SkippedIn(a, a, k, k)
  {
  }

  lemma SkippedWider(a: seq<Row>, b: seq<Row>, k: nat, p: nat)
    requires k < |a| && !Waits(a[k]) && k + 1 <= p && SkippedIn(a, b, k + 1, p)
    ensures SkippedIn(a, b, k, p)
  {
  }

  lemma SkippedKeepsRest(a: seq<Row>, b: seq<Row>, listing: seq<Row>, k: nat)
    requires SkippedIn(a, b, k, k + 1) && |listing| == |a|
    requires forall i :: k <= i < |listing| ==> a[i] == listing[i]
    ensures |b| == |a| && forall i :: k < i < |listing| ==> b[i] == listing[i]
  {
  }

  lemma SkippedJoin(a: seq<Row>, b: seq<Row>, c: seq<Row>, k: nat, m: nat, p: nat)
    requires k <= m <= p && SkippedIn(a, b, k, m) && SkippedIn(b, c, m, p)
    ensures SkippedIn(a, c, k, p)
  {
    forall i | 0 <= i < |a|
      ensures if k <= i < p && Waits(a[i]) then c[i].status == Skipped else c[i] == a[i]
    {
      if k <= i < m && Waits(a[i]) {
        assert b[i].status == Skipped && c[i] == b[i];
      } else {
        assert b[i] == a[i];
      }
    }
  }

  lemma {:induction false} ScanEndAgrees(s: State, t: State, listing: seq<Row>, k: nat)
    requires k <= |listing| && ScanFrame(s, t)
    ensures ScanEnd(t, listing, k) == ScanEnd(s, listing, k)
    decreases |listing| - k
  {
    if k < |listing| {
      ScanEndAgrees(s, t, listing, k + 1);
    }
  }

  // ----- gates

  /** Advancing rewrites at most the row of the next stage in scope. */
  lemma AdvanceRows(s: State, id: StageId, authOk: bool)
    ensures var stages := Scoped(s.defs, Effective(s.scope)); var k := Pos(stages, id);
            var t := AdvanceStage(s, id, authOk).state;
            && t.rows == (if k < |stages| - 1 then SetRow(s.rows, stages[k + 1].id, 0, NotStarted, 0) else s.rows)
            && t.defs == s.defs && t.scope == s.scope && t.mode == s.mode && Quiet(s.audit, t.audit)
            && t.bolts == s.bolts && t.currentBolt == s.currentBolt && t.outcomes == s.outcomes
  {
    hide Scoped, Pos, SetRow, OneRunning, CompletedAt, Effective;
  }

  /** The stages of a scope are never skipped for being out of it. */
  lemma ScopedNeverSkips(s: State, k: nat)
    requires k < |Scoped(s.defs, Effective(s.scope))|
    ensures !OutOfScope(Scoped(s.defs, Effective(s.scope))[k], Effective(s.scope))
  {
    hide Effective;
    assert Scoped(s.defs, Effective(s.scope))[k] in Scoped(s.defs, Effective(s.scope));
  }

  ghost predicate ResetAfter(s: State, t: State, id: StageId)
    requires |t.rows| == |s.rows|
  {
    forall i :: 0 <= i < |s.rows| ==>
      || t.rows[i] == s.rows[i]
      || (Pos(s.defs, id) < Pos(s.defs, s.rows[i].stage) && s.rows[i].bolt == 0 && t.rows[i].status == NotStarted)
  }

  /** Advancing past a stage may reset a row of a later stage to not started, and changes no other row. */
  lemma AdvanceEffect(s: State, id: StageId, authOk: bool)
    requires Valid(s)
    ensures var t := AdvanceStage(s, id, authOk).state;
            && Frame(s, t) && Valid(t) && Quiet(s.audit, t.audit)
            && t.bolts == s.bolts && t.currentBolt == s.currentBolt && t.outcomes == s.outcomes
            && ResetAfter(s, t, id)
  {
    hide AdvanceStage, Scoped, Effective, Pos;
    var stages := Scoped(s.defs, Effective(s.scope));
    var k := Pos(stages, id);
    AdvanceRows(s, id, authOk);
    var t := AdvanceStage(s, id, authOk).state;
    if k < |stages| - 1 {
      ScopedKeepsOrder(s.defs, Effective(s.scope), 0);
      assert Pos(s.defs, stages[k].id) < Pos(s.defs, stages[k + 1].id);
    }
  }

  /** Row i of the approved stage is completed; others are as before, skipped, or reset after it. */
  ghost predicate ApprovedRows(s: State, t: State, id: StageId, i: nat) {
    && i < |s.rows| == |t.rows|
    && (s.rows[i].status == AwaitingApproval || s.rows[i].status == Revising)
    && t.rows[i].status == Completed && t.rows[i].revisions == s.rows[i].revisions
    && forall j :: 0 <= j < |s.rows| && j != i ==>
         || t.rows[j] == s.rows[j]
         || (Waits(s.rows[j]) && t.rows[j].status == Skipped && Skips(s, s.rows[j].stage))
         || (!IsPerBolt(id) && Pos(s.defs, id) < Pos(s.defs, s.rows[j].stage) && s.rows[j].bolt == 0
             && (t.rows[j].status == NotStarted || (t.rows[j].status == Skipped && Skips(s, s.rows[j].stage))))
  }

  /** What no gate operation changes. */
  ghost predicate GateFrame(s: State, t: State) {
    && Frame(s, t) && Valid(t) && Quiet(s.audit, t.audit)
    && t.bolts == s.bolts && t.currentBolt == s.currentBolt && t.outcomes == s.outcomes
  }

  lemma GateFrameIsTransitive(s: State, t: State, u: State)
    requires GateFrame(s, t) && GateFrame(t, u)
    ensures GateFrame(s, u)
  {
  }

  /** The state in which a gate has been closed with the row completed. */
  lemma CompleteEffect(s: State, id: StageId, bolt: nat, e: Event)
    requires Valid(s) && Find(s.rows, id, bolt) < |s.rows| && e != MergeAttempted && e != MergedToMain
    ensures var i := Find(s.rows, id, bolt);
            var t := Log(Log(Write(s, id, bolt, Completed, s.rows[i].revisions), e), StageCompleted(id));
            && GateFrame(s, t) && t.rows[i].status == Completed && t.rows[i].revisions == s.rows[i].revisions
            && forall j :: 0 <= j < |s.rows| && j != i ==> t.rows[j] == s.rows[j]
  {
    hide Log, Write, Find, Touch, GateFrame, Valid;
    var i := Find(s.rows, id, bolt);
    var s1 := Log(Write(s, id, bolt, Completed, s.rows[i].revisions), e);
    WriteLogTouches(s, id, bolt, Completed, s.rows[i].revisions, e);
    WriteTouches(s, id, bolt, Completed, s.rows[i].revisions);
    LogTouches(s1, StageCompleted(id), id, bolt);
    var t := Log(s1, StageCompleted(id));
    TouchIsTransitive(s, s1, t, id, bolt);
    LogKeepsRows(s1, StageCompleted(id));
    LogKeepsRows(Write(s, id, bolt, Completed, s.rows[i].revisions), e);
    TouchIsGateFrame(s, t, id, bolt);
  }

  /** A write to one row and log entries are what a gate operation may do. */
  lemma TouchIsGateFrame(s: State, t: State, id: StageId, bolt: nat)
    requires Valid(s) && Touch(s, t, id, bolt) && t.outcomes == s.outcomes
    ensures GateFrame(s, t) && |t.rows| == |s.rows|
    ensures forall j :: 0 <= j < |s.rows| && j != Find(s.rows, id, bolt) ==> t.rows[j] == s.rows[j]
  {
    hide Find;
    forall j | 0 <= j < |s.rows| && j != Find(s.rows, id, bolt)
      ensures t.rows[j] == s.rows[j]
    {
      KeyIsUnique(s, j, id, bolt);
    }
  }

  lemma LogKeepsRows(s: State, e: Event)
    ensures Log(s, e).rows == s.rows && Log(s, e).watch == s.watch
  {
  }

  lemma ApproveEffect(s: State, id: StageId, bolt: nat, authOk: bool)
    requires Valid(s)
    ensures var r := Approve(s, id, bolt, authOk); var i := Find(s.rows, id, bolt);
            && GateFrame(s, r.state)
            && (r.Approved? ==> ApprovedRows(s, r.state, id, i) && !Recirculated(s, id))
            && (r.Refused? ==> r.state == s || (!IsPerBolt(id) && ApprovedRows(s, r.state, id, i)))
            && (r.Refused? && IsPerBolt(id) && i < |s.rows| && s.rows[i].status == Revising ==> Recirculated(s, id))
  {
    hide Log, Write, Find, AdvanceStage, NextStage, ApprovedRows, GateFrame, ScanFrame, Valid, SkippedIn, ResetAfter, Frame;
    var i := Find(s.rows, id, bolt);
    var r := Approve(s, id, bolt, authOk);
    GateFrameIsReflexive(s);
    if i < |s.rows| && (s.rows[i].status == AwaitingApproval || s.rows[i].status == Revising) && !Recirculated(s, id) {
      var s1 := Log(Log(Write(s, id, bolt, Completed, s.rows[i].revisions), GateApproved(id)), StageCompleted(id));
      CompleteEffect(s, id, bolt, GateApproved(id));
      var adv := if IsPerBolt(id) then Advanced(s1, true) else AdvanceStage(s1, id, authOk);
      GateFrameIsValid(s, s1);
      GateFrameIsReflexive(s1);
      AdvanceGateEffect(s1, id, authOk);
      AdvancedRows(s, s1, adv.state, id, i);
      GateFrameIsTransitive(s, s1, adv.state);
      GateFrameIsValid(s, adv.state);
      ScanEffect(adv.state, adv.state.rows, 0);
      ScanIsGateFrame(adv.state, NextStage(adv.state, adv.state.rows, 0).state);
      var scan := NextStage(adv.state, adv.state.rows, 0);
      GateFrameIsTransitive(s, adv.state, scan.state);
      ScannedRows(s, adv.state, scan.state, id, i);
    }
  }

  lemma GateFrameIsReflexive(s: State)
    requires Valid(s)
    ensures GateFrame(s, s)
  {
  }

  lemma GateFrameIsValid(s: State, t: State)
    requires GateFrame(s, t)
    ensures Valid(t) && |t.rows| == |s.rows|
  {
  }

  lemma ScanIsGateFrame(s: State, t: State)
    requires ScanFrame(s, t)
    ensures GateFrame(s, t)
  {
  }

  lemma AdvanceGateEffect(s: State, id: StageId, authOk: bool)
    requires Valid(s)
    ensures var t := AdvanceStage(s, id, authOk).state; GateFrame(s, t) && |t.rows| == |s.rows| && ResetAfter(s, t, id)
  {
    hide AdvanceStage, ResetAfter;
    AdvanceEffect(s, id, authOk);
  }

  lemma AdvancedRows(s: State, s1: State, t: State, id: StageId, i: nat)
    requires Valid(s) && GateFrame(s, s1) && GateFrame(s1, t) && i < |s.rows|
    requires s.rows[i].stage == id && (s.rows[i].status == AwaitingApproval || s.rows[i].status == Revising)
    requires s1.rows[i].status == Completed && s1.rows[i].revisions == s.rows[i].revisions
    requires forall j :: 0 <= j < |s.rows| && j != i ==> s1.rows[j] == s.rows[j]
    requires t == s1 || (!IsPerBolt(id) && ResetAfter(s1, t, id))
    ensures ApprovedRows(s, t, id, i)
  {
  }

  lemma ScannedRows(s: State, t: State, u: State, id: StageId, i: nat)
    requires Valid(s) && ApprovedRows(s, t, id, i) && GateFrame(s, t)
    requires SkippedIn(t.rows, u.rows, 0, ScanEnd(t, t.rows, 0))
    ensures ApprovedRows(s, u, id, i)
  {
    forall j | 0 <= j < |s.rows| && u.rows[j] != t.rows[j]
      ensures Waits(t.rows[j]) && Skips(s, s.rows[j].stage) && u.rows[j].status == Skipped
    {
    }
  }

  // ----- one bolt

  predicate InScopeStage(s: State, id: StageId) {
    var p := Pos(s.defs, id);
    p < |s.defs| && InScope(s.defs[p], Effective(s.scope))
  }

  /** Rows a run of bolt b from stage 3.m may change: its own unfinished rows in scope, and
      waiting rows out of scope, which it skips. */
  ghost predicate BoltRowsFrom(s: State, t: State, b: nat, m: nat) {
    && |t.rows| == |s.rows|
    && forall j :: 0 <= j < |s.rows| ==>
         || t.rows[j] == s.rows[j]
         || BoltMayRun(s, s.rows[j], b, m)
         || (Waits(s.rows[j]) && t.rows[j].status == Skipped && Skips(s, s.rows[j].stage))
  }

  predicate BoltMayRun(s: State, r: Row, b: nat, m: nat) {
    r.bolt == b && IsPerBolt(r.stage) && r.stage.minor >= m && r.status != Completed && InScopeStage(s, r.stage)
  }

  /** What a run of bolt b leaves alone. */
  ghost predicate BoltFrame(s: State, t: State, b: nat) {
    && Frame(s, t) && Valid(t) && Quiet(s.audit, t.audit) && t.currentBolt == s.currentBolt
    && |t.bolts| == |s.bolts|
    && forall i :: 0 <= i < |s.bolts| ==>
         t.bolts[i] == s.bolts[i].(status := t.bolts[i].status) && (s.bolts[i].number != b ==> t.bolts[i] == s.bolts[i])
  }

  ghost predicate FinishedFrom(s: State, t: State, b: nat, m: nat) {
    forall k :: m <= k <= 5 && InScopeStage(s, StageId(3, k)) ==>
      var i := Find(t.rows, StageId(3, k), b); i < |t.rows| && t.rows[i].status == Completed
  }

  function Rank(status: Status): (r: nat)
    ensures r <= 3
  {
    match status
    case NotStarted => 3
    case AwaitingApproval => 1
    case Completed => 0
    case _ => 2
  }

  /** No rank rises between the tables. */
  ghost predicate NoneHigher(a: seq<Row>, b: seq<Row>) {
    |a| == |b| && forall j :: 0 <= j < |a| ==> Rank(b[j].status) <= Rank(a[j].status)
  }

  ghost predicate Lower(a: seq<Row>, b: seq<Row>, j: nat) {
    j < |a| == |b| && Rank(b[j].status) < Rank(a[j].status)
  }

  lemma BoltFrameIsTransitive(s: State, t: State, u: State, b: nat)
    requires BoltFrame(s, t, b) && BoltFrame(t, u, b)
    ensures BoltFrame(s, u, b)
  {
  }

  lemma TouchIsBoltFrame(s: State, t: State, id: StageId, b: nat)
    requires Valid(s) && Touch(s, t, id, b)
    ensures BoltFrame(s, t, b)
  {
  }

  lemma GateIsBoltFrame(s: State, t: State, b: nat)
    requires GateFrame(s, t)
    ensures BoltFrame(s, t, b)
  {
  }

  lemma WriteBoltIsFrame(s: State, b: nat, status: BoltStatus, t: State)
    requires Valid(s)
    requires t == WriteBolt(s, b, status).(audit := t.audit) && Quiet(s.audit, t.audit)
    ensures BoltFrame(s, t, b) && t.rows == s.rows
    ensures status != Done ==> forall i :: 0 <= i < |s.bolts| && t.bolts[i].status == Done ==> s.bolts[i].status == Done
    ensures var i := BoltAt(s.bolts, b); i < |s.bolts| ==> t.bolts[i].status == status
  {
  }

  /** Row i of stage (3, m) of bolt b ran; no row changed but this one and skipped ones. */
  ghost predicate BoltStep(s: State, t: State, b: nat, m: nat, i: nat) {
    && i < |s.rows| == |t.rows| && Matches(s.rows[i], StageId(3, m), b)
    && forall j :: 0 <= j < |s.rows| && j != i ==>
         || t.rows[j] == s.rows[j]
         || (Waits(s.rows[j]) && t.rows[j].status == Skipped && Skips(s, s.rows[j].stage))
  }

  lemma RunInBolt(s: State, b: nat, m: nat, run: AgentRun)
    requires Valid(s) && 1 <= m <= 5 && s.currentBolt == b
    ensures var id := StageId(3, m); var r := RunStage(s, id, run); var i := Find(s.rows, id, b);
            && BoltFrame(s, r.state, b) && r.state.bolts == s.bolts
            && (r.state.rows == s.rows || (i < |s.rows| && BoltStep(s, r.state, b, m, i)))
            && (r.StageRan? ==> i < |r.state.rows| && BoltStep(s, r.state, b, m, i) && GateMatches(r.result, r.state, i)
                                && r.result.stage == id)
  {
    hide RunStage, Find, BoltFrame, Frame, GateMatches;
    var id := StageId(3, m);
    var r := RunStage(s, id, run);
    RunStageEffect(s, id, run);
    TouchIsBoltFrame(s, r.state, id, b);
  }

  /** Approving in a bolt completes the row, or is refused because the agent asked for another round. */
  lemma ApproveInBolt(s: State, s1: State, b: nat, m: nat, i: nat, result: StageResult)
    requires Valid(s1) && 1 <= m <= 5 && BoltStep(s, s1, b, m, i) && Frame(s, s1)
    requires i == Find(s1.rows, StageId(3, m), b) && i < |s1.rows|
    requires GateMatches(result, s1, i) && result.gateOpen && result.stage == StageId(3, m)
    ensures var r := Approve(s1, StageId(3, m), b, true);
            && BoltFrame(s1, r.state, b) && r.state.bolts == s1.bolts
            && (r.Approved? ==> BoltStep(s, r.state, b, m, i) && r.state.rows[i].status == Completed)
            && (r.Refused? ==> r.state == s1 && s1.rows[i].status == AwaitingApproval)
  {
    hide Approve, BoltFrame;
    var r := Approve(s1, StageId(3, m), b, true);
    ApproveEffect(s1, StageId(3, m), b, true);
    GateIsBoltFrame(s1, r.state, b);
  }

  /** What a run of bolt b from stage 3.m does, by how it ends. */
  ghost predicate BoltOutcome(s: State, r: BoltRun, b: nat, m: nat) {
    && BoltFrame(s, r.state, b) && BoltRowsFrom(s, r.state, b, m)
    && (r.end.BoltFinished? ==>
          && FinishedFrom(s, r.state, b, m) && NoneHigher(s.rows, r.state.rows)
          && (BoltAt(s.bolts, b) < |s.bolts| ==> r.state.bolts[BoltAt(s.bolts, b)].status == Done))
    && (!r.end.BoltFinished? ==>
          forall i :: 0 <= i < |s.bolts| && r.state.bolts[i].status == Done ==> s.bolts[i].status == Done)
    && (r.end.BoltStalled? ==> NoneHigher(s.rows, r.state.rows))
    && (r.end.BoltStalled? && NoneAwaiting(s.rows) ==> exists j :: Lower(s.rows, r.state.rows, j))
  }

  ghost predicate NoneAwaiting(rows: seq<Row>) {
    forall j :: 0 <= j < |rows| ==> rows[j].status != AwaitingApproval
  }

  lemma {:induction false} BoltStagesEffect(s: State, b: nat, m: nat, agent: StageId -> AgentRun, results: seq<StageResult>)
    requires Valid(s) && 1 <= m <= 6 && s.currentBolt == b && b > 0
    ensures BoltOutcome(s, BoltStages(s, b, m, agent, results), b, m)
    decreases 6 - m
  {
    hide Find, BoltFrame, Frame, RunStage, Approve, BoltOutcome, BoltStep, SkipsInBolt, Valid;
    var r := BoltStages(s, b, m, agent, results);
    if m == 6 {
      BoltEnds(s, b, results);
    } else if SkipsInBolt(s, StageId(3, m), b) {
      BoltStagesEffect(s, b, m + 1, agent, results);
      BoltSkips(s, r, b, m);
    } else {
      var id := StageId(3, m);
      var i := Find(s.rows, id, b);
      var run := RunStage(s, id, agent(id));
      RunInBolt(s, b, m, agent(id));
      NotSkipped(s, b, m);
      if run.StageRan? && run.result.gateOpen && AutoMode(s.mode) {
        var s1, results1 := run.state, results + [run.result];
        FrameFacts(s, s1, b, id);
        ApproveInBolt(s, s1, b, m, i, run.result);
        var app := Approve(s1, id, b, true);
        BoltFrameIsTransitive(s, s1, app.state, b);
        if app.Approved? {
          FrameFacts(s, app.state, b, id);
          BoltStagesEffect(app.state, b, m + 1, agent, results1);
          BoltGoesOn(s, app.state, r, b, m, i);
        } else {
          BoltStalls(s, s1, r, b, m, i);
        }
      } else {
        BoltStops(s, run.state, r, b, m, i);
      }
    }
  }

  lemma FrameFacts(s: State, t: State, b: nat, id: StageId)
    requires BoltFrame(s, t, b)
    ensures Valid(t) && Frame(s, t) && t.currentBolt == s.currentBolt && t.mode == s.mode && |t.rows| == |s.rows|
    ensures Find(t.rows, id, b) == Find(s.rows, id, b)
  {
  }

  lemma BoltEnds(s: State, b: nat, results: seq<StageResult>)
    requires Valid(s)
    ensures BoltOutcome(s, BoltRun(Log(WriteBolt(s, b, Done), BoltCompleted(b)), BoltFinished, results), b, 6)
  {
    WriteBoltIsFrame(s, b, Done, Log(WriteBolt(s, b, Done), BoltCompleted(b)));
  }

  lemma BoltSkips(s: State, r: BoltRun, b: nat, m: nat)
    requires Valid(s) && 1 <= m <= 5 && SkipsInBolt(s, StageId(3, m), b) && BoltOutcome(s, r, b, m + 1)
    ensures BoltOutcome(s, r, b, m)
  {
    hide Valid, Frame, NoneHigher, Quiet, InScopeStage, BoltFrame;
    var t, id := r.state, StageId(3, m);
    OutcomeFrameFacts(s, r, b, m + 1);
    SameKeysFind(s.rows, t.rows, id, b);
    SkipMeans(s, id, b);
    var i := Find(s.rows, id, b);
    hide Find, SkipsInBolt;
    if i < |s.rows| && s.rows[i].status == Completed {
      assert t.rows[i] == s.rows[i];
    }
  }

  lemma OutcomeFrameFacts(s: State, r: BoltRun, b: nat, m: nat)
    requires BoltOutcome(s, r, b, m)
    ensures SameKeys(s.rows, r.state.rows)
  {
  }

  lemma SkipMeans(s: State, id: StageId, b: nat)
    requires SkipsInBolt(s, id, b)
    ensures var i := Find(s.rows, id, b); InScopeStage(s, id) ==> i < |s.rows| && s.rows[i].status == Completed
  {
    hide Find;
  }

  lemma SameKeysFind(a: seq<Row>, b: seq<Row>, id: StageId, bolt: nat)
    requires SameKeys(a, b)
    ensures Find(b, id, bolt) == Find(a, id, bolt)
  {
  }

  lemma BoltGoesOn(s: State, s2: State, r: BoltRun, b: nat, m: nat, i: nat)
    requires 1 <= m <= 5 && b > 0 && BoltFrame(s, s2, b) && BoltStep(s, s2, b, m, i) && s2.bolts == s.bolts
    requires s.rows[i].status != Completed && InScopeStage(s, StageId(3, m)) && s2.rows[i].status == Completed
    requires i == Find(s2.rows, StageId(3, m), b)
    requires BoltOutcome(s2, r, b, m + 1)
    ensures BoltOutcome(s, r, b, m)
  {
    hide Find, BoltFrame, Valid;
    BoltFrameIsTransitive(s, s2, r.state, b);
    StepThenRows(s, s2, r.state, b, m, i);
    BoltFrameBolts(s, s2, b);
    FrameFacts(s2, r.state, b, StageId(3, m));
    assert r.state.rows[i] == s2.rows[i];
    if j :| Lower(s2.rows, r.state.rows, j) {
      assert Lower(s.rows, r.state.rows, j);
    }
  }

  lemma BoltFrameBolts(s: State, t: State, b: nat)
    requires BoltFrame(s, t, b)
    ensures |t.bolts| == |s.bolts| && BoltAt(t.bolts, b) == BoltAt(s.bolts, b)
    ensures t.defs == s.defs && t.scope == s.scope
  {
    var p, q := BoltAt(s.bolts, b), BoltAt(t.bolts, b);
    assert forall i :: 0 <= i < |s.bolts| ==> t.bolts[i].number == s.bolts[i].number;
  }

  lemma StepThenRows(s: State, s2: State, t: State, b: nat, m: nat, i: nat)
    requires 1 <= m <= 5 && b > 0 && BoltFrame(s, s2, b) && BoltStep(s, s2, b, m, i)
    requires s.rows[i].status != Completed && InScopeStage(s, StageId(3, m))
    requires BoltRowsFrom(s2, t, b, m + 1)
    ensures BoltRowsFrom(s, t, b, m)
  {
    forall j | 0 <= j < |s.rows|
      ensures || t.rows[j] == s.rows[j]
              || BoltMayRun(s, s.rows[j], b, m)
              || (Waits(s.rows[j]) && t.rows[j].status == Skipped && Skips(s, s.rows[j].stage))
    {
      if j == i {
        assert BoltMayRun(s, s.rows[i], b, m);
      } else if s2.rows[j] == s.rows[j] {
        if BoltMayRun(s2, s2.rows[j], b, m + 1) {
          assert BoltMayRun(s, s.rows[j], b, m);
        }
      } else {
        assert t.rows[j] == s2.rows[j];
      }
    }
  }

  lemma BoltStalls(s: State, s1: State, r: BoltRun, b: nat, m: nat, i: nat)
    requires 1 <= m <= 5 && BoltFrame(s, s1, b) && BoltStep(s, s1, b, m, i) && s1.bolts == s.bolts
    requires s.rows[i].status != Completed && InScopeStage(s, StageId(3, m)) && s1.rows[i].status == AwaitingApproval
    requires r.state == WriteBolt(s1, b, Pending) && r.end.BoltStalled?
    ensures BoltOutcome(s, r, b, m)
  {
    hide BoltFrame, Valid, Find;
    FrameFacts(s, s1, b, StageId(3, m));
    WriteBoltIsFrame(s1, b, Pending, r.state);
    BoltFrameIsTransitive(s, s1, r.state, b);
    if NoneAwaiting(s.rows) {
      assert Lower(s.rows, s1.rows, i);
    }
  }

  lemma NotSkipped(s: State, b: nat, m: nat)
    requires 1 <= m <= 5 && !SkipsInBolt(s, StageId(3, m), b)
    ensures InScopeStage(s, StageId(3, m))
    ensures var i := Find(s.rows, StageId(3, m), b); i < |s.rows| ==> s.rows[i].status != Completed
  {
  }

  lemma BoltStops(s: State, s1: State, r: BoltRun, b: nat, m: nat, i: nat)
    requires 1 <= m <= 5 && BoltFrame(s, s1, b) && s1.bolts == s.bolts && InScopeStage(s, StageId(3, m))
    requires s1.rows == s.rows || (BoltStep(s, s1, b, m, i) && s.rows[i].status != Completed)
    requires r.end.BoltHalted? || r.end.BoltPaused?
    requires || r.state == WriteBolt(Log(s1, BoltFailed(b)), b, Broken)
             || r.state == WriteBolt(s1, b, Pending)
             || r.state == Log(s1, HaltAndAsk(StageId(3, m)))
    ensures BoltOutcome(s, r, b, m)
  {
    hide Valid, Find, Frame, BoltFrame, InScopeStage;
    FrameFacts(s, s1, b, StageId(3, m));
    hide BoltStep;
    if r.state != Log(s1, HaltAndAsk(StageId(3, m))) {
      WriteBoltIsFrame(s1, b, if r.state == WriteBolt(s1, b, Pending) then Pending else Broken, r.state);
    }
    BoltFrameIsTransitive(s, s1, r.state, b);
  }

  // ----- creating the rows of a bolt

  /** Rows were added for bolt b: not started, per bolt, of one of the given stages. */
  ghost predicate Grown(a: seq<Row>, c: seq<Row>, b: nat, stages: seq<StageDef>) {
    && (forall r :: r in a ==> r in c)
    && (forall r :: r in c ==> r in a || NewRow(r, b, stages))
  }

  ghost predicate NewRow(r: Row, b: nat, stages: seq<StageDef>) {
    r.bolt == b && IsPerBolt(r.stage) && r.status == NotStarted && exists d :: d in stages && d.id == r.stage
  }

  /** Every per-bolt stage of the list has its row for bolt b. */
  ghost predicate HasRows(rows: seq<Row>, b: nat, stages: seq<StageDef>) {
    forall d :: d in stages && IsPerBolt(d.id) ==> Find(rows, d.id, b) < |rows|
  }

  lemma FindIn(rows: seq<Row>, id: StageId, b: nat)
    ensures Find(rows, id, b) < |rows| <==> exists r :: r in rows && Matches(r, id, b)
  {
    if r :| r in rows && Matches(r, id, b) {
      var i :| 0 <= i < |rows| && rows[i] == r;
    }
  }

  lemma InsertGrows(defs: seq<StageDef>, rows: seq<Row>, d: StageDef, b: nat)
    requires IsPerBolt(d.id)
    ensures var c := InsertRow(defs, rows, d.id, b);
            Grown(rows, c, b, [d]) && Find(c, d.id, b) < |c|
  {
    hide Find, Slot;
    var c := InsertRow(defs, rows, d.id, b);
    if Find(rows, d.id, b) == |rows| {
      var r := Row(d.id, b, NotStarted, 0);
      var p := Slot(defs, rows, r);
      assert c[p] == r && r in c;
      FindIn(c, d.id, b);
      assert d in [d] && NewRow(r, b, [d]);
      forall x | x in rows
        ensures x in c
      {
        var i :| 0 <= i < |rows| && rows[i] == x;
        assert c[if i < p then i else i + 1] == x;
      }
    }
  }

  lemma {:induction false} InitBoltGrows(defs: seq<StageDef>, rows: seq<Row>, b: nat, stages: seq<StageDef>)
    requires ValidTable(defs, rows) && b > 0 && forall d :: d in stages ==> d in defs
    ensures var c := InitBolt(defs, rows, b, stages);
            ValidTable(defs, c) && Grown(rows, c, b, stages) && HasRows(c, b, stages)
    decreases |stages|
  {
    hide InsertRow, ValidTable, Find;
    if stages != [] {
      var d, rest := stages[0], stages[1..];
      assert stages == [d] + rest;
      if IsPerBolt(d.id) {
        var c := InsertRow(defs, rows, d.id, b);
        InsertGrows(defs, rows, d, b);
        DefinedPos(defs, d);
        InsertKeepsTable(defs, rows, d.id, b);
        InitBoltGrows(defs, c, b, rest);
        var e := InitBolt(defs, c, b, rest);
        GrownKeepsFind(c, e, b, d.id, rest);
      } else {
        InitBoltGrows(defs, rows, b, rest);
      }
    }
  }

  lemma DefinedPos(defs: seq<StageDef>, d: StageDef)
    requires d in defs
    ensures Pos(defs, d.id) < |defs|
  {
    var i :| 0 <= i < |defs| && defs[i] == d;
  }

  lemma GrownKeepsFind(a: seq<Row>, c: seq<Row>, b: nat, id: StageId, stages: seq<StageDef>)
    requires Grown(a, c, b, stages) && Find(a, id, b) < |a|
    ensures Find(c, id, b) < |c|
  {
    assert a[Find(a, id, b)] in c;
    FindIn(c, id, b);
  }

  /** Rows that all exist already are not created again. */
  lemma {:induction false} InitBoltIsIdempotent(defs: seq<StageDef>, rows: seq<Row>, b: nat, stages: seq<StageDef>)
    requires HasRows(rows, b, stages)
    ensures InitBolt(defs, rows, b, stages) == rows
    decreases |stages|
  {
    if stages != [] {
      assert stages[0] in stages;
      assert HasRows(rows, b, stages[1..]);
      InitBoltIsIdempotent(defs, rows, b, stages[1..]);
    }
  }
}
