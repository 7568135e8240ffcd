/** What every run of RunAllBolts keeps to, whatever the bolts and the people at the gates do. */
module BoltTheorems {
  import opened Basics
  import opened BoltPlan
  import opened BoltSchedule
  import opened BoltScheduler
  import StageTable

  // ----- launches

  ghost predicate Launches(history: seq<BatchRun>, j: nat, p: nat, n: nat) {
    j < |history| && p < |history[j].events| && history[j].events[p] == Launch(n)
  }

  ghost predicate Returned(history: seq<BatchRun>, j: nat, n: nat, ok: bool) {
    j < |history| && Return(n, ok) in history[j].events
  }

  lemma RunFollows(bolts: seq<Bolt>, w: Inputs, history: seq<BatchRun>, end: End, j: nat)
    requires Explains(bolts, w, history, end) && j < |history|
    ensures bolts != [] && SkeletonDone(bolts, w) && j < |Rest(bolts)|
    ensures history[j].bolts == Rest(bolts)[j] && BatchTrace(history[j].bolts, w.outcome, history[j].events)
    ensures j < |history| - 1 ==> Passes(w, history[j].bolts, j)
  {
    hide BatchTrace, Passes, Rest, AllPassed, EndsAt;
  }

  lemma ScheduleIsApart(bolts: seq<Bolt>)
    requires bolts != [] && Distinct(bolts)
    ensures Apart(bolts[1..], {bolts[0].number}) && Distinct(bolts[1..])
  {
  }

  lemma MemberOf(bolts: seq<Bolt>, n: nat) returns (b: Bolt)
    requires n in Numbers(bolts)
    ensures b in bolts && b.number == n
  {
    b :| b in bolts && b.number == n;
  }

  /** Where a launch stands in the schedule. */
  lemma LaunchOf(bolts: seq<Bolt>, w: Inputs, history: seq<BatchRun>, end: End, j: nat, p: nat, n: nat) returns (b: Bolt)
    requires Distinct(bolts) && Explains(bolts, w, history, end) && Launches(history, j, p, n)
    ensures bolts != [] && b.number == n && j < |Rest(bolts)| && b in history[j].bolts && b in Rest(bolts)[j]
  {
    hide Explains, Rest, Distinct, SkeletonDone, Passes;
    RunFollows(bolts, w, history, end, j);
    assert history[j].events[p].bolt in Numbers(history[j].bolts);
    b := MemberOf(history[j].bolts, n);
  }

  lemma DifferentBatches(bolts: seq<Bolt>, i: nat, j: nat, a: Bolt, b: Bolt)
    requires bolts != [] && Distinct(bolts) && i < j < |Rest(bolts)| && a in Rest(bolts)[i] && b in Rest(bolts)[j]
    ensures a.number != b.number
  {
    hide Batches, Distinct, Numbers;
    var remaining, done := bolts[1..], {bolts[0].number};
    ScheduleIsApart(bolts);
    BatchFacts(remaining, done, j, b);
    DoneContains(Rest(bolts), done, i, j);
  }

  /** No bolt is launched twice, in one batch or in two. */
  lemma LaunchedOnce(bolts: seq<Bolt>, w: Inputs, history: seq<BatchRun>, end: End, i: nat, p: nat, j: nat, q: nat, n: nat)
    requires Distinct(bolts) && Explains(bolts, w, history, end)
    requires Launches(history, i, p, n) && Launches(history, j, q, n)
    ensures i == j && p == q
  {
    hide Explains, Rest, Distinct, SkeletonDone, Passes;
    var a := LaunchOf(bolts, w, history, end, i, p, n);
    var b := LaunchOf(bolts, w, history, end, j, q, n);
    if i < j {
      DifferentBatches(bolts, i, j, a, b);
    } else if j < i {
      DifferentBatches(bolts, j, i, b, a);
    }
    RunFollows(bolts, w, history, end, i);
  }

  /** When a bolt is launched, each bolt it depends on is the skeleton, which has run, or returned
      unfailed in a strictly earlier batch. */
  lemma DependenciesReturned(bolts: seq<Bolt>, w: Inputs, history: seq<BatchRun>, end: End, j: nat, b: Bolt, d: nat)
    requires Distinct(bolts) && Explains(bolts, w, history, end)
    requires j < |history| && b in history[j].bolts && d in b.dependsOn
    ensures bolts != [] && SkeletonDone(bolts, w)
    ensures d == bolts[0].number || exists i :: 0 <= i < j && Returned(history, i, d, true)
  {
    hide Explains, Batches, Distinct, SkeletonDone, Passes, AllSucceed, DoneBefore, BatchTrace;
    RunFollows(bolts, w, history, end, j);
    var remaining, done := bolts[1..], {bolts[0].number};
    ScheduleIsApart(bolts);
    BatchFacts(remaining, done, j, b);
    if d != bolts[0].number {
      var i := DoneIn(Rest(bolts), done, j, d);
      RunFollows(bolts, w, history, end, i);
      PassedReturned(w, history[i], i, d);
      assert Returned(history, i, d, true);
    }
  }

  lemma PassedReturned(w: Inputs, run: BatchRun, i: nat, d: nat)
    requires Passes(w, run.bolts, i) && BatchTrace(run.bolts, w.outcome, run.events) && d in Numbers(run.bolts)
    ensures Return(d, true) in run.events
  {
    FailureSeen(run.bolts, w.outcome);
  }

  /** After a failed bolt nothing is launched but the rest of its own batch, and the run ends. */
  lemma FailureHalts(bolts: seq<Bolt>, w: Inputs, history: seq<BatchRun>, end: End, j: nat, n: nat)
    requires Distinct(bolts) && Explains(bolts, w, history, end) && Returned(history, j, n, false)
    ensures j == |history| - 1 && (end == RunError || end == BatchFailed)
  {
    hide Rest, NeverReady, SkeletonDone;
    RunFollows(bolts, w, history, end, j);
    FailureSeen(history[j].bolts, w.outcome);
    var p :| 0 <= p < |history[j].events| && history[j].events[p] == Return(n, false);
    assert history[j].events[p].ok == Succeeds(w.outcome, n);
    assert !Passes(w, history[j].bolts, j);
  }

  /** In gated mode the next batch starts only when some poll saw the 3.5 row of every bolt of this
      batch completed or skipped. */
  lemma GateComesFirst(bolts: seq<Bolt>, w: Inputs, history: seq<BatchRun>, end: End, j: nat)
    requires Explains(bolts, w, history, end) && w.autonomy == Some(Gated) && j < |history| - 1
    ensures GateOpens(history[j].bolts, w.polls(j))
  {
    RunFollows(bolts, w, history, end, j);
  }

  /** A bolt runs in the batch whose index is the length of the longest chain of dependencies that leads to it
      from the bolts after the skeleton. */
  lemma RunsAtItsDepth(bolts: seq<Bolt>, w: Inputs, history: seq<BatchRun>, end: End, j: nat, b: Bolt)
    requires Distinct(bolts) && Explains(bolts, w, history, end) && j < |history| && b in history[j].bolts
    ensures bolts != []
    ensures exists c :: Chain(bolts[1..], c) && c[|c| - 1] == b && |c| == j + 1
    ensures forall c :: Chain(bolts[1..], c) && c[|c| - 1] == b ==> |c| <= j + 1
  {
    hide Explains, SkeletonDone, Passes, Batches, Chain, Distinct;
    RunFollows(bolts, w, history, end, j);
    ScheduleIsApart(bolts);
    BatchIsDepth(bolts[1..], {bolts[0].number}, j, b);
  }

  // ----- the whole set of bolts

  /** What is completed when the last batch returns. */
  lemma {:induction false} ReachedIsDone(remaining: seq<Bolt>, done: set<nat>)
    ensures DoneBefore(Batches(remaining, done), done, |Batches(remaining, done)|) == Reached(remaining, done)
    decreases |remaining|
  {
    var batch := Ready(remaining, done);
    if batch != [] {
      ReadyShrinks(remaining, done);
      hide Ready, Without, Numbers;
      var batches := Batches(remaining, done);
      ReachedIsDone(Without(remaining, Numbers(batch)), done + Numbers(batch));
      DoneLater(batches, done, |batches| - 1);
      assert batches[1..] == Batches(Without(remaining, Numbers(batch)), done + Numbers(batch));
    }
  }

  /** The bolts launched in the first k batches. */
  ghost function Launched(history: seq<BatchRun>): set<nat> {
    set j: nat, n | 0 <= j < |history| && n in Numbers(history[j].bolts) :: n
  }

  lemma {:induction false} LaunchedIsDone(batches: seq<seq<Bolt>>, done: set<nat>, history: seq<BatchRun>)
    requires |history| <= |batches| && forall j :: 0 <= j < |history| ==> history[j].bolts == batches[j]
    ensures DoneBefore(batches, done, |history|) == done + Launched(history)
  {
    hide Numbers;
    if history != [] {
      var n := |history| - 1;
      LaunchedIsDone(batches, done, history[..n]);
      assert Launched(history) == Launched(history[..n]) + Numbers(history[n].bolts) by {
        assert forall j :: 0 <= j < n ==> history[..n][j] == history[j];
      }
    }
  }

  /** When every batch passes, the bolts run are exactly the least set that contains the skeleton and
      every bolt all of whose dependencies it contains. */
  lemma RunsLeastClosedSet(bolts: seq<Bolt>, w: Inputs, history: seq<BatchRun>, end: End)
    requires Distinct(bolts) && Explains(bolts, w, history, end)
    requires bolts != [] && SkeletonDone(bolts, w) && w.autonomy.Some? && AllPassed(w, history)
    ensures var ran := {bolts[0].number} + Launched(history);
            && Closed(bolts[1..], {bolts[0].number}, ran)
            && forall c :: Closed(bolts[1..], {bolts[0].number}, c) ==> ran <= c
  {
    hide AllPassed, Batches, Closed, Distinct, DoneBefore, Launched, BatchTrace;
    var remaining, done := bolts[1..], {bolts[0].number};
    ScheduleIsApart(bolts);
    LaunchedIsDone(Rest(bolts), done, history);
    ReachedIsDone(remaining, done);
    ReachedIsLeastClosed(remaining, done);
  }

  /** The run reaches stages 3.6 and 3.7 exactly when no dependency dangles, none goes round in a
      circle, and every batch passes. */
  lemma DrainsExactlyWhen(bolts: seq<Bolt>, w: Inputs, history: seq<BatchRun>, end: End)
    requires Distinct(bolts) && Explains(bolts, w, history, end)
    requires bolts != [] && SkeletonDone(bolts, w) && w.autonomy.Some?
    ensures end == Drained <==>
              && !Dangling(bolts[1..], {bolts[0].number})
              && (!exists c :: Cycle(bolts[1..], c))
              && forall j :: 0 <= j < |Rest(bolts)| ==> Passes(w, Rest(bolts)[j], j)
  {
    ScheduleIsApart(bolts);
    DrainsIffAcyclic(bolts[1..], {bolts[0].number});
    hide Dangling, Cycle, Distinct, BatchTrace, Passes, Rest, Batches, Leftover;
    if AllPassed(w, history) {
      assert forall j :: 0 <= j < |Rest(bolts)| ==> history[j].bolts == Rest(bolts)[j];
    } else {
      var j := |history| - 1;
      assert !Passes(w, Rest(bolts)[j], j);
    }
  }

  /** Bolts made by PrepareBolts never wait on a bolt that is not there: only a circle keeps them from running. */
  lemma PlannedNeverDangle(unitOfWork: string, dag: string)
    ensures var p := Plan(unitOfWork, dag);
            p != [] && Distinct(p) && !Dangling(p[1..], {p[0].number})
  {
    hide Plan;
    PlanIsClosed(unitOfWork, dag);
  }

  // ----- the walking skeleton

  /** A skeleton that has run and waits at its gate ends the run; nothing else is launched before it has
      been approved, or has run to the end with no gate open. */
  lemma SkeletonComesFirst(bolts: seq<Bolt>, w: Inputs, history: seq<BatchRun>, end: End)
    requires Explains(bolts, w, history, end) && bolts != []
    ensures bolts[0].status != Done && w.outcome(bolts[0].number) == Ran(true) ==> history == [] && end == SkeletonAtGate
    ensures bolts[0].status != Done && w.outcome(bolts[0].number) == Failed ==> history == [] && end == SkeletonFailed
    ensures bolts[0].status != Done && w.outcome(bolts[0].number) == Errored ==> history == [] && end == RunError
    ensures history != [] ==> bolts[0].status == Done || w.outcome(bolts[0].number) == Ran(false)
    ensures end == SkeletonAtGate ==> bolts[0].status != Done && w.outcome(bolts[0].number) == Ran(true)
  {
    hide Follows, AllPassed, Rest, NeverReady;
  }

  /** The inputs agree on everything but how the given bolt's run ends. */
  ghost predicate AgreeBut(w: Inputs, v: Inputs, n: nat) {
    w.autonomy == v.autonomy && w.polls == v.polls && forall k: nat :: k != n ==> w.outcome(k) == v.outcome(k)
  }

  lemma SameTrace(batch: seq<Bolt>, w: Inputs, v: Inputs, n: nat, events: seq<Event>)
    requires AgreeBut(w, v, n) && n !in Numbers(batch)
    ensures BatchTrace(batch, w.outcome, events) ==> BatchTrace(batch, v.outcome, events)
    ensures AllSucceed(w.outcome, batch) <==> AllSucceed(v.outcome, batch)
    ensures batch != [] ==> w.outcome(batch[0].number) == v.outcome(batch[0].number)
  {
    assert forall i :: 0 <= i < |batch| ==> batch[i] in batch && batch[i].number in Numbers(batch);
    assert forall k: nat :: k != n ==> Succeeds(w.outcome, k) == Succeeds(v.outcome, k);
  }

  /** No batch holds the skeleton. */
  lemma NoSkeletonInRest(bolts: seq<Bolt>, j: nat)
    requires bolts != [] && Distinct(bolts) && j < |Rest(bolts)|
    ensures bolts[0].number !in Numbers(Rest(bolts)[j])
  {
    hide Batches, Distinct, DoneBefore;
    ScheduleIsApart(bolts);
    forall b | b in Rest(bolts)[j]
      ensures b.number != bolts[0].number
    {
      BatchFacts(bolts[1..], {bolts[0].number}, j, b);
    }
  }

  lemma DoneSkeletonExplains(bolts: seq<Bolt>, w: Inputs, v: Inputs, history: seq<BatchRun>, end: End)
    requires Distinct(bolts) && bolts != [] && bolts[0].status == Done && AgreeBut(w, v, bolts[0].number)
    requires Explains(bolts, w, history, end)
    ensures Explains(bolts, v, history, end)
  {
    hide Distinct, BatchTrace, AllSucceed, GateOpens, Rest, NeverReady, Numbers;
    if w.autonomy.Some? {
      forall j | 0 <= j < |history|
        ensures history[j].bolts == Rest(bolts)[j] && BatchTrace(history[j].bolts, v.outcome, history[j].events)
        ensures Passes(w, history[j].bolts, j) <==> Passes(v, history[j].bolts, j)
        ensures history[j].bolts != [] ==> w.outcome(history[j].bolts[0].number) == v.outcome(history[j].bolts[0].number)
        ensures AllSucceed(w.outcome, history[j].bolts) <==> AllSucceed(v.outcome, history[j].bolts)
      {
        NoSkeletonInRest(bolts, j);
        SameTrace(history[j].bolts, w, v, bolts[0].number, history[j].events);
      }
    }
  }

  /** Once the skeleton is done, how a run of it would end plays no part. */
  lemma DoneSkeletonIsNotAsked(bolts: seq<Bolt>, w: Inputs, v: Inputs, history: seq<BatchRun>, end: End)
    requires Distinct(bolts) && bolts != [] && bolts[0].status == Done && AgreeBut(w, v, bolts[0].number)
    ensures Explains(bolts, w, history, end) <==> Explains(bolts, v, history, end)
  {
    hide Distinct, Explains;
    if Explains(bolts, w, history, end) {
      DoneSkeletonExplains(bolts, w, v, history, end);
    }
    if Explains(bolts, v, history, end) {
      DoneSkeletonExplains(bolts, v, w, history, end);
    }
  }

  // ----- ends and gates

  /** A poll at which the row for 3.5 of each bolt is completed or skipped. */
  ghost predicate AllSettled(batch: seq<Bolt>, poll: Poll) {
    forall b :: b in batch ==> poll(b.number) == Some(StageTable.Status.Completed) || poll(b.number) == Some(StageTable.Status.Skipped)
  }

  /** The gate of a batch opens exactly when some poll sees every row for 3.5 completed or skipped; a missing
      row, and one in any other status, keeps it shut. */
  lemma GateOpensExactly(batch: seq<Bolt>, polls: seq<Poll>)
    requires batch != []
    ensures GateOpens(batch, polls) <==> exists k :: 0 <= k < |polls| && AllSettled(batch, polls[k])
  {
    forall k | 0 <= k < |polls|
      ensures Resolved(batch, polls[k]) <==> AllSettled(batch, polls[k])
    {
      if AllSettled(batch, polls[k]) {
        assert forall i :: 0 <= i < |batch| ==> batch[i] in batch;
      }
      if Resolved(batch, polls[k]) {
        assert forall i :: 0 <= i < |batch| ==> ResolvedAt(batch[i], polls[k]);
      }
    }
  }

  /** In gated mode a further batch starts only after such a poll. */
  lemma GateIsResolved(bolts: seq<Bolt>, w: Inputs, history: seq<BatchRun>, end: End, j: nat)
    requires Explains(bolts, w, history, end) && w.autonomy == Some(Gated) && j < |history| - 1 && history[j].bolts != []
    ensures exists k :: 0 <= k < |w.polls(j)| && AllSettled(history[j].bolts, w.polls(j)[k])
  {
    hide Explains, GateOpens, AllSettled;
    GateComesFirst(bolts, w, history, end, j);
    GateOpensExactly(history[j].bolts, w.polls(j));
  }

  /** Without a ladder choice nothing but the skeleton is run. */
  lemma ChoiceComesFirst(bolts: seq<Bolt>, w: Inputs, history: seq<BatchRun>, end: End)
    requires Explains(bolts, w, history, end) && w.autonomy.None?
    ensures history == []
    ensures end == NoAutonomy <==> bolts != [] && (bolts[0].status == Done || w.outcome(bolts[0].number) == Ran(false))
  {
    hide Follows, AllPassed, EndsAt, Rest, NeverReady;
  }

  /** How a run that started some batch ends: with an error or a failure exactly when a bolt of its last batch
      fails, and it is an error only when that batch is one bolt whose run could not be carried out; with a
      cancelled wait when the last batch succeeds and, in gated mode, its gate stays shut. */
  lemma LastBatchDecides(bolts: seq<Bolt>, w: Inputs, history: seq<BatchRun>, end: End)
    requires Explains(bolts, w, history, end) && history != []
    ensures var last := history[|history| - 1].bolts;
            var fails := exists i :: 0 <= i < |last| && !w.outcome(last[i].number).Ran?;
            && (end == RunError || end == BatchFailed <==> fails)
            && (end == RunError <==> |last| == 1 && w.outcome(last[0].number) == Errored)
            && (end == GateCancelled <==> !fails && w.autonomy == Some(Gated) && !GateOpens(last, w.polls(|history| - 1)))
  {
    hide BatchTrace, Rest, NeverReady, GateOpens;
    var last := history[|history| - 1].bolts;
    assert AllSucceed(w.outcome, last) <==> forall i :: 0 <= i < |last| ==> w.outcome(last[i].number).Ran? by {
      assert forall i :: 0 <= i < |last| ==> Succeeds(w.outcome, last[i].number) == w.outcome(last[i].number).Ran?;
    }
    hide AllSucceed;
    if AllPassed(w, history) {
      assert Passes(w, last, |history| - 1);
    }
  }
}
