/** RunAllBolts: the walking skeleton first, then the other bolts in dependency-ordered batches,
    each bolt dispatched as a whole, the bolts of a batch side by side.

    How a bolt's run ends and what each poll of a gate sees are inputs; the order in which the bolts
    of one batch are launched and return is left open. */
module BoltScheduler {
  import opened Basics
  import opened StageTable
  import opened BoltPlan
  import opened BoltSchedule

  datatype Result = Errored | Failed | Ran(lastGateOpen: bool)

  datatype Autonomy = Gated | Unattended

  datatype Event = Launch(bolt: nat) | Return(bolt: nat, ok: bool)

  /** The bolts of one batch, and what happened to them in order. */
  datatype BatchRun = BatchRun(bolts: seq<Bolt>, events: seq<Event>)

  /** What one poll sees of each bolt's row for stage 3.5. */
  type Poll = nat -> Option<Status>

  datatype End =
    | NoBolts
    | RunError
    | SkeletonFailed
    | SkeletonAtGate
    | NoAutonomy      // the wait for the ladder choice ended without one
    | NothingReady
    | BatchFailed
    | GateCancelled
    | Drained         // every bolt ran; 3.6 and 3.7 start

  // ----- removing a batch, in place

  lemma WithoutSnoc(bolts: seq<Bolt>, b: Bolt, removed: set<nat>)
    ensures Without(bolts + [b], removed) == Without(bolts, removed) + if b.number in removed then [] else [b]
  {
    assert (bolts + [b])[..|bolts|] == bolts;
  }

  /** The bolts a[lo..hi] that are not removed are moved to the front of that range, in order. */
  method FilterBolts(a: array<Bolt>, lo: nat, hi: nat, removed: set<nat>) returns (n: nat)
    requires lo <= hi <= a.Length
    modifies a
    ensures lo <= n <= hi
    ensures a[lo..n] == Without(old(a[lo..hi]), removed)
    ensures a[..lo] == old(a[..lo]) && a[hi..] == old(a[hi..])
  {
    ghost var all := a[..];
    KeptNone(all, lo, removed);
    n := lo;
    hide Without;
    for i := lo to hi
      invariant lo <= n <= i
      invariant a[lo..n] == Without(all[lo..i], removed)
      invariant a[..lo] == all[..lo] && a[i..] == all[i..]
    {
      KeptOne(all, lo, i, removed);
      assert a[i] == a[i..][0] == all[i..][0];
      assert a[i + 1..] == a[i..][1..] && all[i + 1..] == all[i..][1..];
      if a[i].number !in removed {
        a[n] := a[i];
        n := n + 1;
      }
    }
  }

  lemma KeptNone(all: seq<Bolt>, lo: nat, removed: set<nat>)
    requires lo <= |all|
    ensures Without(all[lo..lo], removed) == []
  {
  }

  lemma KeptOne(all: seq<Bolt>, lo: nat, i: nat, removed: set<nat>)
    requires lo <= i < |all|
    ensures Without(all[lo..i + 1], removed) == Without(all[lo..i], removed) + if all[i].number in removed then [] else [all[i]]
  {
    WithoutSnoc(all[lo..i], all[i], removed);
    assert all[lo..i + 1] == all[lo..i] + [all[i]];
  }

  // ----- the gate of a batch

  predicate ResolvedAt(b: Bolt, poll: Poll) {
    poll(b.number) == Some(Completed) || poll(b.number) == Some(Skipped)
  }

  predicate Resolved(batch: seq<Bolt>, poll: Poll) {
    forall i | 0 <= i < |batch| :: ResolvedAt(batch[i], poll)
  }

  /** Some poll sees the 3.5 row of every bolt completed or skipped. */
  ghost predicate GateOpens(batch: seq<Bolt>, polls: seq<Poll>) {
    batch == [] || exists k :: 0 <= k < |polls| && Resolved(batch, polls[k])
  }

  /** Polls until every bolt of the batch is resolved; after the last poll the wait is cancelled. */
  method PresentBatchGate(batch: seq<Bolt>, polls: seq<Poll>) returns (passed: bool)
    ensures passed <==> GateOpens(batch, polls)
  {
    if |batch| == 0 {
      return true;
    }
    for k := 0 to |polls|
      invariant forall j :: 0 <= j < k ==> !Resolved(batch, polls[j])
    {
      var allTerminal := true;
      for i := 0 to |batch|
        invariant allTerminal <==> forall j :: 0 <= j < i ==> ResolvedAt(batch[j], polls[k])
      {
        var row := polls[k](batch[i].number);
        if row.None? {
          allTerminal := false;
          assert !ResolvedAt(batch[i], polls[k]);
          break;
        }
        if row.value != Completed && row.value != Skipped && row.value != Revising {
          allTerminal := false;
        }
        if row.value == Revising {
          allTerminal := false;
        }
      }
      if allTerminal {
        assert Resolved(batch, polls[k]);
        return true;
      }
    }
    return false;
  }

  // ----- one batch

  predicate Succeeds(outcome: nat -> Result, n: nat) {
    outcome(n).Ran?
  }

  predicate AllSucceed(outcome: nat -> Result, batch: seq<Bolt>) {
    forall i | 0 <= i < |batch| :: Succeeds(outcome, batch[i].number)
  }

  /** Every bolt of the batch is launched exactly once, and returns exactly once, after its launch,
      with its own outcome; nothing else happens. */
  ghost predicate BatchTrace(batch: seq<Bolt>, outcome: nat -> Result, events: seq<Event>) {
    && (forall n :: n in Numbers(batch) ==> Launch(n) in events && Return(n, Succeeds(outcome, n)) in events)
    && (forall i :: 0 <= i < |events| ==> events[i].bolt in Numbers(batch))
    && (forall i :: 0 <= i < |events| && events[i].Return? ==>
          events[i].ok == Succeeds(outcome, events[i].bolt) && Launch(events[i].bolt) in events[..i])
    && forall i, j :: 0 <= i < j < |events| ==> events[i] != events[j]
  }

  /** The bolts of a batch are started in order; those that run return in any order, between starts too. */
  method RunSideBySide(batch: seq<Bolt>, outcome: nat -> Result) returns (events: seq<Event>, failed: bool)
    requires Distinct(batch)
    ensures BatchTrace(batch, outcome, events)
    ensures failed <==> !AllSucceed(outcome, batch)
  {
    hide PartTrace, Numbers, Distinct, BatchTrace, AllSucceed;
    events, failed := [], false;
    PartOfNothing(outcome);
    NoNumbers(batch);
    var started := 0;
    var running: set<nat> := {};
    ghost var returned: set<nat> := {};
    while started < |batch| || running != {}
      invariant started <= |batch|
      invariant running !! returned && running + returned == Numbers(batch[..started])
      invariant PartTrace(running, returned, outcome, events)
      invariant failed <==> exists n :: n in returned && !Succeeds(outcome, n)
      decreases |batch| - started, running
    {
      var launch: bool := *;
      if started < |batch| && (launch || running == {}) {
        var n := batch[started].number;
        NewNumber(batch, started);
        AddLaunch(running, returned, outcome, events, n);
        events := events + [Launch(n)];
        running := running + {n};
        started := started + 1;
      } else {
        var n :| n in running;
        AddReturn(running, returned, outcome, events, n);
        events := events + [Return(n, Succeeds(outcome, n))];
        if !Succeeds(outcome, n) {
          failed := true;
        }
        running, returned := running - {n}, returned + {n};
      }
    }
    assert batch[..|batch|] == batch;
    PartIsWhole(batch, returned, outcome, events);
    FailureSeen(batch, outcome);
  }

  lemma NewNumber(batch: seq<Bolt>, k: nat)
    requires Distinct(batch) && k < |batch|
    ensures batch[k].number !in Numbers(batch[..k])
    ensures Numbers(batch[..k + 1]) == Numbers(batch[..k]) + {batch[k].number}
  {
    assert batch[..k + 1] == batch[..k] + [batch[k]];
    assert forall b :: b in batch[..k + 1] <==> b in batch[..k] || b == batch[k];
  }

  lemma FailureSeen(batch: seq<Bolt>, outcome: nat -> Result)
    ensures AllSucceed(outcome, batch) <==> forall n :: n in Numbers(batch) ==> Succeeds(outcome, n)
  {
    forall i | 0 <= i < |batch|
      ensures batch[i].number in Numbers(batch)
    {
      assert batch[i] in batch;
    }
  }

  ghost predicate PartTrace(running: set<nat>, returned: set<nat>, outcome: nat -> Result, events: seq<Event>) {
    && (forall n :: n in running || n in returned ==> Launch(n) in events)
    && (forall n :: n in returned ==> Return(n, Succeeds(outcome, n)) in events)
    && (forall i :: 0 <= i < |events| ==> events[i].bolt in running || events[i].bolt in returned)
    && (forall i :: 0 <= i < |events| && events[i].Return? ==>
          && events[i].bolt in returned && events[i].ok == Succeeds(outcome, events[i].bolt)
          && Launch(events[i].bolt) in events[..i])
    && forall i, j :: 0 <= i < j < |events| ==> events[i] != events[j]
  }

  lemma PartOfNothing(outcome: nat -> Result)
    ensures PartTrace({}, {}, outcome, [])
  {
  }

  lemma NoNumbers(batch: seq<Bolt>)
    ensures Numbers(batch[..0]) == {}
  {
  }

  lemma AddLaunch(running: set<nat>, returned: set<nat>, outcome: nat -> Result, events: seq<Event>, n: nat)
    requires PartTrace(running, returned, outcome, events) && n !in running && n !in returned
    ensures PartTrace(running + {n}, returned, outcome, events + [Launch(n)])
  {
    var more := events + [Launch(n)];
    assert forall i :: 0 <= i < |events| ==> more[..i] == events[..i];
    assert more[|events|] == Launch(n);
  }

  lemma AddReturn(running: set<nat>, returned: set<nat>, outcome: nat -> Result, events: seq<Event>, n: nat)
    requires PartTrace(running, returned, outcome, events) && n in running && n !in returned
    ensures PartTrace(running - {n}, returned + {n}, outcome, events + [Return(n, Succeeds(outcome, n))])
  {
    var e := Return(n, Succeeds(outcome, n));
    var more := events + [e];
    assert forall i :: 0 <= i <= |events| ==> more[..i] == events[..i];
    assert more[|events|] == e;
    assert events[..|events|] == events;
  }

  lemma PartIsWhole(batch: seq<Bolt>, returned: set<nat>, outcome: nat -> Result, events: seq<Event>)
    requires PartTrace({}, returned, outcome, events) && returned == Numbers(batch)
    ensures BatchTrace(batch, outcome, events)
  {
  }

  // ----- the whole run

  /** The bolts of a[..n] all of whose dependencies are completed, in order. */
  method FindReady(a: array<Bolt>, n: nat, completed: set<nat>) returns (batch: seq<Bolt>)
    requires n <= a.Length
    ensures batch == Ready(a[..n], completed)
  {
    batch := [];
    for i := 0 to n
      invariant batch == Ready(a[..i], completed)
    {
      var ready := true;
      var deps := a[i].dependsOn;
      for k := 0 to |deps|
        invariant ready <==> forall j :: 0 <= j < k ==> deps[j] in completed
      {
        if deps[k] !in completed {
          ready := false;
          break;
        }
      }
      ReadySnoc(a[..i], a[i], completed);
      assert a[..i + 1] == a[..i] + [a[i]];
      if ready {
        batch := batch + [a[i]];
      }
    }
  }

  lemma ReadySnoc(bolts: seq<Bolt>, b: Bolt, done: set<nat>)
    ensures Ready(bolts + [b], done) == Ready(bolts, done) + if IsReady(b, done) then [b] else []
  {
    assert (bolts + [b])[..|bolts|] == bolts;
  }

  /** What a run is given: how each bolt ends, the ladder choice, and what the gate of each batch sees. */
  datatype Inputs = Inputs(outcome: nat -> Result, autonomy: Option<Autonomy>, polls: nat -> seq<Poll>)

  /** The skeleton has run, and is not waiting at its gate. */
  predicate SkeletonDone(bolts: seq<Bolt>, w: Inputs) {
    bolts != [] && (bolts[0].status == Done || w.outcome(bolts[0].number) == Ran(false))
  }

  /** The batches of the other bolts. */
  function Rest(bolts: seq<Bolt>): seq<seq<Bolt>>
    requires bolts != []
  {
    Batches(bolts[1..], {bolts[0].number})
  }

  /** The other bolts that are in no batch. */
  function NeverReady(bolts: seq<Bolt>): seq<Bolt>
    requires bolts != []
  {
    Leftover(bolts[1..], {bolts[0].number})
  }

  /** No bolt of batch j failed and, in gated mode, its gate opened. */
  ghost predicate Passes(w: Inputs, batch: seq<Bolt>, j: nat) {
    AllSucceed(w.outcome, batch) && (w.autonomy == Some(Gated) ==> GateOpens(batch, w.polls(j)))
  }

  /** The batches run are the first ones, in order, and all but the last of them passed. */
  ghost predicate Follows(bolts: seq<Bolt>, w: Inputs, history: seq<BatchRun>)
    requires bolts != []
  {
    && |history| <= |Rest(bolts)|
    && (forall j :: 0 <= j < |history| ==>
          history[j].bolts == Rest(bolts)[j] && BatchTrace(history[j].bolts, w.outcome, history[j].events))
    && forall j :: 0 <= j < |history| - 1 ==> Passes(w, history[j].bolts, j)
  }

  ghost predicate AllPassed(w: Inputs, history: seq<BatchRun>) {
    forall j :: 0 <= j < |history| ==> Passes(w, history[j].bolts, j)
  }

  /** Why the run ended: exactly one of these conditions holds. */
  ghost predicate Explains(bolts: seq<Bolt>, w: Inputs, history: seq<BatchRun>, end: End) {
    if bolts == [] then end == NoBolts && history == []
    else if !SkeletonDone(bolts, w) then
      && history == []
      && end == match w.outcome(bolts[0].number)
                case Errored => RunError
                case Failed => SkeletonFailed
                case Ran(_) => SkeletonAtGate
    else if w.autonomy.None? then end == NoAutonomy && history == []
    else
      && Follows(bolts, w, history)
      && if AllPassed(w, history) then
           && |history| == |Rest(bolts)|
           && end == (if NeverReady(bolts) == [] then Drained else NothingReady)
         else
           EndsAt(w, history[|history| - 1].bolts, |history| - 1, end)
  }

  /** How a batch that did not pass ends the run. */
  ghost predicate EndsAt(w: Inputs, batch: seq<Bolt>, j: nat, end: End) {
    && batch != []
    && !Passes(w, batch, j)
    && end == if AllSucceed(w.outcome, batch) then GateCancelled
              else if |batch| == 1 && w.outcome(batch[0].number) == Errored then RunError
              else BatchFailed
  }

  /** Runs one batch: a single bolt by itself, several side by side. */
  method RunBatch(batch: seq<Bolt>, outcome: nat -> Result) returns (run: BatchRun, stop: Option<End>)
    requires Distinct(batch) && batch != []
    ensures run.bolts == batch && BatchTrace(batch, outcome, run.events)
    ensures stop.None? <==> AllSucceed(outcome, batch)
    ensures stop.Some? ==>
              stop.value == if |batch| == 1 && outcome(batch[0].number) == Errored then RunError else BatchFailed
  {
    if |batch| == 1 {
      var n := batch[0].number;
      var ok := outcome(n).Ran?;
      run := BatchRun(batch, [Launch(n), Return(n, ok)]);
      SingleTrace(batch, outcome);
      assert AllSucceed(outcome, batch) <==> ok;
      stop := if outcome(n) == Errored then Some(RunError) else if ok then None else Some(BatchFailed);
    } else {
      var events, failed := RunSideBySide(batch, outcome);
      run := BatchRun(batch, events);
      stop := if failed then Some(BatchFailed) else None;
    }
  }

  lemma SingleTrace(batch: seq<Bolt>, outcome: nat -> Result)
    requires |batch| == 1
    ensures BatchTrace(batch, outcome, [Launch(batch[0].number), Return(batch[0].number, Succeeds(outcome, batch[0].number))])
  {
    var n := batch[0].number;
    var events := [Launch(n), Return(n, Succeeds(outcome, n))];
    assert batch == [batch[0]];
    assert events[0] == Launch(n) && events[1] == Return(n, Succeeds(outcome, n));
    assert events[..1] == [events[0]];
  }

  /** What is left to run, and what is completed, after k batches. */
  ghost predicate Remains(bolts: seq<Bolt>, k: nat, remaining: seq<Bolt>, completed: set<nat>)
    requires bolts != []
  {
    && k <= |Rest(bolts)|
    && Distinct(remaining)
    && Batches(remaining, completed) == Rest(bolts)[k..]
    && Leftover(remaining, completed) == NeverReady(bolts)
  }

  lemma RemainsFirst(bolts: seq<Bolt>)
    requires bolts != [] && Distinct(bolts)
    ensures Remains(bolts, 0, bolts[1..], {bolts[0].number})
  {
  }

  /** Taking one more batch off. */
  lemma RemainsNext(bolts: seq<Bolt>, k: nat, remaining: seq<Bolt>, completed: set<nat>)
    requires bolts != [] && Remains(bolts, k, remaining, completed)
    requires Ready(remaining, completed) != []
    ensures var batch := Ready(remaining, completed);
            && k < |Rest(bolts)| && batch == Rest(bolts)[k] && Distinct(batch)
            && Remains(bolts, k + 1, Without(remaining, Numbers(batch)), completed + Numbers(batch))
  {
    var batch := Ready(remaining, completed);
    ReadyShrinks(remaining, completed);
    WithoutIsDistinct(remaining, Numbers(batch));
    ReadyIsDistinct(remaining, completed);
    assert Batches(remaining, completed)[1..] == Rest(bolts)[k + 1..];
  }

  lemma {:induction false} ReadyIsDistinct(bolts: seq<Bolt>, done: set<nat>)
    requires Distinct(bolts)
    ensures Distinct(Ready(bolts, done))
  {
    if bolts != [] {
      var n := |bolts| - 1;
      ReadyIsDistinct(bolts[..n], done);
      forall b | b in Ready(bolts[..n], done)
        ensures b.number != bolts[n].number
      {
        var i :| 0 <= i < n && bolts[i] == b;
      }
    }
  }

  lemma RemainsLast(bolts: seq<Bolt>, k: nat, remaining: seq<Bolt>, completed: set<nat>)
    requires bolts != [] && Remains(bolts, k, remaining, completed)
    requires remaining == [] || Ready(remaining, completed) == []
    ensures k == |Rest(bolts)| && remaining == NeverReady(bolts)
  {
  }

  lemma FollowsNext(bolts: seq<Bolt>, w: Inputs, history: seq<BatchRun>, run: BatchRun)
    requires bolts != [] && Follows(bolts, w, history) && AllPassed(w, history)
    requires |history| < |Rest(bolts)| && run.bolts == Rest(bolts)[|history|]
    requires BatchTrace(run.bolts, w.outcome, run.events)
    ensures Follows(bolts, w, history + [run])
    ensures AllPassed(w, history + [run]) <==> Passes(w, run.bolts, |history|)
  {
    hide BatchTrace, Passes, Rest;
    var longer := history + [run];
    assert longer[|history|] == run;
    assert forall j :: 0 <= j < |history| ==> longer[j] == history[j];
  }

  lemma NothingRunYet(bolts: seq<Bolt>, w: Inputs)
    requires bolts != []
    ensures Follows(bolts, w, []) && AllPassed(w, [])
  {
  }

  lemma LastStops(bolts: seq<Bolt>, w: Inputs, history: seq<BatchRun>, end: End)
    requires bolts != [] && SkeletonDone(bolts, w) && w.autonomy.Some?
    requires Follows(bolts, w, history) && !AllPassed(w, history)
    requires history != [] && EndsAt(w, history[|history| - 1].bolts, |history| - 1, end)
    ensures Explains(bolts, w, history, end)
  {
  }

  lemma RanToTheEnd(bolts: seq<Bolt>, w: Inputs, history: seq<BatchRun>, remaining: seq<Bolt>, completed: set<nat>)
    requires bolts != [] && SkeletonDone(bolts, w) && w.autonomy.Some?
    requires Follows(bolts, w, history) && AllPassed(w, history) && Remains(bolts, |history|, remaining, completed)
    requires remaining == [] || Ready(remaining, completed) == []
    ensures Explains(bolts, w, history, if remaining == [] then Drained else NothingReady)
  {
    hide Follows, AllPassed, Remains;
    RemainsLast(bolts, |history|, remaining, completed);
  }

  /** The bolts after the skeleton, batch after batch. */
  method RunBatches(bolts: seq<Bolt>, w: Inputs) returns (end: End, history: seq<BatchRun>)
    requires Distinct(bolts) && bolts != [] && SkeletonDone(bolts, w) && w.autonomy.Some?
    ensures Explains(bolts, w, history, end)
  {
    hide Distinct, Batches, Leftover, Without, Ready, Numbers, BatchTrace, AllSucceed, GateOpens;
    hide Remains, Follows, AllPassed, Explains, SkeletonDone, Rest, NeverReady;
    history := [];
    var n := |bolts| - 1;
    var remaining := new Bolt[n](i requires 0 <= i < n => bolts[i + 1]);
    var completed := {bolts[0].number};
    assert remaining[..n] == bolts[1..];
    RemainsFirst(bolts);
    NothingRunYet(bolts, w);
    while n > 0
      invariant n <= remaining.Length
      invariant Remains(bolts, |history|, remaining[..n], completed)
      invariant Follows(bolts, w, history) && AllPassed(w, history)
      decreases n
    {
      var batch := FindReady(remaining, n, completed);
      if |batch| == 0 {
        RanToTheEnd(bolts, w, history, remaining[..n], completed);
        return NothingReady, history;
      }
      RemainsNext(bolts, |history|, remaining[..n], completed);
      FewerRemain(remaining[..n], completed);
      var run, stop := RunBatch(batch, w.outcome);
      FollowsNext(bolts, w, history, run);
      history := history + [run];
      if stop.Some? {
        LastStops(bolts, w, history, stop.value);
        return stop.value, history;
      }
      completed := completed + Numbers(batch);
      if w.autonomy.value == Gated {
        var passed := PresentBatchGate(batch, w.polls(|history| - 1));
        if !passed {
          LastStops(bolts, w, history, GateCancelled);
          return GateCancelled, history;
        }
      }
      n := FilterBolts(remaining, 0, n, Numbers(batch));
    }
    RanToTheEnd(bolts, w, history, remaining[..n], completed);
    return Drained, history;
  }

  lemma FewerRemain(remaining: seq<Bolt>, completed: set<nat>)
    requires Ready(remaining, completed) != []
    ensures |Without(remaining, Numbers(Ready(remaining, completed)))| < |remaining|
  {
    ReadyShrinks(remaining, completed);
  }

  /** RunAllBolts: the end of the run, and what each batch did. */
  method RunAllBolts(bolts: seq<Bolt>, w: Inputs) returns (end: End, history: seq<BatchRun>)
    requires Distinct(bolts)
    ensures Explains(bolts, w, history, end)
  {
    hide Distinct, Follows, AllPassed;
    history := [];
    if |bolts| == 0 {
      return NoBolts, history;
    }
    var ws := bolts[0];
    if ws.status != Done {
      var result := w.outcome(ws.number);
      match result {
        case Errored => return RunError, history;
        case Failed => return SkeletonFailed, history;
        case Ran(open) =>
          if open {
            return SkeletonAtGate, history;
          }
      }
    }
    if w.autonomy.None? {
      return NoAutonomy, history;
    }
    end, history := RunBatches(bolts, w);
  }
}
