/** The order in which RunAllBolts takes the bolts: batch after batch, each of the bolts whose
    dependencies are all completed. */
module BoltSchedule {
  import opened BoltPlan

  ghost predicate Distinct(bolts: seq<Bolt>) {
    forall i, j :: 0 <= i < j < |bolts| ==> bolts[i].number != bolts[j].number
  }

  function Numbers(bolts: seq<Bolt>): (r: set<nat>)
    ensures forall n :: n in r <==> exists b :: b in bolts && b.number == n
  {
    set b | b in bolts :: b.number
  }

  predicate IsReady(b: Bolt, done: set<nat>) {
    forall d | d in b.dependsOn :: d in done
  }

  function Ready(remaining: seq<Bolt>, done: set<nat>): (r: seq<Bolt>)
    ensures forall b :: b in r <==> b in remaining && IsReady(b, done)
    ensures |r| <= |remaining|
  {
    if remaining == [] then []
    else
      var n := |remaining| - 1;
      assert remaining == remaining[..n] + [remaining[n]];
      Ready(remaining[..n], done) + if IsReady(remaining[n], done) then [remaining[n]] else []
  }

  /** The bolts whose numbers are not in the set, in order. */
  function Without(bolts: seq<Bolt>, removed: set<nat>): seq<Bolt> {
    if bolts == [] then []
    else
      var n := |bolts| - 1;
      Without(bolts[..n], removed) + if bolts[n].number in removed then [] else [bolts[n]]
  }

  lemma {:induction false} WithoutMembers(bolts: seq<Bolt>, removed: set<nat>)
    ensures var r := Without(bolts, removed);
            && (forall b :: b in r <==> b in bolts && b.number !in removed)
            && |r| <= |bolts|
            && ((exists b :: b in bolts && b.number in removed) ==> |r| < |bolts|)
  {
    if bolts != [] {
      var n := |bolts| - 1;
      assert bolts == bolts[..n] + [bolts[n]];
      WithoutMembers(bolts[..n], removed);
    }
  }

  lemma ReadyShrinks(remaining: seq<Bolt>, done: set<nat>)
    requires Ready(remaining, done) != []
    ensures var rest := Without(remaining, Numbers(Ready(remaining, done)));
            |rest| < |remaining| && forall b :: b in rest <==> b in remaining && b.number !in Numbers(Ready(remaining, done))
  {
    WithoutMembers(remaining, Numbers(Ready(remaining, done)));
    var b := Ready(remaining, done)[0];
    assert b in remaining && b.number in Numbers(Ready(remaining, done));
  }

  /** The batches, when no bolt fails. */
  function Batches(remaining: seq<Bolt>, done: set<nat>): seq<seq<Bolt>>
    decreases |remaining|
  {
    var batch := Ready(remaining, done);
    if batch == [] then []
    else
      ReadyShrinks(remaining, done);
      [batch] + Batches(Without(remaining, Numbers(batch)), done + Numbers(batch))
  }

  /** What never becomes ready. */
  function Leftover(remaining: seq<Bolt>, done: set<nat>): seq<Bolt>
    decreases |remaining|
  {
    var batch := Ready(remaining, done);
    if batch == [] then remaining
    else
      ReadyShrinks(remaining, done);
      Leftover(Without(remaining, Numbers(batch)), done + Numbers(batch))
  }

  /** The bolts completed in the end. */
  function Reached(remaining: seq<Bolt>, done: set<nat>): set<nat>
    decreases |remaining|
  {
    var batch := Ready(remaining, done);
    if batch == [] then done
    else
      ReadyShrinks(remaining, done);
      Reached(Without(remaining, Numbers(batch)), done + Numbers(batch))
  }

  // ----- the least fixed point

  /** Contains the start, and every bolt all of whose dependencies it contains. */
  ghost predicate Closed(bolts: seq<Bolt>, start: set<nat>, c: set<nat>) {
    start <= c && forall b :: b in bolts && IsReady(b, c) ==> b.number in c
  }

  /** The bolts reached lie in every closed set. */
  lemma {:induction false} ReachedIsLeast(bolts: seq<Bolt>, remaining: seq<Bolt>, done: set<nat>, c: set<nat>)
    requires Closed(bolts, done, c) && forall b :: b in remaining ==> b in bolts
    ensures Reached(remaining, done) <= c
    decreases |remaining|
  {
    var batch := Ready(remaining, done);
    if batch != [] {
      ReadyShrinks(remaining, done);
      forall n | n in Numbers(batch)
        ensures n in c
      {
        var b :| b in batch && b.number == n;
      }
      ReachedIsLeast(bolts, Without(remaining, Numbers(batch)), done + Numbers(batch), c);
    }
  }

  /** No bolt of the list is done. */
  ghost predicate Apart(remaining: seq<Bolt>, done: set<nat>) {
    forall b :: b in remaining ==> b.number !in done
  }

  /** The bolts reached are a closed set; each other bolt is left over, and lacks a dependency. */
  lemma {:induction false} ReachedIsClosed(remaining: seq<Bolt>, done: set<nat>)
    requires Apart(remaining, done) && Distinct(remaining)
    ensures Closed(remaining, done, Reached(remaining, done))
    ensures forall b :: b in Leftover(remaining, done) ==>
              b in remaining && b.number !in Reached(remaining, done) && !IsReady(b, Reached(remaining, done))
    ensures forall b :: b in remaining ==> b in Leftover(remaining, done) || IsReady(b, Reached(remaining, done))
    ensures Numbers(remaining) + done == Numbers(Leftover(remaining, done)) + Reached(remaining, done)
    decreases |remaining|
  {
    var batch := Ready(remaining, done);
    if batch == [] {
      assert forall b :: b in remaining && IsReady(b, done) ==> b in batch;
    } else {
      ReadyShrinks(remaining, done);
      var rest, more := Without(remaining, Numbers(batch)), done + Numbers(batch);
      WithoutIsDistinct(remaining, Numbers(batch));
      ReachedIsClosed(rest, more);
      NumbersSplit(remaining, batch, rest);
      forall b | b in remaining
        ensures b in Leftover(remaining, done) || IsReady(b, Reached(remaining, done))
        ensures IsReady(b, Reached(remaining, done)) ==> b.number in Reached(remaining, done)
      {
        if b !in rest {
          ReadyInBatch(remaining, done, b);
        }
      }
    }
  }

  lemma NumbersSplit(remaining: seq<Bolt>, batch: seq<Bolt>, rest: seq<Bolt>)
    requires rest == Without(remaining, Numbers(batch)) && forall b :: b in batch ==> b in remaining
    ensures Numbers(remaining) == Numbers(rest) + Numbers(batch)
  {
    WithoutMembers(remaining, Numbers(batch));
    forall n | n in Numbers(remaining)
      ensures n in Numbers(rest) + Numbers(batch)
    {
      var b :| b in remaining && b.number == n;
      if n !in Numbers(batch) {
        assert b in rest;
      }
    }
  }

  /** A bolt whose number is taken by the batch is ready itself, numbers being distinct. */
  lemma ReadyInBatch(remaining: seq<Bolt>, done: set<nat>, b: Bolt)
    requires Distinct(remaining) && b in remaining && b.number in Numbers(Ready(remaining, done))
    ensures IsReady(b, done)
  {
    var e :| e in Ready(remaining, done) && e.number == b.number;
    SameNumber(remaining, b, e);
  }

  lemma SameNumber(bolts: seq<Bolt>, a: Bolt, b: Bolt)
    requires Distinct(bolts) && a in bolts && b in bolts && a.number == b.number
    ensures a == b
  {
  }

  lemma {:induction false} WithoutIsDistinct(bolts: seq<Bolt>, removed: set<nat>)
    requires Distinct(bolts)
    ensures Distinct(Without(bolts, removed))
  {
    if bolts != [] {
      var n := |bolts| - 1;
      WithoutIsDistinct(bolts[..n], removed);
      WithoutMembers(bolts[..n], removed);
      var r := Without(bolts[..n], removed);
      forall b | b in r
        ensures b.number != bolts[n].number
      {
        var i :| 0 <= i < n && bolts[i] == b;
      }
    }
  }

  // ----- the depth of a bolt

  /** Each bolt is a dependency of the next. */
  ghost predicate Chain(bolts: seq<Bolt>, c: seq<Bolt>) {
    && c != []
    && (forall i :: 0 <= i < |c| ==> c[i] in bolts)
    && forall i, j :: 0 <= i < j < |c| && j == i + 1 ==> c[i].number in c[j].dependsOn
  }

  lemma ChainOne(bolts: seq<Bolt>, b: Bolt)
    requires b in bolts
    ensures Chain(bolts, [b])
  {
  }

  lemma ChainAppend(bolts: seq<Bolt>, c: seq<Bolt>, b: Bolt)
    requires Chain(bolts, c) && b in bolts && c[|c| - 1].number in b.dependsOn
    ensures Chain(bolts, c + [b])
  {
    var d := c + [b];
    assert forall i :: 0 <= i < |c| ==> d[i] == c[i];
  }

  lemma ChainPrepend(bolts: seq<Bolt>, b: Bolt, c: seq<Bolt>)
    requires Chain(bolts, c) && b in bolts && b.number in c[0].dependsOn
    ensures Chain(bolts, [b] + c)
  {
    var d := [b] + c;
    assert forall i :: 0 < i <= |c| ==> d[i] == c[i - 1];
  }

  lemma ChainSlice(bolts: seq<Bolt>, c: seq<Bolt>, i: nat, j: nat)
    requires Chain(bolts, c) && i < j <= |c|
    ensures Chain(bolts, c[i..j])
  {
    var d := c[i..j];
    assert forall k :: 0 <= k < |d| ==> d[k] == c[i + k];
  }

  /** What is completed when batch j starts. */
  function DoneBefore(batches: seq<seq<Bolt>>, done: set<nat>, j: nat): (r: set<nat>)
    requires j <= |batches|
    ensures done <= r
    decreases j
  {
    if j == 0 then done else DoneBefore(batches, done, j - 1) + Numbers(batches[j - 1])
  }

  lemma DoneStep(batches: seq<seq<Bolt>>, done: set<nat>, j: nat)
    requires 0 < j <= |batches|
    ensures DoneBefore(batches, done, j) == DoneBefore(batches, done, j - 1) + Numbers(batches[j - 1])
  {
  }

  lemma {:induction false} DoneLater(batches: seq<seq<Bolt>>, done: set<nat>, j: nat)
    requires 0 < |batches| && j < |batches|
    ensures DoneBefore(batches, done, j + 1) == DoneBefore(batches[1..], done + Numbers(batches[0]), j)
  {
    if j > 0 {
      DoneLater(batches, done, j - 1);
      assert batches[1..][j - 1] == batches[j];
    }
  }

  lemma {:induction false} DoneContains(batches: seq<seq<Bolt>>, done: set<nat>, i: nat, j: nat)
    requires i < j <= |batches|
    ensures Numbers(batches[i]) <= DoneBefore(batches, done, j)
    decreases j
  {
    if i < j - 1 {
      DoneContains(batches, done, i, j - 1);
    }
  }

  /** Which batch a completed bolt ran in. */
  lemma {:induction false} DoneIn(batches: seq<seq<Bolt>>, done: set<nat>, j: nat, n: nat) returns (i: nat)
    requires j <= |batches| && n in DoneBefore(batches, done, j) && n !in done
    ensures i < j && n in Numbers(batches[i])
    decreases j
  {
    if n in Numbers(batches[j - 1]) {
      i := j - 1;
    } else {
      i := DoneIn(batches, done, j - 1, n);
    }
  }

  /** A bolt of batch j has not run before, is ready when the batch starts, and was not when the
      batch before it started. */
  ghost predicate InBatch(remaining: seq<Bolt>, done: set<nat>, j: nat, b: Bolt) {
    var batches := Batches(remaining, done);
    && j < |batches| && b in batches[j] && b in remaining
    && IsReady(b, DoneBefore(batches, done, j)) && b.number !in DoneBefore(batches, done, j)
    && (j > 0 ==> !IsReady(b, DoneBefore(batches, done, j - 1)))
  }

  lemma {:induction false} BatchFacts(remaining: seq<Bolt>, done: set<nat>, j: nat, b: Bolt)
    requires Apart(remaining, done) && j < |Batches(remaining, done)| && b in Batches(remaining, done)[j]
    ensures InBatch(remaining, done, j, b)
    decreases j
  {
    hide Batches, Without, Ready, Numbers, DoneBefore;
    var batches := Batches(remaining, done);
    FirstBatch(remaining, done);
    if j > 0 {
      var batch := batches[0];
      var rest, more := Without(remaining, Numbers(batch)), done + Numbers(batch);
      BatchFacts(rest, more, j - 1, b);
      DoneLater(batches, done, j - 1);
      if j > 1 {
        DoneLater(batches, done, j - 2);
      } else {
        NotInFirst(remaining, done, b);
      }
    }
  }

  lemma FirstBatch(remaining: seq<Bolt>, done: set<nat>)
    requires Apart(remaining, done) && Batches(remaining, done) != []
    ensures var batches := Batches(remaining, done); var batch := batches[0];
            var rest, more := Without(remaining, Numbers(batch)), done + Numbers(batch);
            && batch == Ready(remaining, done) && batches[1..] == Batches(rest, more) && Apart(rest, more)
            && (forall b :: b in rest ==> b in remaining) && DoneBefore(batches, done, 0) == done
  {
    ReadyShrinks(remaining, done);
  }

  lemma NotInFirst(remaining: seq<Bolt>, done: set<nat>, b: Bolt)
    requires b in Without(remaining, Numbers(Ready(remaining, done)))
    ensures !IsReady(b, done)
  {
    WithoutMembers(remaining, Numbers(Ready(remaining, done)));
    assert b.number !in Numbers(Ready(remaining, done)) && b in remaining;
    assert b in Ready(remaining, done) <==> IsReady(b, done);
  }

  /** Some chain of j + 1 bolts ends at a bolt of batch j. */
  lemma {:induction false} ChainOfDepth(remaining: seq<Bolt>, done: set<nat>, j: nat, b: Bolt) returns (c: seq<Bolt>)
    requires Apart(remaining, done) && j < |Batches(remaining, done)| && b in Batches(remaining, done)[j]
    ensures Chain(remaining, c) && |c| == j + 1 && c[j] == b
    decreases j
  {
    hide Batches, Chain, DoneBefore, Numbers, Apart;
    var batches := Batches(remaining, done);
    BatchFacts(remaining, done, j, b);
    if j == 0 {
      c := [b];
      ChainOne(remaining, b);
    } else {
      DoneStep(batches, done, j);
      var d :| d in b.dependsOn && d !in DoneBefore(batches, done, j - 1);
      assert d in Numbers(batches[j - 1]);
      var e: Bolt :| e in batches[j - 1] && e.number == d;
      var front := ChainOfDepth(remaining, done, j - 1, e);
      ChainAppend(remaining, front, b);
      c := front + [b];
    }
  }

  /** The bolt before b in a chain ran in an earlier batch. */
  lemma DependencyRanBefore(remaining: seq<Bolt>, done: set<nat>, j: nat, b: Bolt, e: Bolt) returns (i: nat)
    requires Apart(remaining, done) && Distinct(remaining)
    requires j < |Batches(remaining, done)| && b in Batches(remaining, done)[j]
    requires e in remaining && e.number in b.dependsOn
    ensures i < j && e in Batches(remaining, done)[i]
  {
    var batches := Batches(remaining, done);
    BatchFacts(remaining, done, j, b);
    i := DoneIn(batches, done, j, e.number);
    var x: Bolt :| x in batches[i] && x.number == e.number;
    BatchFacts(remaining, done, i, x);
    SameNumber(remaining, x, e);
  }

  /** No chain that ends at a bolt of batch j is longer than j + 1; and a longer chain starts in an earlier batch. */
  lemma {:induction false} ChainBound(remaining: seq<Bolt>, done: set<nat>, j: nat, c: seq<Bolt>) returns (i: nat)
    requires Apart(remaining, done) && Distinct(remaining) && Chain(remaining, c)
    requires |c| > 0 && j < |Batches(remaining, done)| && c[|c| - 1] in Batches(remaining, done)[j]
    ensures |c| <= j + 1
    ensures i <= j && c[0] in Batches(remaining, done)[i] && (|c| > 1 ==> i < j)
    decreases |c|
  {
    if |c| == 1 {
      i := j;
    } else {
      var n := |c| - 1;
      ChainSlice(remaining, c, 0, n);
      hide Batches, Chain, Apart, Distinct;
      var k := DependencyRanBefore(remaining, done, j, c[n], c[n - 1]);
      assert c[0..n][n - 1] == c[n - 1];
      i := ChainBound(remaining, done, k, c[0..n]);
    }
  }

  /** The batch a bolt runs in is the length of the longest chain of dependencies that ends at it. */
  lemma BatchIsDepth(remaining: seq<Bolt>, done: set<nat>, j: nat, b: Bolt)
    requires Apart(remaining, done) && Distinct(remaining)
    requires j < |Batches(remaining, done)| && b in Batches(remaining, done)[j]
    ensures exists c :: Chain(remaining, c) && c[|c| - 1] == b && |c| == j + 1
    ensures forall c :: Chain(remaining, c) && c[|c| - 1] == b ==> |c| <= j + 1
  {
    var c := ChainOfDepth(remaining, done, j, b);
    assert Chain(remaining, c) && c[|c| - 1] == b && |c| == j + 1;
    forall x | Chain(remaining, x) && x[|x| - 1] == b
      ensures |x| <= j + 1
    {
      var _ := ChainBound(remaining, done, j, x);
    }
  }

  // ----- when every bolt runs

  ghost predicate Dangling(remaining: seq<Bolt>, done: set<nat>) {
    exists b, d :: b in remaining && d in b.dependsOn && d !in done && d !in Numbers(remaining)
  }

  ghost predicate Cycle(remaining: seq<Bolt>, c: seq<Bolt>) {
    Chain(remaining, c) && |c| > 1 && c[0] == c[|c| - 1]
  }

  lemma {:induction false} Pigeonhole(c: seq<Bolt>, pool: set<Bolt>) returns (i: nat, j: nat)
    requires (forall k :: 0 <= k < |c| ==> c[k] in pool) && |c| > |pool|
    ensures i < j < |c| && c[i] == c[j]
    decreases |c|
  {
    var n := |c| - 1;
    if k :| 0 <= k < n && c[k] == c[n] {
      i, j := k, n;
    } else {
      i, j := Pigeonhole(c[..n], pool - {c[n]});
    }
  }

  /** Every bolt of the list has a dependency in the list. */
  ghost predicate Knotted(stuck: seq<Bolt>) {
    stuck != [] && forall b {:trigger DependsIn(stuck, b)} :: b in stuck ==> DependsIn(stuck, b)
  }

  ghost predicate DependsIn(stuck: seq<Bolt>, b: Bolt) {
    exists e :: e in stuck && e.number in b.dependsOn
  }

  lemma PickDependency(stuck: seq<Bolt>, b: Bolt) returns (e: Bolt)
    requires Knotted(stuck) && b in stuck
    ensures e in stuck && e.number in b.dependsOn
  {
    assert DependsIn(stuck, b);
    e :| e in stuck && e.number in b.dependsOn;
  }

  lemma KnottedHasOne(stuck: seq<Bolt>) returns (b: Bolt)
    requires Knotted(stuck)
    ensures b in stuck && Chain(stuck, [b])
  {
    b := stuck[0];
  }

  /** In a knot chains grow without end. */
  lemma {:induction false} Grow(stuck: seq<Bolt>, n: nat) returns (c: seq<Bolt>)
    requires Knotted(stuck)
    ensures Chain(stuck, c) && |c| == n + 1 && c[0] in stuck
  {
    hide Chain, Knotted;
    if n == 0 {
      var b := KnottedHasOne(stuck);
      c := [b];
    } else {
      var rest := Grow(stuck, n - 1);
      var e := PickDependency(stuck, rest[0]);
      ChainPrepend(stuck, e, rest);
      c := [e] + rest;
    }
  }

  lemma LeftoverHasCycle(remaining: seq<Bolt>, done: set<nat>) returns (c: seq<Bolt>)
    requires Apart(remaining, done) && Distinct(remaining)
    requires Leftover(remaining, done) != [] && !Dangling(remaining, done)
    ensures Cycle(remaining, c)
  {
    var stuck, reached := Leftover(remaining, done), Reached(remaining, done);
    ReachedIsClosed(remaining, done);
    forall b | b in stuck
      ensures DependsIn(stuck, b)
    {
      var d :| d in b.dependsOn && d !in reached;
      assert d in Numbers(stuck);
      var e :| e in stuck && e.number == d;
    }
    c := FindCycle(remaining, stuck);
  }

  lemma FindCycle(remaining: seq<Bolt>, stuck: seq<Bolt>) returns (c: seq<Bolt>)
    requires forall b :: b in stuck ==> b in remaining
    requires Knotted(stuck)
    ensures Cycle(remaining, c)
  {
    hide Knotted, Chain;
    var pool := set b | b in stuck;
    var walk := Grow(stuck, |pool|);
    ChainIn(stuck, walk);
    var i, j := Pigeonhole(walk, pool);
    c := walk[i..j + 1];
    ChainSlice(stuck, walk, i, j + 1);
    ChainWider(stuck, remaining, c);
  }

  lemma ChainIn(bolts: seq<Bolt>, c: seq<Bolt>)
    requires Chain(bolts, c)
    ensures forall i :: 0 <= i < |c| ==> c[i] in bolts
  {
  }

  lemma ChainWider(a: seq<Bolt>, bolts: seq<Bolt>, c: seq<Bolt>)
    requires Chain(a, c) && forall b :: b in a ==> b in bolts
    ensures Chain(bolts, c)
  {
  }

  lemma DrainedHasNone(remaining: seq<Bolt>, done: set<nat>, c: seq<Bolt>)
    requires Apart(remaining, done) && Distinct(remaining) && Leftover(remaining, done) == []
    ensures !Dangling(remaining, done) && !Cycle(remaining, c)
  {
    ReachedIsClosed(remaining, done);
    assert forall b :: b in remaining ==> IsReady(b, Reached(remaining, done));
    if Cycle(remaining, c) {
      var j := BatchOf(remaining, done, c[0]);
      var i := ChainBound(remaining, done, j, c);
      BatchFacts(remaining, done, j, c[0]);
      DoneContains(Batches(remaining, done), done, i, j);
    }
  }

  /** Every bolt that is not left over is in some batch. */
  lemma {:induction false} BatchOf(remaining: seq<Bolt>, done: set<nat>, b: Bolt) returns (j: nat)
    requires Apart(remaining, done) && Distinct(remaining) && b in remaining && b !in Leftover(remaining, done)
    ensures j < |Batches(remaining, done)| && b in Batches(remaining, done)[j]
    decreases |remaining|
  {
    hide Ready, Without, Numbers, IsReady, Distinct, Apart;
    var batch := Ready(remaining, done);
    if b in batch {
      j := 0;
    } else if batch != [] {
      ReadyShrinks(remaining, done);
      var rest, more := Without(remaining, Numbers(batch)), done + Numbers(batch);
      WithoutIsDistinct(remaining, Numbers(batch));
      RestOrBatch(remaining, done, b);
      RestIsApart(remaining, done);
      var i := BatchOf(rest, more, b);
      j := i + 1;
    }
  }

  lemma RestOrBatch(remaining: seq<Bolt>, done: set<nat>, b: Bolt)
    requires Distinct(remaining) && b in remaining && b !in Ready(remaining, done)
    ensures b in Without(remaining, Numbers(Ready(remaining, done)))
  {
    hide Without, Ready, Numbers, Distinct;
    WithoutMembers(remaining, Numbers(Ready(remaining, done)));
    if b.number in Numbers(Ready(remaining, done)) {
      ReadyInBatch(remaining, done, b);
    }
  }

  lemma RestIsApart(remaining: seq<Bolt>, done: set<nat>)
    requires Apart(remaining, done)
    ensures var batch := Ready(remaining, done);
            Apart(Without(remaining, Numbers(batch)), done + Numbers(batch))
  {
    hide Without, Ready, Numbers;
    WithoutMembers(remaining, Numbers(Ready(remaining, done)));
  }

  /** The remaining bolts all run, when none fails, exactly when no dependency dangles and no chain of
      dependencies returns to its start. */
  lemma DrainsIffAcyclic(remaining: seq<Bolt>, done: set<nat>)
    requires Apart(remaining, done) && Distinct(remaining)
    ensures Leftover(remaining, done) == [] <==>
              !Dangling(remaining, done) && !exists c :: Cycle(remaining, c)
  {
    if Leftover(remaining, done) == [] {
      forall c
        ensures !Dangling(remaining, done) && !Cycle(remaining, c)
      {
        DrainedHasNone(remaining, done, c);
      }
      DrainedHasNone(remaining, done, []);
    } else if !Dangling(remaining, done) {
      var c := LeftoverHasCycle(remaining, done);
      assert Cycle(remaining, c);
    }
  }

  /** The bolts that run, when none fails, are the least set that contains the start and every bolt all
      of whose dependencies it contains. */
  lemma ReachedIsLeastClosed(remaining: seq<Bolt>, done: set<nat>)
    requires Apart(remaining, done) && Distinct(remaining)
    ensures Closed(remaining, done, Reached(remaining, done))
    ensures forall c :: Closed(remaining, done, c) ==> Reached(remaining, done) <= c
  {
    hide Reached, Leftover, Closed, Apart, Distinct, IsReady;
    ReachedIsClosed(remaining, done);
    forall c | Closed(remaining, done, c)
      ensures Reached(remaining, done) <= c
    {
      ReachedIsLeast(remaining, remaining, done, c);
    }
  }
}
