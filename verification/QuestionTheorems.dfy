/** What holds of the questions of a feature over every run of asking, answering and assuming. */
module QuestionTheorems {
  import opened Basics
  import opened QuestionIds
  import opened Questions

  datatype Op = Asking(text: string, options: seq<string>) | Settling(id: string, how: Settlement) | AssumingAll

  function Apply(qs: seq<Question>, op: Op): seq<Question> {
    match op
    case Asking(text, options) => Ask(qs, text, options)
    case Settling(id, how) => Settle(qs, id, how)
    case AssumingAll => AssumedAll(qs)
  }

  /** The questions of a feature that started with none. */
  function Run(ops: seq<Op>): seq<Question> {
    if ops == [] then [] else Apply(Run(ops[..|ops| - 1]), ops[|ops| - 1])
  }

  // ----- ids

  /** Question k carries the id printed for k + 1. */
  ghost predicate NumberedInOrder(qs: seq<Question>) {
    forall k :: 0 <= k < |qs| ==> qs[k].id == PrintId(k + 1)
  }

  lemma {:induction false} MaxOfNumbered(qs: seq<Question>)
    requires NumberedInOrder(qs)
    ensures MaxNumber(qs) == |qs|
  {
    hide ParseId, PrintId;
    if qs != [] {
      MaxOfNumbered(qs[..|qs| - 1]);
      ParseInvertsPrint(|qs|);
    }
  }

  /** An operation never takes a question out, never moves one, and keeps ids and texts. */
  lemma QuestionsStay(qs: seq<Question>, op: Op, k: nat)
    requires k < |qs|
    ensures k < |Apply(qs, op)| && Apply(qs, op)[k].id == qs[k].id && Apply(qs, op)[k].text == qs[k].text
  {
    hide FirstAt, PrintId, MaxNumber, AssumptionFor;
  }

  lemma LengthAfter(qs: seq<Question>, op: Op)
    ensures |Apply(qs, op)| == |qs| + if op.Asking? then 1 else 0
    ensures op.Asking? ==> Apply(qs, op)[|qs|] == New(PrintId(MaxNumber(qs) + 1), op.text, op.options)
  {
    hide FirstAt, PrintId, MaxNumber, AssumptionFor;
  }

  lemma StepKeepsOrder(qs: seq<Question>, op: Op)
    requires NumberedInOrder(qs)
    ensures NumberedInOrder(Apply(qs, op))
  {
    hide PrintId, Apply, MaxNumber;
    MaxOfNumbered(qs);
    LengthAfter(qs, op);
    var after := Apply(qs, op);
    forall k | 0 <= k < |after|
      ensures after[k].id == PrintId(k + 1)
    {
      if k < |qs| {
        QuestionsStay(qs, op, k);
      }
    }
  }

  /** Over every run question k has the id of k + 1. */
  lemma {:induction false} IdsAreInOrder(ops: seq<Op>)
    ensures NumberedInOrder(Run(ops))
  {
    hide NumberedInOrder, Apply;
    if ops == [] {
      NoneNumbered();
    } else {
      IdsAreInOrder(ops[..|ops| - 1]);
      StepKeepsOrder(Run(ops[..|ops| - 1]), ops[|ops| - 1]);
    }
  }

  lemma NoneNumbered()
    ensures NumberedInOrder([])
  {
  }

  ghost predicate DistinctIds(qs: seq<Question>) {
    forall i, j :: 0 <= i < j < |qs| ==> qs[i].id != qs[j].id
  }

  /** No id is used twice. */
  lemma IdsAreDistinct(ops: seq<Op>)
    ensures DistinctIds(Run(ops))
  {
    hide PrintId, Run;
    IdsAreInOrder(ops);
    var qs := Run(ops);
    forall i, j | 0 <= i < j < |qs|
      ensures qs[i].id != qs[j].id
    {
      if qs[i].id == qs[j].id {
        PrintIsInjective(i + 1, j + 1);
      }
    }
  }

  // ----- a question is settled at most once

  /** A question that is no longer pending never changes again. */
  lemma SettledOnce(qs: seq<Question>, op: Op, k: nat)
    requires k < |qs| && qs[k].status != Pending
    ensures k < |Apply(qs, op)| && Apply(qs, op)[k] == qs[k]
  {
    hide FirstAt, PrintId, MaxNumber, AssumptionFor;
  }

  /** A pending question that changes is settled: answered with an answer, or assumed with an assumption. */
  lemma SettledProperly(qs: seq<Question>, op: Op, k: nat)
    requires k < |qs| && qs[k].status == Pending && Apply(qs, op)[k] != qs[k]
    ensures var q := Apply(qs, op)[k];
            || (q.status == Answered && q.answer.Some? && q.assumption == qs[k].assumption)
            || (q.status == Assumed && q.assumption.Some? && q.answer == qs[k].answer)
  {
    hide FirstAt, PrintId, MaxNumber, AssumptionFor;
  }

  /** A question once settled is the same at the end of the run. */
  lemma {:induction false} SettledForGood(ops: seq<Op>, i: nat, k: nat)
    requires i <= |ops| && k < |Run(ops[..i])| && Run(ops[..i])[k].status != Pending
    ensures k < |Run(ops)| && Run(ops)[k] == Run(ops[..i])[k]
  {
    hide Apply;
    if i == |ops| {
      assert ops[..i] == ops;
    } else {
      var n := |ops| - 1;
      assert ops[..n][..i] == ops[..i];
      SettledForGood(ops[..n], i, k);
      SettledOnce(Run(ops[..n]), ops[n], k);
    }
  }

  predicate PendingAt(ops: seq<Op>, k: nat, i: nat)
    requires i <= |ops|
  {
    k < |Run(ops[..i])| && Run(ops[..i])[k].status == Pending
  }

  predicate SettledAt(ops: seq<Op>, k: nat, i: nat)
    requires i <= |ops|
  {
    k < |Run(ops[..i])| && Run(ops[..i])[k].status != Pending
  }

  /** Operation i of the run settles question k. */
  predicate LeavesPending(ops: seq<Op>, k: nat, i: nat) {
    i < |ops| && PendingAt(ops, k, i) && SettledAt(ops, k, i + 1)
  }

  lemma StaysSettled(ops: seq<Op>, k: nat, i: nat, j: nat)
    requires i <= j <= |ops| && SettledAt(ops, k, i)
    ensures SettledAt(ops, k, j)
  {
    assert ops[..j][..i] == ops[..i];
    SettledForGood(ops[..j], i, k);
  }

  /** Over a whole run a question leaves pending at most once. */
  lemma LeavesPendingOnce(ops: seq<Op>, k: nat, i: nat, j: nat)
    requires LeavesPending(ops, k, i) && LeavesPending(ops, k, j)
    ensures i == j
  {
    hide Run;
    if i < j {
      StaysSettled(ops, k, i + 1, j);
    } else if j < i {
      StaysSettled(ops, k, j + 1, i);
    }
  }

  /** And a question is settled at the end exactly when some operation of the run settled it. */
  lemma {:induction false} SettledExactlyWhen(ops: seq<Op>, k: nat)
    requires k < |Run(ops)|
    ensures Run(ops)[k].status != Pending <==> exists i: nat :: LeavesPending(ops, k, i)
  {
    hide Apply;
    assert ops[..|ops|] == ops;
    if i: nat :| LeavesPending(ops, k, i) {
      StaysSettled(ops, k, i + 1, |ops|);
    }
    if Run(ops)[k].status != Pending {
      SettledByThen(ops, k, |ops|);
    }
  }

  lemma WasThere(ops: seq<Op>, k: nat, m: nat)
    requires m < |ops| && SettledAt(ops, k, m + 1)
    ensures SettledAt(ops, k, m) || PendingAt(ops, k, m)
  {
    hide Apply, PrintId, MaxNumber;
    assert ops[..m + 1][..m] == ops[..m];
    LengthAfter(Run(ops[..m]), ops[m]);
  }

  lemma {:induction false} SettledByThen(ops: seq<Op>, k: nat, n: nat)
    requires n <= |ops| && SettledAt(ops, k, n)
    ensures exists i: nat :: LeavesPending(ops, k, i)
  {
    hide Apply;
    if n > 0 {
      hide SettledAt, PendingAt;
      var m := n - 1;
      WasThere(ops, k, m);
      if SettledAt(ops, k, m) {
        SettledByThen(ops, k, m);
      } else {
        assert LeavesPending(ops, k, m);
      }
    }
  }

  // ----- conservation

  datatype Tally = Tally(created: nat, answered: nat, assumed: nat)

  /** Counts what an operation reports: a question made, settled, or the number it assumed. */
  function Counted(t: Tally, qs: seq<Question>, op: Op): Tally {
    match op
    case Asking(_, _) => t.(created := t.created + 1)
    case Settling(id, ByAnswer(_)) => if CanSettle(qs, id) then t.(answered := t.answered + 1) else t
    case Settling(id, ByAssumption(_)) => if CanSettle(qs, id) then t.(assumed := t.assumed + 1) else t
    case AssumingAll => t.(assumed := t.assumed + CountOf(qs, Pending))
  }

  function TallyOf(ops: seq<Op>): Tally {
    if ops == [] then Tally(0, 0, 0)
    else Counted(TallyOf(ops[..|ops| - 1]), Run(ops[..|ops| - 1]), ops[|ops| - 1])
  }

  lemma CountSnoc(qs: seq<Question>, q: Question, s: Status)
    ensures CountOf(qs + [q], s) == CountOf(qs, s) + if q.status == s then 1 else 0
  {
    assert (qs + [q])[..|qs|] == qs;
  }

  lemma {:induction false} CountUpdate(qs: seq<Question>, k: nat, q: Question, s: Status)
    requires k < |qs|
    ensures CountOf(qs[k := q], s) + (if qs[k].status == s then 1 else 0) == CountOf(qs, s) + if q.status == s then 1 else 0
  {
    var n := |qs| - 1;
    if k == n {
      assert qs[k := q][..n] == qs[..n];
    } else {
      CountUpdate(qs[..n], k, q, s);
      assert qs[k := q][..n] == qs[..n][k := q];
    }
  }

  /** Every question is in exactly one status. */
  lemma {:induction false} CountsAddUp(qs: seq<Question>)
    ensures CountOf(qs, Pending) + CountOf(qs, Answered) + CountOf(qs, Assumed) == |qs|
  {
    if qs != [] {
      CountsAddUp(qs[..|qs| - 1]);
    }
  }

  /** Statuses alone decide the counts. */
  lemma {:induction false} CountAllAssumed(a: seq<Question>, b: seq<Question>)
    requires |a| == |b|
    requires forall k :: 0 <= k < |a| ==> b[k].status == if a[k].status == Pending then Assumed else a[k].status
    ensures CountOf(b, Pending) == 0
    ensures CountOf(b, Answered) == CountOf(a, Answered)
    ensures CountOf(b, Assumed) == CountOf(a, Assumed) + CountOf(a, Pending)
  {
    if a != [] {
      CountAllAssumed(a[..|a| - 1], b[..|b| - 1]);
    }
  }

  /** With distinct ids assuming everything settles each pending question, and no other. */
  lemma AssumesAllPending(qs: seq<Question>)
    requires DistinctIds(qs)
    ensures var after := AssumedAll(qs);
            && CountOf(after, Pending) == 0
            && CountOf(after, Answered) == CountOf(qs, Answered)
            && CountOf(after, Assumed) == CountOf(qs, Assumed) + CountOf(qs, Pending)
  {
    hide FirstAt, AssumptionFor, CountOf;
    forall k | 0 <= k < |qs|
      ensures FirstAt(qs, qs[k].id) == Some(k)
    {
    }
    hide DistinctIds;
    CountAllAssumed(qs, AssumedAll(qs));
  }

  ghost predicate Balanced(t: Tally, qs: seq<Question>) {
    t.created == |qs| && t.answered == CountOf(qs, Answered) && t.assumed == CountOf(qs, Assumed)
  }

  lemma StepBalances(t: Tally, qs: seq<Question>, op: Op)
    requires Balanced(t, qs) && DistinctIds(qs)
    ensures Balanced(Counted(t, qs, op), Apply(qs, op))
  {
    hide FirstAt, AssumptionFor, CountOf, PrintId, MaxNumber, DistinctIds;
    match op
    case Asking(text, options) =>
      var q := New(PrintId(MaxNumber(qs) + 1), text, options);
      CountSnoc(qs, q, Answered);
      CountSnoc(qs, q, Assumed);
    case Settling(id, how) =>
      if CanSettle(qs, id) {
        var k := FirstAt(qs, id).value;
        CountUpdate(qs, k, Closed(qs[k], how), Answered);
        CountUpdate(qs, k, Closed(qs[k], how), Assumed);
      }
    case AssumingAll =>
      AssumesAllPending(qs);
  }

  lemma {:induction false} RunBalances(ops: seq<Op>)
    ensures Balanced(TallyOf(ops), Run(ops))
  {
    hide Apply, Counted, CountOf;
    if ops == [] {
      NoneCounted();
    } else {
      RunBalances(ops[..|ops| - 1]);
      IdsAreDistinct(ops[..|ops| - 1]);
      StepBalances(TallyOf(ops[..|ops| - 1]), Run(ops[..|ops| - 1]), ops[|ops| - 1]);
    }
  }

  lemma NoneCounted()
    ensures Balanced(Tally(0, 0, 0), [])
  {
  }

  /** Over every run the pending questions are those created and neither answered nor assumed. */
  lemma PendingIsWhatRemains(ops: seq<Op>)
    ensures var t := TallyOf(ops); CountOf(Run(ops), Pending) == t.created - t.answered - t.assumed
  {
    hide CountOf, TallyOf, Run;
    RunBalances(ops);
    CountsAddUp(Run(ops));
  }

  /** After everything is assumed none is pending, and every question that was settled is as it was. */
  lemma AssumingAllLeavesNone(ops: seq<Op>)
    ensures var qs := Run(ops); var after := Run(ops + [AssumingAll]);
            && CountOf(after, Pending) == 0 && |after| == |qs|
            && forall k :: 0 <= k < |qs| && qs[k].status != Pending ==> after[k] == qs[k]
  {
    hide CountOf, FirstAt, AssumptionFor, DistinctIds;
    assert (ops + [AssumingAll])[..|ops|] == ops;
    IdsAreDistinct(ops);
    AssumesAllPending(Run(ops));
  }

  // ----- files the store did not write

  lemma {:induction false} NonePending(qs: seq<Question>)
    ensures CountOf(qs, Pending) == 0 <==> forall k :: 0 <= k < |qs| ==> qs[k].status != Pending
  {
    if qs != [] {
      var n := |qs| - 1;
      NonePending(qs[..n]);
      assert forall k :: 0 <= k < n ==> qs[..n][k] == qs[k];
      if forall k :: 0 <= k < |qs| ==> qs[k].status != Pending {
        assert forall k :: 0 <= k < n ==> qs[..n][k].status != Pending;
      }
    }
  }

  /** Whatever the file holds, assuming everything leaves none pending exactly when each pending question
      is the first with its id: a repeated id keeps the later question pending for good. */
  lemma AssumesAllExactlyWhen(qs: seq<Question>)
    ensures CountOf(AssumedAll(qs), Pending) == 0 <==>
              forall k :: 0 <= k < |qs| && qs[k].status == Pending ==> FirstAt(qs, qs[k].id) == Some(k)
  {
    hide CountOf, FirstAt, AssumptionFor;
    NonePending(AssumedAll(qs));
    var after := AssumedAll(qs);
    forall k | 0 <= k < |qs|
      ensures after[k].status == Pending <==> qs[k].status == Pending && FirstAt(qs, qs[k].id) != Some(k)
    {
    }
    if forall k :: 0 <= k < |qs| && qs[k].status == Pending ==> FirstAt(qs, qs[k].id) == Some(k) {
      assert forall k :: 0 <= k < |after| ==> after[k].status != Pending;
    }
  }

  /** Two pending questions with one id: the second is never assumed. */
  lemma RepeatedIdStaysPending()
    ensures var q := New("1", "text", []);
            CountOf(AssumedAll([q, q]), Pending) == 1 && AssumedAll(AssumedAll([q, q])) == AssumedAll([q, q])
  {
    hide AssumptionFor;
    var q := New("1", "text", []);
    var once := AssumedAll([q, q]);
    assert FirstAt([q, q], "1") == Some(0);
    assert once == [AssumedQuestion(q), q];
    assert FirstAt(once, "1") == Some(0);
    assert once[1].status == Pending && once[0].status == Assumed;
    assert AssumedAll(once) == once;
    CountSnoc([AssumedQuestion(q)], q, Pending);
    CountSnoc([], AssumedQuestion(q), Pending);
    assert [] + [AssumedQuestion(q)] == [AssumedQuestion(q)] && [AssumedQuestion(q)] + [q] == once;
  }

  // ----- what is written

  /** A question is asked with its text and options, pending, and with neither an answer nor an assumption. */
  lemma AskedAs(qs: seq<Question>, text: string, options: seq<string>)
    ensures var after := Apply(qs, Asking(text, options));
            && |after| == |qs| + 1 && after[..|qs|] == qs
            && after[|qs|].text == text && after[|qs|].options == options && after[|qs|].status == Pending
            && after[|qs|].answer == None && after[|qs|].assumption == None
  {
    hide PrintId, MaxNumber;
  }

  /** A question that changes has been given what the operation says: the answer or the assumption itself, or,
      when everything is assumed, its first option if it has one. */
  lemma SettledWith(qs: seq<Question>, op: Op, k: nat)
    requires k < |qs| && Apply(qs, op)[k] != qs[k]
    ensures var q := Apply(qs, op)[k];
            match op
            case Asking(_, _) => false
            case Settling(id, ByAnswer(t)) => qs[k].id == id && q == qs[k].(answer := Some(t), status := Answered)
            case Settling(id, ByAssumption(t)) => qs[k].id == id && q == qs[k].(assumption := Some(t), status := Assumed)
            case AssumingAll =>
              q == qs[k].(status := Assumed, assumption := Some(
                if qs[k].options == [] then "No human response received. This question was auto-assumed."
                else "No human response received. Assuming: " + qs[k].options[0]))
  {
    hide FirstAt, PrintId, MaxNumber;
  }
}
