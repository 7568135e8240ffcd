/** The question store: questions are asked, then answered by a person or settled by an assumption. */
module Questions {
  import opened Basics
  import opened QuestionIds

  datatype Status = Pending | Answered | Assumed

  datatype Question = Question(
    id: string,
    text: string,
    options: seq<string>,
    answer: Option<string>,
    assumption: Option<string>,
    status: Status)

  datatype Settlement = ByAnswer(text: string) | ByAssumption(text: string)

  datatype Reply = Settled(question: Question) | Conflict(status: Status) | NotFound

  // ----- ids

  /** The largest number among the ids, 0 when there is none. */
  function MaxNumber(qs: seq<Question>): nat {
    if qs == [] then 0
    else
      var n := |qs| - 1;
      var m, p := MaxNumber(qs[..n]), ParseId(qs[n].id);
      if p.Some? && p.value > m then p.value else m
  }

  lemma {:induction false} MaxIsBound(qs: seq<Question>, i: nat)
    requires i < |qs| && ParseId(qs[i].id).Some?
    ensures ParseId(qs[i].id).value <= MaxNumber(qs)
  {
    hide ParseId;
    if i < |qs| - 1 {
      MaxIsBound(qs[..|qs| - 1], i);
    }
  }

  method NextQuestionId(qs: seq<Question>) returns (id: string)
    ensures id == PrintId(MaxNumber(qs) + 1)
  {
    hide ParseId, PrintId;
    var maxNum := 0;
    for i := 0 to |qs|
      invariant maxNum == MaxNumber(qs[..i])
    {
      assert qs[..i + 1][..i] == qs[..i];
      var num := ParseId(qs[i].id);
      if num.Some? && num.value > maxNum {
        maxNum := num.value;
      }
    }
    assert qs[..|qs|] == qs;
    return PrintId(maxNum + 1);
  }

  /** The next id is not taken, whatever ids the file holds. */
  lemma NextIdIsFresh(qs: seq<Question>)
    ensures forall i :: 0 <= i < |qs| ==> qs[i].id != PrintId(MaxNumber(qs) + 1)
  {
    hide ParseId, PrintId, MaxNumber;
    ParseInvertsPrint(MaxNumber(qs) + 1);
    forall i | 0 <= i < |qs|
      ensures qs[i].id != PrintId(MaxNumber(qs) + 1)
    {
      if ParseId(qs[i].id).Some? {
        MaxIsBound(qs, i);
      }
    }
  }

  // ----- one operation

  function New(id: string, text: string, options: seq<string>): Question {
    Question(id, text, options, None, None, Pending)
  }

  /** The first question with the id. */
  function FirstAt(qs: seq<Question>, id: string): (r: Option<nat>)
    ensures r.Some? ==> r.value < |qs| && qs[r.value].id == id && forall i :: 0 <= i < r.value ==> qs[i].id != id
    ensures r.None? ==> forall i :: 0 <= i < |qs| ==> qs[i].id != id
  {
    if qs == [] then None
    else if qs[0].id == id then Some(0)
    else
      var r := FirstAt(qs[1..], id);
      assert forall i :: 0 < i < |qs| ==> qs[i] == qs[1..][i - 1];
      if r.Some? then Some(r.value + 1) else None
  }

  function Closed(q: Question, s: Settlement): Question {
    match s
    case ByAnswer(t) => q.(answer := Some(t), status := Answered)
    case ByAssumption(t) => q.(assumption := Some(t), status := Assumed)
  }

  predicate CanSettle(qs: seq<Question>, id: string) {
    FirstAt(qs, id).Some? && qs[FirstAt(qs, id).value].status == Pending
  }

  function Settle(qs: seq<Question>, id: string, s: Settlement): seq<Question> {
    if CanSettle(qs, id) then qs[FirstAt(qs, id).value := Closed(qs[FirstAt(qs, id).value], s)] else qs
  }

  function Ask(qs: seq<Question>, text: string, options: seq<string>): seq<Question> {
    qs + [New(PrintId(MaxNumber(qs) + 1), text, options)]
  }

  function CountOf(qs: seq<Question>, s: Status): nat {
    if qs == [] then 0 else CountOf(qs[..|qs| - 1], s) + if qs[|qs| - 1].status == s then 1 else 0
  }

  function PendingOf(qs: seq<Question>): seq<Question> {
    if qs == [] then []
    else PendingOf(qs[..|qs| - 1]) + if qs[|qs| - 1].status == Pending then [qs[|qs| - 1]] else []
  }

  // ----- assuming everything

  function AssumptionFor(q: Question): string {
    if q.options != [] then "No human response received. Assuming: " + q.options[0]
    else "No human response received. This question was auto-assumed."
  }

  /** The first with its id, and pending. */
  predicate Assumable(qs: seq<Question>, k: nat)
    requires k < |qs|
  {
    qs[k].status == Pending && FirstAt(qs, qs[k].id) == Some(k)
  }

  function AssumedQuestion(q: Question): Question {
    Closed(q, ByAssumption(AssumptionFor(q)))
  }

  /** Each assumable question with an id in the set is settled by its assumption. */
  function AssumedIn(qs: seq<Question>, ids: set<string>): seq<Question> {
    seq(|qs|, k requires 0 <= k < |qs| => if Assumable(qs, k) && qs[k].id in ids then AssumedQuestion(qs[k]) else qs[k])
  }

  function AssumedAll(qs: seq<Question>): seq<Question> {
    seq(|qs|, k requires 0 <= k < |qs| => if Assumable(qs, k) then AssumedQuestion(qs[k]) else qs[k])
  }

  function IdsOf(qs: seq<Question>): set<string> {
    set q | q in qs :: q.id
  }

  lemma {:induction false} PendingMembers(qs: seq<Question>)
    ensures forall q :: q in PendingOf(qs) <==> q in qs && q.status == Pending
  {
    if qs != [] {
      PendingMembers(qs[..|qs| - 1]);
      assert qs == qs[..|qs| - 1] + [qs[|qs| - 1]];
    }
  }

  lemma AllAssumed(qs: seq<Question>)
    ensures AssumedIn(qs, IdsOf(PendingOf(qs))) == AssumedAll(qs)
  {
    PendingMembers(qs);
    hide FirstAt, AssumedQuestion, PendingOf;
    forall k | 0 <= k < |qs| && Assumable(qs, k)
      ensures qs[k].id in IdsOf(PendingOf(qs))
    {
      assert qs[k] in PendingOf(qs);
    }
  }

  /** Settling changes ids nowhere. */
  lemma FirstAtSame(a: seq<Question>, b: seq<Question>, id: string)
    requires |a| == |b| && forall i :: 0 <= i < |a| ==> a[i].id == b[i].id
    ensures FirstAt(a, id) == FirstAt(b, id)
  {
    hide FirstAt;
    var x, y := FirstAt(a, id), FirstAt(b, id);
    assert x.Some? ==> b[x.value].id == id;
    assert y.Some? ==> a[y.value].id == id;
  }

  lemma {:induction false} FirstPendingWithId(qs: seq<Question>, k: nat, i: nat)
    requires k < |qs| && Assumable(qs, k)
    requires i < |PendingOf(qs)| && PendingOf(qs)[i].id == qs[k].id && qs[k].id !in IdsOf(PendingOf(qs)[..i])
    ensures PendingOf(qs)[i] == qs[k]
  {
    var n := |qs| - 1;
    hide FirstAt;
    if k == n {
      PendingMembers(qs[..n]);
    } else if i < |PendingOf(qs[..n])| {
      assert PendingOf(qs)[..i] == PendingOf(qs[..n])[..i];
      FirstAtFront(qs, k);
      FirstPendingWithId(qs[..n], k, i);
    } else {
      PendingMembers(qs[..n]);
      PendingEarlier(qs, k, i);
    }
  }

  lemma PendingEarlier(qs: seq<Question>, k: nat, i: nat)
    requires k < |qs| - 1 && qs[k].status == Pending && i == |PendingOf(qs[..|qs| - 1])| && i < |PendingOf(qs)|
    ensures qs[k].id in IdsOf(PendingOf(qs)[..i])
  {
    var n := |qs| - 1;
    PendingMembers(qs[..n]);
    assert qs[..n][k] in PendingOf(qs[..n]);
    assert PendingOf(qs)[..i] == PendingOf(qs[..n]);
  }

  lemma FirstAtIs(qs: seq<Question>, id: string, k: nat)
    requires k < |qs| && qs[k].id == id && forall i :: 0 <= i < k ==> qs[i].id != id
    ensures FirstAt(qs, id) == Some(k)
  {
    hide FirstAt;
    var r := FirstAt(qs, id);
  }

  lemma FirstAtFront(qs: seq<Question>, k: nat)
    requires k < |qs| - 1 && FirstAt(qs, qs[k].id) == Some(k)
    ensures FirstAt(qs[..|qs| - 1], qs[k].id) == Some(k)
  {
    hide FirstAt;
    FirstAtIs(qs[..|qs| - 1], qs[k].id, k);
  }

  /** One more pending question is settled. */
  lemma AssumeNext(qs: seq<Question>, pending: seq<Question>, i: nat)
    requires pending == PendingOf(qs) && i < |pending|
    ensures var now := AssumedIn(qs, IdsOf(pending[..i]));
            Settle(now, pending[i].id, ByAssumption(AssumptionFor(pending[i]))) == AssumedIn(qs, IdsOf(pending[..i + 1]))
  {
    hide FirstAt, PendingOf, AssumptionFor;
    var ids, id := IdsOf(pending[..i]), pending[i].id;
    var now, next := AssumedIn(qs, ids), AssumedIn(qs, IdsOf(pending[..i + 1]));
    assert IdsOf(pending[..i + 1]) == ids + {id} by {
      assert pending[..i + 1] == pending[..i] + [pending[i]];
    }
    FirstAtSame(qs, now, id);
    var k := FirstAt(qs, id);
    forall j | 0 <= j < |qs| && Some(j) != k
      ensures next[j] == now[j]
    {
      if Assumable(qs, j) {
        assert qs[j].id != id;
      }
    }
    if k.Some? && Assumable(qs, k.value) && id !in ids {
      FirstPendingWithId(qs, k.value, i);
    }
  }

  lemma OnlyPendingChange(qs: seq<Question>, id: string, s: Settlement, kept: seq<Question>)
    requires forall q :: q in kept ==> q in qs && q.status == Assumed
    ensures forall q :: q in kept ==> q in Settle(qs, id, s)
  {
    hide FirstAt;
    forall q | q in kept
      ensures q in Settle(qs, id, s)
    {
      var i :| 0 <= i < |qs| && qs[i] == q;
      assert Settle(qs, id, s)[i] == q;
    }
  }

  // ----- the store

  class FileQuestionStore {
    var files: map<string, seq<Question>>

    /** What the file of a feature holds; a missing file holds nothing. */
    function Load(feature: string): seq<Question>
      reads this
    {
      if feature in files then files[feature] else []
    }

    /** No other feature's file is touched. */
    twostate predicate Wrote(feature: string, qs: seq<Question>)
      reads this
    {
      && Load(feature) == qs
      && forall f :: f != feature ==> Load(f) == old(Load(f))
    }

    constructor ()
      ensures files == map[]
    {
      files := map[];
    }

    method CreateQuestion(feature: string, text: string, options: seq<string>) returns (q: Question)
      modifies this
      ensures Wrote(feature, Ask(old(Load(feature)), text, options))
      ensures q == Load(feature)[|Load(feature)| - 1]
    {
      var questions := Load(feature);
      var id := NextQuestionId(questions);
      q := New(id, text, options);
      files := files[feature := questions + [q]];
    }

    /** AnswerQuestion and AssumeQuestion: the first question with the id, if it is pending. */
    method SettleQuestion(feature: string, id: string, s: Settlement) returns (r: Reply)
      modifies this
      ensures Wrote(feature, Settle(old(Load(feature)), id, s))
      ensures r == match FirstAt(old(Load(feature)), id)
                   case None => NotFound
                   case Some(k) =>
                     if old(Load(feature))[k].status == Pending then Settled(Load(feature)[k])
                     else Conflict(old(Load(feature))[k].status)
    {
      var questions := Load(feature);
      for i := 0 to |questions|
        invariant forall j :: 0 <= j < i ==> questions[j].id != id
      {
        var q := questions[i];
        if q.id == id {
          if q.status != Pending {
            return Conflict(q.status);
          }
          q := Closed(q, s);
          questions := questions[i := q];
          files := files[feature := questions];
          return Settled(q);
        }
      }
      return NotFound;
    }

    method ListPending(feature: string) returns (pending: seq<Question>)
      ensures pending == PendingOf(Load(feature))
    {
      var questions := Load(feature);
      pending := [];
      for i := 0 to |questions|
        invariant pending == PendingOf(questions[..i])
      {
        assert questions[..i + 1][..i] == questions[..i];
        if questions[i].status == Pending {
          pending := pending + [questions[i]];
        }
      }
      assert questions[..|questions|] == questions;
    }

    method PendingCount(feature: string) returns (count: nat)
      ensures count == CountOf(Load(feature), Pending)
    {
      var questions := Load(feature);
      count := 0;
      for i := 0 to |questions|
        invariant count == CountOf(questions[..i], Pending)
      {
        assert questions[..i + 1][..i] == questions[..i];
        if questions[i].status == Pending {
          count := count + 1;
        }
      }
      assert questions[..|questions|] == questions;
    }

    /** AssumeAllPendingQuestions: each question pending at the start is settled by its own assumption;
        a repeated id settles only the first question that has it. */
    method AssumeAllPending(feature: string) returns (assumed: seq<Question>)
      modifies this
      ensures Wrote(feature, AssumedAll(old(Load(feature))))
      ensures forall q :: q in assumed ==> q in Load(feature) && q.status == Assumed
    {
      hide PendingOf, FirstAt, AssumptionFor, ParseId, PrintId;
      ghost var before := Load(feature);
      var questions := ListPending(feature);
      assumed := [];
      for i := 0 to |questions|
        invariant Load(feature) == AssumedIn(before, IdsOf(questions[..i]))
        invariant forall f :: f != feature ==> Load(f) == old(Load(f))
        invariant forall q :: q in assumed ==> q in Load(feature) && q.status == Assumed
      {
        var q := questions[i];
        ghost var had := Load(feature);
        AssumeNext(before, questions, i);
        var r := SettleQuestion(feature, q.id, ByAssumption(AssumptionFor(q)));
        OnlyPendingChange(had, q.id, ByAssumption(AssumptionFor(q)), assumed);
        if r.Settled? {
          assumed := assumed + [r.question];
        }
      }
      assert questions[..|questions|] == questions;
      AllAssumed(before);
    }

    method DeleteQuestions(feature: string)
      modifies this
      ensures Wrote(feature, [])
    {
      files := files - {feature};
    }
  }
}
