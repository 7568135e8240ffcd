/** What happens to the operations an expert proposes: run at once, held until the user decides, or refused.

    The clock, the trust setting and the subprocess are outside: times and trust are inputs, and running
    an operation is an entry in the log. */
module Proposals {
  import opened Basics
  import opened Text
  import opened Allowlist
  import opened ToolCalls
  import Argv
  import TextLemmas

  datatype Proposal = Proposal(
    id: nat,
    session: string,
    command: string,
    kind: Class,
    token: Option<nat>,
    args: seq<string>,
    expires: int)

  /** Only a proposal that waits for the user carries a token. */
  predicate NeedsConfirm(p: Proposal) {
    p.token.Some?
  }

  datatype Event =
    | Refused(command: string)
    | Created(proposal: Proposal, trust: bool)
    | Approved(session: string, id: nat, now: int)
    | Rejected(session: string, id: nat, now: int)
    | Executed(proposal: Proposal)

  datatype State = State(pending: map<nat, Proposal>, issued: nat, log: seq<Event>)

  const EMPTY := State(map[], 0, [])

  // ----- one operation

  predicate Held(kind: Class, trust: bool) {
    kind == Destructive || (kind == Mutating && !trust)
  }

  function ArgsOf(entry: nat, cmd: string): seq<string>
    requires entry < COUNT
  {
    var v := Entry(entry);
    Argv.Arguments(if v.signalStyle then cmd else TrimPrefix(TrimSpace(cmd), v.verb))
  }

  /** The proposal for an allowed command; ids and tokens are issued in order. */
  function Made(issued: nat, session: string, cmd: string, entry: nat, trust: bool, now: int, ttl: int): Proposal
    requires entry < COUNT
  {
    var kind := Entry(entry).kind;
    Proposal(issued, session, cmd, kind, if Held(kind, trust) then Some(issued + 1) else None, ArgsOf(entry, cmd), now + ttl)
  }

  datatype Op =
    | Propose(session: string, command: string, trust: bool, now: int)
    | Confirm(session: string, id: nat, approved: bool, now: int)
    | Look(id: nat, now: int)

  function Apply(s: State, op: Op, ttl: int): State {
    match op
    case Propose(session, command, trust, now) =>
      var cmd := TrimSpace(command);
      var entry := Lookup(cmd);
      if cmd == "" || entry.None? then s.(log := s.log + [Refused(cmd)])
      else
        var p := Made(s.issued, session, cmd, entry.value, trust, now, ttl);
        if NeedsConfirm(p) then State(s.pending[p.id := p], s.issued + 2, s.log + [Created(p, trust)])
        else State(s.pending, s.issued + 1, s.log + [Created(p, trust), Executed(p)])
    case Confirm(session, id, approved, now) =>
      if id !in s.pending then s
      else
        var p := s.pending[id];
        var rest := s.(pending := s.pending - {id});
        if p.session != session then rest
        else if !approved then rest.(log := s.log + [Rejected(session, id, now)])
        else rest.(log := s.log + [Approved(session, id, now), Executed(p)])
    case Look(id, now) =>
      if id in s.pending && now > s.pending[id].expires then s.(pending := s.pending - {id}) else s
  }

  function Run(s: State, ops: seq<Op>, ttl: int): State {
    if ops == [] then s else Apply(Run(s, ops[..|ops| - 1], ttl), ops[|ops| - 1], ttl)
  }

  // ----- the store

  class ProposalStore {
    var proposals: map<nat, Proposal>
    var issued: nat
    const ttl: int

    /** A time to live that is not positive means five minutes, in seconds. */
    constructor (ttl: int)
      ensures proposals == map[] && issued == 0
      ensures this.ttl > 0 && this.ttl == if ttl > 0 then ttl else 300
    {
      proposals, issued := map[], 0;
      this.ttl := if ttl <= 0 then 300 else ttl;
    }

    method NewProposalId() returns (id: nat)
      modifies this`issued
      ensures id == old(issued) && issued == old(issued) + 1
    {
      id := issued;
      issued := issued + 1;
    }

    /** Nothing for a command that is empty or not allowed; only held proposals are stored. */
    method Create(session: string, command: string, trust: bool, now: int) returns (r: Option<Proposal>)
      modifies this
      ensures var cmd := TrimSpace(command);
              var entry := Lookup(cmd);
              if cmd == "" || entry.None? then r == None && proposals == old(proposals) && issued == old(issued)
              else
                && r == Some(Made(old(issued), session, cmd, entry.value, trust, now, ttl))
                && issued == old(issued) + (if NeedsConfirm(r.value) then 2 else 1)
                && proposals == if NeedsConfirm(r.value) then old(proposals)[r.value.id := r.value] else old(proposals)
    {
      hide TrimSpace, Lookup, Entry, Argv.Arguments;
      var cmd := TrimSpace(command);
      if cmd == "" {
        return None;
      }
      TrimTwice(command);
      var v := FindVerb(cmd);
      if v.None? {
        return None;
      }
      var e := Entry(v.value);
      var args;
      if e.signalStyle {
        args := Argv.ParseArgs(cmd);
      } else {
        args := Argv.ParseArgs(TrimPrefix(TrimSpace(cmd), e.verb));
      }
      var id := NewProposalId();
      if e.kind == ReadOnly || (e.kind == Mutating && trust) {
        return Some(Proposal(id, session, cmd, e.kind, None, args, now + ttl));
      }
      var token := NewProposalId();
      var p := Proposal(id, session, cmd, e.kind, Some(token), args, now + ttl);
      proposals := proposals[p.id := p];
      return Some(p);
    }

    /** The stored proposal; one past its time is dropped. */
    method Get(id: nat, now: int) returns (r: Option<Proposal>)
      modifies this`proposals
      ensures r == if id in old(proposals) && now <= old(proposals)[id].expires then Some(old(proposals)[id]) else None
      ensures proposals == if id in old(proposals) && now > old(proposals)[id].expires then old(proposals) - {id} else old(proposals)
    {
      if id !in proposals {
        return None;
      }
      var p := proposals[id];
      if now > p.expires {
        proposals := proposals - {id};
        return None;
      }
      return Some(p);
    }

    /** Takes the proposal out. */
    method Resolve(id: nat) returns (r: Option<Proposal>)
      modifies this`proposals
      ensures r == if id in old(proposals) then Some(old(proposals)[id]) else None
      ensures proposals == old(proposals) - {id}
    {
      if id !in proposals {
        assert proposals - {id} == proposals;
        return None;
      }
      r := Some(proposals[id]);
      proposals := proposals - {id};
    }
  }

  lemma TrimTwice(s: string)
    ensures TrimSpace(TrimSpace(s)) == TrimSpace(s)
  {
    TrimIsTrimmed(s);
    TextLemmas.TrimSpaceSame(TrimSpace(s));
  }

  // ----- the chat service

  class Service {
    const store: ProposalStore
    var log: seq<Event>

    ghost function View(): State
      reads this, store
    {
      State(store.proposals, store.issued, log)
    }

    constructor (ttl: int)
      ensures fresh(store) && View() == EMPTY && store.ttl > 0
    {
      store := new ProposalStore(ttl);
      log := [];
    }

    /** One tool call of an expert's answer. */
    method RouteToolCall(session: string, command: string, trust: bool, now: int)
      modifies this, store
      ensures View() == Apply(old(View()), Propose(session, command, trust, now), store.ttl)
    {
      hide TrimSpace, Lookup, Entry, ArgsOf;
      var proposal := store.Create(session, command, trust, now);
      if proposal.None? {
        log := log + [Refused(TrimSpace(command))];
      } else {
        log := log + [Created(proposal.value, trust)];
        if !NeedsConfirm(proposal.value) {
          log := log + [Executed(proposal.value)];
        }
      }
    }

    /** The tool-call loop of SendMessage. */
    method RouteToolCalls(session: string, calls: seq<ToolCall>, trust: nat -> bool, now: nat -> int)
      modifies this, store
      ensures View() == Run(old(View()), Proposes(session, calls, trust, now), store.ttl)
    {
      hide Apply;
      ghost var before := View();
      for i := 0 to |calls|
        invariant View() == Run(before, Proposes(session, calls[..i], trust, now), store.ttl)
      {
        RouteToolCall(session, calls[i].verb + " " + calls[i].args, trust(i), now(i));
        assert Proposes(session, calls[..i + 1], trust, now)[..i] == Proposes(session, calls[..i], trust, now);
      }
      assert calls[..|calls|] == calls;
    }

    /** The user's decision at a time that is only recorded. The proposal is gone afterwards, whoever
        asked; it runs only when approved in its own session. */
    method ConfirmProposal(session: string, id: nat, approved: bool, now: int) returns (executed: bool)
      modifies this, store
      ensures View() == Apply(old(View()), Confirm(session, id, approved, now), store.ttl)
      ensures executed <==> approved && id in old(store.proposals) && old(store.proposals)[id].session == session
    {
      var p := store.Resolve(id);
      if p.None? || p.value.session != session {
        return false;
      }
      if !approved {
        log := log + [Rejected(session, id, now)];
        return false;
      }
      log := log + [Approved(session, id, now)] + [Executed(p.value)];
      return true;
    }
  }

  function Proposes(session: string, calls: seq<ToolCall>, trust: nat -> bool, now: nat -> int): seq<Op> {
    seq(|calls|, i requires 0 <= i < |calls| => Propose(session, calls[i].verb + " " + calls[i].args, trust(i), now(i)))
  }

  // ----- safety of every run

  predicate ApprovedAt(log: seq<Event>, k: nat, p: Proposal)
    requires k < |log|
  {
    log[k].Approved? && log[k].session == p.session && log[k].id == p.id
  }

  /** Whether an execution was allowed: by what came immediately before it. */
  ghost predicate Justified(log: seq<Event>, k: nat)
    requires k < |log| && log[k].Executed?
  {
    var p := log[k].proposal;
    && k > 0
    && if NeedsConfirm(p) then
         ApprovedAt(log, k - 1, p) && exists j, trust :: 0 <= j < k - 1 && log[j] == Created(p, trust)
       else
         exists trust :: log[k - 1] == Created(p, trust) && (p.kind == ReadOnly || (p.kind == Mutating && trust))
  }

  ghost predicate Safe(log: seq<Event>) {
    && (forall k :: 0 <= k < |log| && log[k].Executed? ==> Justified(log, k))
    && (forall i, k :: 0 <= i < k < |log| && log[i].Executed? && log[k].Executed? ==>
          log[i].proposal.id != log[k].proposal.id)
    && (forall k :: 0 <= k < |log| && log[k].Created? ==>
          (NeedsConfirm(log[k].proposal) <==> Held(log[k].proposal.kind, log[k].trust)))
  }

  ghost predicate RanBefore(log: seq<Event>, id: nat) {
    exists k :: 0 <= k < |log| && log[k].Executed? && log[k].proposal.id == id
  }

  ghost predicate WasCreated(log: seq<Event>, p: Proposal) {
    exists k, trust :: 0 <= k < |log| && log[k] == Created(p, trust)
  }

  /** Each pending proposal was created, waits for the user, and has not run; ids still to be issued are new. */
  ghost predicate Inv(s: State) {
    && Safe(s.log)
    && (forall id :: id in s.pending ==>
          var p := s.pending[id];
          p.id == id < s.issued && NeedsConfirm(p) && WasCreated(s.log, p) && !RanBefore(s.log, id))
    && forall k :: 0 <= k < |s.log| && s.log[k].Executed? ==> s.log[k].proposal.id < s.issued
  }

  lemma RanBeforeMore(log: seq<Event>, more: seq<Event>, id: nat)
    ensures RanBefore(log + more, id) <==> RanBefore(log, id) || RanBefore(more, id)
  {
    var both := log + more;
    if RanBefore(log, id) {
      var k :| 0 <= k < |log| && log[k].Executed? && log[k].proposal.id == id;
      assert both[k] == log[k];
    }
    if RanBefore(more, id) {
      var k :| 0 <= k < |more| && more[k].Executed? && more[k].proposal.id == id;
      assert both[|log| + k] == more[k];
    }
  }

  lemma WasCreatedMore(log: seq<Event>, more: seq<Event>, p: Proposal)
    requires WasCreated(log, p)
    ensures WasCreated(log + more, p)
  {
    var k, trust :| 0 <= k < |log| && log[k] == Created(p, trust);
    assert (log + more)[k] == Created(p, trust);
  }

  lemma JustifiedMore(log: seq<Event>, e: Event, k: nat)
    requires k < |log| && log[k].Executed? && Justified(log, k)
    ensures Justified(log + [e], k)
  {
    var more := log + [e];
    assert forall j :: 0 <= j < |log| ==> more[j] == log[j];
    var p := log[k].proposal;
    if NeedsConfirm(p) {
      var j, trust :| 0 <= j < k - 1 && log[j] == Created(p, trust);
      assert more[j] == Created(p, trust);
    }
  }

  lemma SafeMore(log: seq<Event>, e: Event)
    requires Safe(log)
    requires e.Created? ==> (NeedsConfirm(e.proposal) <==> Held(e.proposal.kind, e.trust))
    requires e.Executed? ==> !RanBefore(log, e.proposal.id) && Justified(log + [e], |log|)
    ensures Safe(log + [e])
  {
    hide Justified, NeedsConfirm, Held;
    var more := log + [e];
    assert forall j :: 0 <= j < |log| ==> more[j] == log[j];
    forall k | 0 <= k < |more| && more[k].Executed?
      ensures Justified(more, k)
    {
      if k < |log| {
        JustifiedMore(log, e, k);
      }
    }
    forall i, k | 0 <= i < k < |more| && more[i].Executed? && more[k].Executed?
      ensures more[i].proposal.id != more[k].proposal.id
    {
      if k == |log| {
        assert log[i].Executed?;
      }
    }
  }

  lemma InvQuiet(s: State, e: Event, issued: nat)
    requires Inv(s) && !e.Executed? && issued >= s.issued
    requires e.Created? ==> (NeedsConfirm(e.proposal) <==> Held(e.proposal.kind, e.trust))
    ensures Inv(State(s.pending, issued, s.log + [e]))
  {
    hide Safe, NeedsConfirm, Held;
    SafeMore(s.log, e);
    forall id | id in s.pending
      ensures WasCreated(s.log + [e], s.pending[id]) && !RanBefore(s.log + [e], id)
    {
      WasCreatedMore(s.log, [e], s.pending[id]);
      RanBeforeMore(s.log, [e], id);
    }
    hide WasCreated, RanBefore;
    assert forall k :: 0 <= k < |s.log| ==> (s.log + [e])[k] == s.log[k];
  }

  lemma InvExecuted(s: State, p: Proposal)
    requires Inv(s) && p.id < s.issued && p.id !in s.pending && !RanBefore(s.log, p.id)
    requires Justified(s.log + [Executed(p)], |s.log|)
    ensures Inv(s.(log := s.log + [Executed(p)]))
  {
    hide Safe, NeedsConfirm, Justified;
    var e := Executed(p);
    SafeMore(s.log, e);
    forall id | id in s.pending
      ensures WasCreated(s.log + [e], s.pending[id]) && !RanBefore(s.log + [e], id)
    {
      WasCreatedMore(s.log, [e], s.pending[id]);
      RanBeforeMore(s.log, [e], id);
      assert !RanBefore([e], id);
    }
    hide WasCreated, RanBefore;
    assert forall k :: 0 <= k < |s.log| ==> (s.log + [e])[k] == s.log[k];
  }

  lemma InvFewer(s: State, id: nat)
    requires Inv(s)
    ensures Inv(s.(pending := s.pending - {id}))
  {
    hide Safe, WasCreated, RanBefore, NeedsConfirm;
  }

  lemma InvStored(s: State, p: Proposal)
    requires Inv(s) && p.id < s.issued && NeedsConfirm(p) && WasCreated(s.log, p) && !RanBefore(s.log, p.id)
    ensures Inv(s.(pending := s.pending[p.id := p]))
  {
    hide Safe, WasCreated, RanBefore, NeedsConfirm;
  }

  lemma NewIdHasNotRun(s: State)
    requires Inv(s)
    ensures !RanBefore(s.log, s.issued) && s.issued !in s.pending
  {
    hide Safe, WasCreated, NeedsConfirm;
  }

  lemma MadeFacts(issued: nat, session: string, cmd: string, entry: nat, trust: bool, now: int, ttl: int)
    requires entry < COUNT
    ensures var p := Made(issued, session, cmd, entry, trust, now, ttl);
            p.id == issued && (NeedsConfirm(p) <==> Held(p.kind, trust))
  {
    hide Entry, ArgsOf;
  }

  lemma ProposeKeepsInv(s: State, p: Proposal, trust: bool)
    requires Inv(s) && p.id == s.issued && (NeedsConfirm(p) <==> Held(p.kind, trust))
    ensures NeedsConfirm(p) ==> Inv(State(s.pending[p.id := p], s.issued + 2, s.log + [Created(p, trust)]))
    ensures !NeedsConfirm(p) ==> Inv(State(s.pending, s.issued + 1, s.log + [Created(p, trust), Executed(p)]))
  {
    hide Inv;
    var e := Created(p, trust);
    NewIdHasNotRun(s);
    var quiet := State(s.pending, s.issued + (if NeedsConfirm(p) then 2 else 1), s.log + [e]);
    InvQuiet(s, e, quiet.issued);
    RanBeforeMore(s.log, [e], p.id);
    hide RanBefore;
    assert quiet.log[|s.log|] == e;
    if NeedsConfirm(p) {
      InvStored(quiet, p);
    } else {
      assert quiet.log + [Executed(p)] == s.log + [e, Executed(p)];
      InvExecuted(quiet, p);
    }
  }

  lemma ConfirmKeepsInv(s: State, id: nat, now: int)
    requires Inv(s) && id in s.pending
    ensures var p := s.pending[id]; var rest := s.pending - {id};
            Inv(State(rest, s.issued, s.log + [Approved(p.session, id, now), Executed(p)]))
  {
    var p := s.pending[id];
    assert p.id == id && NeedsConfirm(p) && WasCreated(s.log, p) && !RanBefore(s.log, id) && id < s.issued;
    hide Inv;
    var rest := s.(pending := s.pending - {id});
    var e := Approved(p.session, id, now);
    InvFewer(s, id);
    InvQuiet(rest, e, s.issued);
    RanBeforeMore(s.log, [e], id);
    hide RanBefore;
    var quiet := rest.(log := s.log + [e]);
    assert quiet.log + [Executed(p)] == s.log + [e, Executed(p)];
    assert Justified(quiet.log + [Executed(p)], |quiet.log|) by {
      var k, trust :| 0 <= k < |s.log| && s.log[k] == Created(p, trust);
      var all := quiet.log + [Executed(p)];
      assert all[k] == Created(p, trust) && all[|s.log|] == e && k < |s.log|;
    }
    InvExecuted(quiet, p);
  }

  lemma StepKeepsInv(s: State, op: Op, ttl: int)
    requires Inv(s)
    ensures Inv(Apply(s, op, ttl))
  {
    hide Inv, Made, Lookup, TrimSpace, NeedsConfirm, Held;
    match op
    case Propose(session, command, trust, now) =>
      var cmd := TrimSpace(command);
      var entry := Lookup(cmd);
      if cmd == "" || entry.None? {
        InvQuiet(s, Refused(cmd), s.issued);
      } else {
        MadeFacts(s.issued, session, cmd, entry.value, trust, now, ttl);
        ProposeKeepsInv(s, Made(s.issued, session, cmd, entry.value, trust, now, ttl), trust);
      }
    case Confirm(session, id, approved, now) =>
      if id in s.pending {
        InvFewer(s, id);
        if s.pending[id].session == session {
          ConfirmKeepsInv(s, id, now);
          InvQuiet(s.(pending := s.pending - {id}), Rejected(session, id, now), s.issued);
        }
      }
    case Look(id, _) =>
      InvFewer(s, id);
  }

  /** Over every run from an empty store: nothing runs without being created; a held proposal runs only
      right after an approval of its own id in its own session; any other runs only when it is read-only,
      or mutating with trust on; and none runs twice. */
  lemma {:induction false} EveryRunIsJustified(ops: seq<Op>, ttl: int)
    ensures Inv(Run(EMPTY, ops, ttl)) && Safe(Run(EMPTY, ops, ttl).log)
  {
    hide Apply, Safe;
    if ops == [] {
      assert Safe([]) by {
        EmptyIsSafe();
      }
    } else {
      EveryRunIsJustified(ops[..|ops| - 1], ttl);
      StepKeepsInv(Run(EMPTY, ops[..|ops| - 1], ttl), ops[|ops| - 1], ttl);
    }
  }

  lemma EmptyIsSafe()
    ensures Safe([])
  {
  }

  /** What a reader of the log may conclude about one execution.  The kind is that of the entry that allowed
      the command. */
  lemma DestructiveNeedsApproval(ops: seq<Op>, ttl: int, k: nat)
    requires var log := Run(EMPTY, ops, ttl).log; k < |log| && log[k].Executed?
    ensures var log := Run(EMPTY, ops, ttl).log; var p := log[k].proposal;
            && k > 0
            && (p.kind == Destructive ==> ApprovedAt(log, k - 1, p))
            && (p.kind == Mutating ==> ApprovedAt(log, k - 1, p) || log[k - 1] == Created(p, true))
            && forall i :: 0 <= i < |log| && i != k && log[i].Executed? ==> log[i].proposal.id != p.id
  {
    hide Run, Inv;
    EveryRunIsJustified(ops, ttl);
    var log := Run(EMPTY, ops, ttl).log;
    assert Justified(log, k);
    var p := log[k].proposal;
    if !NeedsConfirm(p) {
      var trust :| log[k - 1] == Created(p, trust) && (p.kind == ReadOnly || (p.kind == Mutating && trust));
    }
  }
}
