/** What becomes of one stored proposal over a whole run: the part that time and other sessions play. */
module ProposalTheorems {
  import opened Basics
  import opened Text
  import opened TextLemmas
  import opened Allowlist
  import opened Proposals
  import Argv

  // ----- leaving the store

  /** Any decision on the proposal, and any look at it past its time. */
  predicate TakesOut(op: Op, p: Proposal) {
    match op
    case Propose(_, _, _, _) => false
    case Confirm(_, id, _, _) => id == p.id
    case Look(id, now) => id == p.id && now > p.expires
  }

  ghost predicate LeftAlone(ops: seq<Op>, p: Proposal) {
    forall i :: 0 <= i < |ops| ==> !TakesOut(ops[i], p)
  }

  predicate Holds(s: State, p: Proposal) {
    p.id in s.pending && s.pending[p.id] == p
  }

  lemma ApplyHolds(s: State, op: Op, p: Proposal, ttl: int)
    requires p.id < s.issued
    ensures var t := Apply(s, op, ttl);
            && p.id < t.issued
            && (Holds(s, p) ==> (Holds(t, p) <==> !TakesOut(op, p)) && (TakesOut(op, p) ==> p.id !in t.pending))
            && (p.id !in s.pending ==> p.id !in t.pending)
  {
    hide TrimSpace, Lookup, Entry, ArgsOf;
  }

  /** A stored proposal is still there after any operations exactly when none of them took it out, and
      does not come back. */
  lemma {:induction false} HoldsExactlyWhen(s: State, ops: seq<Op>, p: Proposal, ttl: int)
    requires Holds(s, p) && p.id < s.issued
    ensures var t := Run(s, ops, ttl);
            && p.id < t.issued
            && (Holds(t, p) <==> LeftAlone(ops, p)) && (!LeftAlone(ops, p) ==> p.id !in t.pending)
  {
    hide Apply, Holds, TakesOut;
    if ops != [] {
      var n := |ops| - 1;
      HoldsExactlyWhen(s, ops[..n], p, ttl);
      LeftAloneSnoc(ops, p);
      HeldIsPending(Run(s, ops[..n], ttl), p);
      ApplyHolds(Run(s, ops[..n], ttl), ops[n], p, ttl);
      HeldIsPending(Run(s, ops, ttl), p);
    }
  }

  lemma LeftAloneSnoc(ops: seq<Op>, p: Proposal)
    requires ops != []
    ensures LeftAlone(ops, p) <==> LeftAlone(ops[..|ops| - 1], p) && !TakesOut(ops[|ops| - 1], p)
  {
    hide TakesOut;
  }

  lemma HeldIsPending(s: State, p: Proposal)
    ensures Holds(s, p) ==> p.id in s.pending
  {
  }

  lemma {:induction false} RunKeepsInv(s: State, ops: seq<Op>, ttl: int)
    requires Inv(s)
    ensures Inv(Run(s, ops, ttl))
  {
    hide Inv, Apply;
    if ops != [] {
      RunKeepsInv(s, ops[..|ops| - 1], ttl);
      StepKeepsInv(Run(s, ops[..|ops| - 1], ttl), ops[|ops| - 1], ttl);
    }
  }

  lemma PendingFacts(s: State, id: nat)
    requires Inv(s) && id in s.pending
    ensures Holds(s, s.pending[id]) && s.pending[id].id == id < s.issued && !RanBefore(s.log, id)
  {
    hide Safe, WasCreated, RanBefore;
  }

  // ----- time

  /** A proposal that is in the store at some moment of a run, and approved later in its session: it runs
      exactly when nothing in between took it out.  The moment of the approval plays no part, so it may be
      past the proposal's time: only a look past that time would have dropped it. */
  lemma ApprovalIgnoresTheClock(front: seq<Op>, mid: seq<Op>, id: nat, now: int, ttl: int)
    requires id in Run(EMPTY, front, ttl).pending
    ensures var p := Run(EMPTY, front, ttl).pending[id];
            var s := Run(Run(EMPTY, front, ttl), mid, ttl);
            var t := Apply(s, Confirm(p.session, id, true, now), ttl);
            && (LeftAlone(mid, p) ==> t.log == s.log + [Approved(p.session, id, now), Executed(p)] && !RanBefore(s.log, id))
            && (!LeftAlone(mid, p) ==> t == s)
  {
    hide Run, Inv, LeftAlone, RanBefore;
    var s0 := Run(EMPTY, front, ttl);
    var p := s0.pending[id];
    EveryRunIsJustified(front, ttl);
    PendingFacts(s0, id);
    HoldsExactlyWhen(s0, mid, p, ttl);
    RunKeepsInv(s0, mid, ttl);
    if LeftAlone(mid, p) {
      PendingFacts(Run(s0, mid, ttl), id);
    }
  }

  /** Deleting a repository, approved one second after the time of the proposal. */
  lemma ExpiredProposalRuns(ttl: int)
    ensures var ops := [Propose("s", "repo delete r1", false, 0), Confirm("s", 0, true, ttl + 1)];
            var log := Run(EMPTY, ops, ttl).log;
            |log| == 3 && log[2].Executed? && log[2].proposal.kind == Destructive && log[2].proposal.expires == ttl < ttl + 1
  {
    hide Lookup, TrimSpace, ArgsOf;
    var c := "repo delete r1";
    AllowedAsIs(c, 20);
    var front := [Propose("s", c, false, 0)];
    var ops := front + [Confirm("s", 0, true, ttl + 1)];
    assert ops[..1] == front && front[..0] == [];
    assert Run(EMPTY, front, ttl) == Apply(EMPTY, front[0], ttl);
    assert ops == [Propose("s", c, false, 0), Confirm("s", 0, true, ttl + 1)];
  }

  /** A command that begins with the verb of an entry, and ends in no space, is allowed by that entry. */
  lemma AllowedAsIs(c: string, i: nat)
    requires i < COUNT && !Entry(i).signalStyle && MatchPrefix(c, Entry(i).verb) && Trimmed(c)
    ensures TrimSpace(c) == c && Lookup(c) == Some(i)
  {
    hide Entry, TrimSpace, Trimmed, MatchPrefix;
    TrimSpaceSame(c);
    LookupFinds(c, COUNT);
    assert Matches(i, c);
    AtMostOneMatch(i, Lookup(c).value, c);
  }

  // ----- other sessions

  /** The id was issued, its proposal has not run, and it is not in the store. */
  ghost predicate Gone(s: State, id: nat) {
    id < s.issued && id !in s.pending && !RanBefore(s.log, id)
  }

  lemma LogGrows(log: seq<Event>, more: seq<Event>, id: nat)
    requires !RanBefore(log, id) && forall k :: 0 <= k < |more| && more[k].Executed? ==> more[k].proposal.id != id
    ensures !RanBefore(log + more, id)
  {
    RanBeforeMore(log, more, id);
  }

  lemma ApplyKeepsGone(s: State, op: Op, id: nat, ttl: int)
    requires Inv(s) && Gone(s, id)
    ensures Gone(Apply(s, op, ttl), id)
  {
    hide TrimSpace, Lookup, Entry, ArgsOf, Safe, WasCreated, RanBefore;
    match op
    case Propose(session, command, trust, now) =>
      var cmd := TrimSpace(command);
      var entry := Lookup(cmd);
      LogGrows(s.log, [Proposals.Event.Refused(cmd)], id);
      if entry.Some? {
        var p := Made(s.issued, session, cmd, entry.value, trust, now, ttl);
        LogGrows(s.log, [Created(p, trust)], id);
        LogGrows(s.log, [Created(p, trust), Executed(p)], id);
      }
    case Confirm(session, other, approved, now) =>
      LogGrows(s.log, [Rejected(session, other, now)], id);
      if other in s.pending {
        var p := s.pending[other];
        LogGrows(s.log, [Approved(session, other, now), Executed(p)], id);
      }
    case Look(_, _) =>
  }

  lemma {:induction false} GoneForEver(s: State, ops: seq<Op>, id: nat, ttl: int)
    requires Inv(s) && Gone(s, id)
    ensures Gone(Run(s, ops, ttl), id)
  {
    hide Inv, Gone, Apply;
    if ops != [] {
      var n := |ops| - 1;
      GoneForEver(s, ops[..n], id, ttl);
      RunKeepsInv(s, ops[..n], ttl);
      ApplyKeepsGone(Run(s, ops[..n], ttl), ops[n], id, ttl);
    }
  }

  /** A decision from another session takes the proposal out and runs nothing; whatever its owner does
      afterwards, it never runs. */
  lemma ForeignDecisionDiscards(front: seq<Op>, later: seq<Op>, session: string, id: nat, approved: bool, now: int, ttl: int)
    requires id in Run(EMPTY, front, ttl).pending && Run(EMPTY, front, ttl).pending[id].session != session
    ensures var s := Run(EMPTY, front, ttl);
            var t := Apply(s, Confirm(session, id, approved, now), ttl);
            && t == s.(pending := s.pending - {id})
            && Gone(Run(t, later, ttl), id)
  {
    hide Run, Inv, RanBefore;
    var s := Run(EMPTY, front, ttl);
    var op := Confirm(session, id, approved, now);
    EveryRunIsJustified(front, ttl);
    PendingFacts(s, id);
    StepKeepsInv(s, op, ttl);
    GoneForEver(Apply(s, op, ttl), later, id, ttl);
  }

  /** So does a refusal, and so does a look past the proposal's time. */
  lemma TakenOutNeverRuns(front: seq<Op>, op: Op, later: seq<Op>, id: nat, ttl: int)
    requires var s := Run(EMPTY, front, ttl); id in s.pending && TakesOut(op, s.pending[id])
    requires op.Confirm? && op.approved ==> op.session != Run(EMPTY, front, ttl).pending[id].session
    ensures Gone(Run(Apply(Run(EMPTY, front, ttl), op, ttl), later, ttl), id)
  {
    hide Run, Inv, RanBefore;
    var s := Run(EMPTY, front, ttl);
    EveryRunIsJustified(front, ttl);
    PendingFacts(s, id);
    StepKeepsInv(s, op, ttl);
    if op.Confirm? {
      LogGrows(s.log, [Rejected(op.session, id, op.now)], id);
    }
    GoneForEver(Apply(s, op, ttl), later, id, ttl);
  }

  // ----- proposing

  /** A proposed command is refused when no entry allows it; a read-only one, and a mutating one with trust on,
      runs at once; any other is stored, to expire when the time to live has passed. */
  lemma ProposedExactly(s: State, session: string, command: string, trust: bool, now: int, ttl: int)
    ensures var t := Apply(s, Propose(session, command, trust, now), ttl);
            var c := TrimSpace(command); var e := Lookup(c);
            if c == "" || e.None? then t == s.(log := s.log + [Proposals.Event.Refused(c)])
            else
              exists p: Proposal ::
                && p.id == s.issued && p.session == session && p.command == c && p.kind == Entry(e.value).kind
                && p.expires == now + ttl
                && if p.kind == ReadOnly || (p.kind == Mutating && trust)
                   then t == State(s.pending, s.issued + 1, s.log + [Created(p, trust), Executed(p)]) && p.token == None
                   else t == State(s.pending[s.issued := p], s.issued + 2, s.log + [Created(p, trust)]) && p.token == Some(s.issued + 1)
  {
    hide TrimSpace, Lookup, Entry, ArgsOf;
    var c := TrimSpace(command);
    var e := Lookup(c);
    if c != "" && e.Some? {
      var p := Made(s.issued, session, c, e.value, trust, now, ttl);
      assert p.id == s.issued;
    }
  }
}
