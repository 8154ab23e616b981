/** Whole calls are interleavings too: every run of Lifecycle is a run of InvitationSteps in which calls do not
    overlap, so what InvitationSafety proves of all interleavings holds of it. */
module InvitationSerial {
  import opened Tables
  import opened Connections
  import opened InvitationSteps
  import L = Lifecycle

  lemma RevokeIsSolo(w: World, now: Time, email: string, pick: nat)
    ensures L.Solo(w, now, RevokeFind(email), pick, 2)
         == (L.Revoke(w, now, email, pick).0, Finished(L.Revoke(w, now, email, pick).1))
  {
    var (w1, c1) := Next(w, now, RevokeFind(email), pick);
    assert L.Solo(w, now, RevokeFind(email), pick, 2) == L.Solo(w1, now, c1, pick, 1);
  }

  lemma CleanupIsSolo(w: World, now: Time, pick: nat)
    ensures L.Solo(w, now, CleanupStart, pick, 2) == (L.Cleanup(w, now), Finished(CleanupFinished))
  {
    assert L.Solo(w, now, CleanupStart, pick, 2) == L.Solo(w, now, CleanupUpdate(now), pick, 1);
  }

  /** The instant a whole call happens at; making a tenant takes no part in time. */
  function TimeOf(op: L.Op, otherwise: Time): Time {
    if op.TenantOp? then otherwise else op.at
  }

  function Clock(start: Time, ops: seq<L.Op>): Time {
    if ops == [] then start else TimeOf(ops[|ops| - 1], Clock(start, ops[..|ops| - 1]))
  }

  /** The clock never runs backwards. */
  predicate InOrder(start: Time, ops: seq<L.Op>) {
    ops == [] ||
    (InOrder(start, ops[..|ops| - 1]) && Clock(start, ops[..|ops| - 1]) <= Clock(start, ops))
  }

  /** The call a whole operation makes, which of the rows it is to pick, and how many awaits it has at most. */
  function CallOf(op: L.Op): (Call, nat, nat)
    requires !op.TenantOp?
  {
    match op
    case InviteOp(_, r) => (InviteFind(r), 0, 4)
    case AcceptOp(_, r, pick) => (AcceptFind(r), pick, 6)
    case RevokeOp(_, email, pick) => (RevokeFind(email), pick, 2)
    case CleanupOp(_) => (CleanupStart, 0, 2)
  }

  lemma OpIsSolo(w: World, op: L.Op)
    requires !op.TenantOp?
    ensures var (call, pick, awaits) := CallOf(op); L.Solo(w, op.at, call, pick, awaits).0 == L.Do(w, op)
  {
    hide L.Solo, L.Invite, L.Accept, L.Revoke, L.Cleanup;
    match op
    case InviteOp(at, r) => L.InviteIsSolo(w, at, r, 0);
    case AcceptOp(at, r, pick) => L.AcceptIsSolo(w, at, r, pick);
    case RevokeOp(at, email, pick) => RevokeIsSolo(w, at, email, pick);
    case CleanupOp(at) => CleanupIsSolo(w, at, 0);
  }

  lemma More(now: Time, events: seq<Event>, e: Event) returns (more: seq<Event>)
    ensures Run(now, more) == Step(Run(now, events), e)
  {
    more := events + [e];
    assert more[..|more| - 1] == events;
  }

  /** Advancing one call until it is done runs it alone. */
  lemma {:induction false} Alone(now: Time, events: seq<Event>, c: nat, pick: nat, awaits: nat)
    returns (more: seq<Event>)
    requires c < |Run(now, events).calls|
    ensures var s := Run(now, events);
            var (w', call') := L.Solo(s.w, s.now, s.calls[c], pick, awaits);
            Run(now, more) == s.(w := w', calls := s.calls[c := call'])
    decreases awaits
  {
    hide Next, Run;
    if awaits == 0 {
      more := events;
    } else {
      more := More(now, events, Advance(c, pick));
      more := Alone(now, more, c, pick, awaits - 1);
    }
  }

  lemma EmptyRun(start: Time)
    ensures Run(start, []) == Start(start)
  {
  }

  lemma OneMoreOp(start: Time, events: seq<Event>, op: L.Op) returns (more: seq<Event>)
    requires Run(start, events).now <= TimeOf(op, Run(start, events).now)
    ensures Run(start, more).w == L.Do(Run(start, events).w, op)
    ensures Run(start, more).now == TimeOf(op, Run(start, events).now)
  {
    hide Run, L.Solo, L.Invite, L.Accept, L.Revoke, L.Cleanup;
    var s := Run(start, events);
    if op.TenantOp? {
      more := More(start, events, NewTenant(op.schema, op.owner));
    } else {
      var (call, pick, awaits) := CallOf(op);
      more := More(start, events, Tick(op.at - s.now));
      more := More(start, more, Begin(call));
      more := Alone(start, more, |s.calls|, pick, awaits);
      OpIsSolo(s.w, op);
    }
  }

  /** Every run of whole calls in time order is an interleaving, with the same tables at the end. */
  lemma {:induction false} WholeCallsInterleave(start: Time, ops: seq<L.Op>) returns (events: seq<Event>)
    requires InOrder(start, ops)
    ensures Run(start, events).w == L.Run(EMPTY_WORLD, ops) && Run(start, events).now == Clock(start, ops)
  {
    hide Run, L.Do, L.Solo, CallOf;
    if ops == [] {
      events := [];
      EmptyRun(start);
    } else {
      var op := ops[|ops| - 1];
      events := WholeCallsInterleave(start, ops[..|ops| - 1]);
      events := OneMoreOp(start, events, op);
    }
  }
}
