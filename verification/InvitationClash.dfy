/** When overlapping calls keep an invitation's status and dates in step.

    Calls begun in a lawful state can leave a row ACCEPTED, REVOKED or EXPIRED with the other status's date on
    it.  They can do so exactly when two of them claim the same PENDING invitation in one of two ways. */
module InvitationClash {
  import opened Tables
  import opened Connections
  import opened InvitationSteps
  import opened InvitationSafety
  import L = Lifecycle

  // ---------------------------------------------------------------- a batch of calls and its interleavings

  predicate Batched(calls: seq<Call>) {
    forall c :: 0 <= c < |calls| ==> calls[c].AcceptFind? || calls[c].RevokeFind? || calls[c].CleanupStart?
  }

  /** A batch begun together.  A call that joins later is one whose first await comes later. */
  function Batch(w: World, t: Time, calls: seq<Call>): Sys {
    Sys(w, calls, t, map[])
  }

  /** Calls advance and time passes; no call joins. */
  predicate Going(events: seq<Event>) {
    forall e :: e in events ==> e.Advance? || e.Tick?
  }

  function Steps(s: Sys, events: seq<Event>): Sys {
    if events == [] then s else Step(Steps(s, events[..|events| - 1]), events[|events| - 1])
  }

  predicate Accepts(calls: seq<Call>, c: int, inv: Invitation) {
    0 <= c < |calls| && calls[c].AcceptFind? && calls[c].accept.token == inv.token
  }

  predicate Revokes(calls: seq<Call>, c: int, inv: Invitation) {
    0 <= c < |calls| && calls[c].RevokeFind? && calls[c].revokeEmail == inv.email
  }

  /** Call c is an accept of this PENDING invitation and call d is a revoke of it or, unless it has expired
      before the batch began, another accept. */
  predicate ClashesAt(t: Time, calls: seq<Call>, inv: Invitation, c: int, d: int) {
    && inv.status == Pending && Accepts(calls, c, inv)
    && (Revokes(calls, d, inv) || (t <= inv.expiresAt && c != d && Accepts(calls, d, inv)))
  }

  ghost predicate ClashFree(invs: seq<Invitation>, t: Time, calls: seq<Call>) {
    forall i, c, d :: 0 <= i < |invs| ==> !ClashesAt(t, calls, invs[i], c, d)
  }

  // ---------------------------------------------------------------- without a clash

  predicate JoinedBy(calls: seq<Call>, c: int, i: int) {
    0 <= c < |calls| && calls[c].Accepting? && calls[c].stage == Joined && calls[c].id == i
  }

  /** A row of the batch's table, and what its row was when the batch began. */
  ghost predicate RowKept(was: Invitation, row: Invitation, i: int, begun: seq<Call>, calls: seq<Call>) {
    && SameRow(row, was) && (was.status != Pending ==> row == was)
    && (row.acceptedAt.Some? <==> row.status == Accepted) && (row.revokedAt.Some? <==> row.status == Revoked)
    && (was.status == Pending && row.status == Accepted ==> exists c :: JoinedBy(calls, c, i))
    && (was.status == Pending && row.status == Revoked ==> exists d :: Revokes(begun, d, was))
  }

  predicate Named(start: seq<Invitation>, id: nat, token: string) {
    id < |start| && start[id].status == Pending && start[id].token == token
  }

  /** How far a call of the batch has got, and which invitation it has claimed. */
  predicate CallKept(start: seq<Invitation>, t: Time, begun: Call, call: Call) {
    match begun
    case AcceptFind(r) =>
      || call == begun || call.Finished?
      || (call.AcceptExpire? && Named(start, call.id, r.token))
      || (call.Accepting? && Named(start, call.id, r.token) && t <= start[call.id].expiresAt)
    case RevokeFind(e) =>
      || call == begun || call.Finished?
      || (call.RevokeMark? && call.id < |start| && start[call.id].status == Pending && start[call.id].email == e)
    case CleanupStart => call == begun || call.Finished? || call.CleanupUpdate?
    case _ => false
  }

  ghost predicate Kept(start: seq<Invitation>, t: Time, begun: seq<Call>, s: Sys) {
    && |s.w.invitations| == |start| && |s.calls| == |begun| && t <= s.now
    && (forall i :: 0 <= i < |start| ==> RowKept(start[i], s.w.invitations[i], i, begun, s.calls))
    && (forall c :: 0 <= c < |begun| ==> CallKept(start, t, begun[c], s.calls[c]))
  }

  /** Only call c has moved. */
  predicate Moves(calls: seq<Call>, calls': seq<Call>, c: nat) {
    c < |calls| == |calls'| && calls' == calls[c := calls'[c]]
  }

  lemma NoClash(invs: seq<Invitation>, t: Time, calls: seq<Call>, i: nat, c: nat, d: nat)
    requires ClashFree(invs, t, calls) && i < |invs|
    ensures !ClashesAt(t, calls, invs[i], c, d)
  {
  }

  lemma RowStays(was: Invitation, row: Invitation, i: int, begun: seq<Call>, calls: seq<Call>, calls': seq<Call>, c: nat)
    requires RowKept(was, row, i, begun, calls) && Moves(calls, calls', c)
    requires calls[c].Accepting? && calls[c].stage == Joined ==> calls'[c] == calls[c]
    ensures RowKept(was, row, i, begun, calls')
  {
    if was.status == Pending && row.status == Accepted {
      var d :| JoinedBy(calls, d, i);
      assert JoinedBy(calls', d, i);
    }
  }

  /** Call c moves on and no row changes. */
  lemma QuietStep(start: seq<Invitation>, t: Time, begun: seq<Call>, s: Sys, s': Sys, c: nat)
    requires Kept(start, t, begun, s) && c < |begun|
    requires s'.w.invitations == s.w.invitations && s'.now == s.now && Moves(s.calls, s'.calls, c)
    requires CallKept(start, t, begun[c], s'.calls[c])
    requires s.calls[c].Accepting? && s.calls[c].stage == Joined ==> s'.calls[c] == s.calls[c]
    ensures Kept(start, t, begun, s')
  {
    forall i | 0 <= i < |start| ensures RowKept(start[i], s'.w.invitations[i], i, begun, s'.calls) {
      RowStays(start[i], s.w.invitations[i], i, begun, s.calls, s'.calls, c);
    }
  }

  /** Call c moves on and row id becomes `row`. */
  lemma RowStep(start: seq<Invitation>, t: Time, begun: seq<Call>, s: Sys, s': Sys, c: nat, id: nat)
    requires Kept(start, t, begun, s) && c < |begun| && id < |start|
    requires |s'.w.invitations| == |start| && s'.w.invitations == s.w.invitations[id := s'.w.invitations[id]]
    requires s'.now == s.now && Moves(s.calls, s'.calls, c)
    requires CallKept(start, t, begun[c], s'.calls[c])
    requires !(s.calls[c].Accepting? && s.calls[c].stage == Joined)
    requires RowKept(start[id], s'.w.invitations[id], id, begun, s'.calls)
    ensures Kept(start, t, begun, s')
  {
    forall i | 0 <= i < |start| ensures RowKept(start[i], s'.w.invitations[i], i, begun, s'.calls) {
      if i != id { RowStays(start[i], s.w.invitations[i], i, begun, s.calls, s'.calls, c); }
    }
  }

  /** An invitation that some call of the batch accepts is not REVOKED. */
  lemma AcceptedNotRevoked(start: seq<Invitation>, t: Time, begun: seq<Call>, s: Sys, c: nat, id: nat)
    requires ClashFree(start, t, begun) && Kept(start, t, begun, s) && c < |begun| && begun[c].AcceptFind?
    requires Named(start, id, begun[c].accept.token)
    ensures s.w.invitations[id].status != Revoked
  {
    hide ClashFree;
    if s.w.invitations[id].status == Revoked {
      var d :| Revokes(begun, d, start[id]);
      NoClash(start, t, begun, id, c, d);
      assert false;
    }
  }

  /** An invitation that some call has marked ACCEPTED is claimed by that call, and within its 24 hours. */
  lemma MarkedBy(start: seq<Invitation>, t: Time, begun: seq<Call>, s: Sys, id: nat) returns (d: nat)
    requires Kept(start, t, begun, s) && Batched(begun) && id < |start| && start[id].status == Pending
    requires s.w.invitations[id].status == Accepted
    ensures d < |begun| && JoinedBy(s.calls, d, id) && Accepts(begun, d, start[id]) && t <= start[id].expiresAt
  {
    var e :| JoinedBy(s.calls, e, id);
    d := e;
    assert CallKept(start, t, begun[d], s.calls[d]);
  }

  lemma ExpireKeeps(start: seq<Invitation>, t: Time, begun: seq<Call>, s: Sys, c: nat, pick: nat)
    requires ClashFree(start, t, begun) && Batched(begun) && Kept(start, t, begun, s)
    requires c < |begun| && s.calls[c].AcceptExpire?
    ensures Kept(start, t, begun, Step(s, Advance(c, pick)))
  {
    hide ClashFree;
    var id := s.calls[c].id;
    assert CallKept(start, t, begun[c], s.calls[c]);
    AcceptedNotRevoked(start, t, begun, s, c, id);
    if s.w.invitations[id].status == Accepted {
      var d := MarkedBy(start, t, begun, s, id);
      NoClash(start, t, begun, id, c, d);
      assert false;
    }
    RowStep(start, t, begun, s, Step(s, Advance(c, pick)), c, id);
  }

  lemma MarkKeeps(start: seq<Invitation>, t: Time, begun: seq<Call>, s: Sys, c: nat, pick: nat)
    requires ClashFree(start, t, begun) && Batched(begun) && Kept(start, t, begun, s)
    requires c < |begun| && s.calls[c].Accepting? && s.calls[c].stage == Marking
    ensures Kept(start, t, begun, Step(s, Advance(c, pick)))
  {
    hide ClashFree;
    var id := s.calls[c].id;
    var s' := Step(s, Advance(c, pick));
    assert CallKept(start, t, begun[c], s.calls[c]);
    AcceptedNotRevoked(start, t, begun, s, c, id);
    assert JoinedBy(s'.calls, c, id);
    RowStep(start, t, begun, s, s', c, id);
  }

  lemma RevokeKeeps(start: seq<Invitation>, t: Time, begun: seq<Call>, s: Sys, c: nat, pick: nat)
    requires ClashFree(start, t, begun) && Batched(begun) && Kept(start, t, begun, s)
    requires c < |begun| && s.calls[c].RevokeMark?
    ensures Kept(start, t, begun, Step(s, Advance(c, pick)))
  {
    hide ClashFree;
    var id := s.calls[c].id;
    assert CallKept(start, t, begun[c], s.calls[c]);
    assert Revokes(begun, c, start[id]);
    if s.w.invitations[id].status == Accepted {
      var d := MarkedBy(start, t, begun, s, id);
      NoClash(start, t, begun, id, d, c);
      assert false;
    }
    RowStep(start, t, begun, s, Step(s, Advance(c, pick)), c, id);
  }

  lemma CleanupKeeps(start: seq<Invitation>, t: Time, begun: seq<Call>, s: Sys, c: nat, pick: nat)
    requires Kept(start, t, begun, s) && c < |begun| && s.calls[c].CleanupUpdate?
    ensures Kept(start, t, begun, Step(s, Advance(c, pick)))
  {
    var s' := Step(s, Advance(c, pick));
    forall i | 0 <= i < |start| ensures RowKept(start[i], s'.w.invitations[i], i, begun, s'.calls) {
      RowStays(start[i], s.w.invitations[i], i, begun, s.calls, s'.calls, c);
    }
  }

  lemma FindKeeps(start: seq<Invitation>, t: Time, begun: seq<Call>, s: Sys, c: nat, pick: nat)
    requires Kept(start, t, begun, s) && c < |begun| && (s.calls[c].AcceptFind? || s.calls[c].RevokeFind?)
    ensures Kept(start, t, begun, Step(s, Advance(c, pick)))
  {
    hide LastMatch;
    assert CallKept(start, t, begun[c], s.calls[c]);
    QuietStep(start, t, begun, s, Step(s, Advance(c, pick)), c);
  }

  lemma AdvanceKeeps(start: seq<Invitation>, t: Time, begun: seq<Call>, s: Sys, c: nat, pick: nat)
    requires ClashFree(start, t, begun) && Batched(begun) && Kept(start, t, begun, s) && c < |begun|
    ensures Kept(start, t, begun, Step(s, Advance(c, pick)))
  {
    hide ClashFree, Connect, FindOne, LastMatch;
    var call := s.calls[c];
    assert CallKept(start, t, begun[c], call);
    match call
    case AcceptFind(_) => FindKeeps(start, t, begun, s, c, pick);
    case RevokeFind(_) => FindKeeps(start, t, begun, s, c, pick);
    case AcceptExpire(_) => ExpireKeeps(start, t, begun, s, c, pick);
    case RevokeMark(_) => RevokeKeeps(start, t, begun, s, c, pick);
    case CleanupUpdate(_) => CleanupKeeps(start, t, begun, s, c, pick);
    case Accepting(stage, _, _, inv, _) =>
      if stage == Marking {
        MarkKeeps(start, t, begun, s, c, pick);
      } else {
        L.ConnectKeepsInvitations(s.w, inv.tenantSchema);
        QuietStep(start, t, begun, s, Step(s, Advance(c, pick)), c);
      }
    case _ => QuietStep(start, t, begun, s, Step(s, Advance(c, pick)), c);
  }

  lemma BatchKept(w: World, t: Time, calls: seq<Call>)
    requires L.Stamped(w.invitations) && Batched(calls)
    ensures Kept(w.invitations, t, calls, Batch(w, t, calls))
  {
  }

  lemma IdleKeeps(start: seq<Invitation>, t: Time, begun: seq<Call>, s: Sys, e: Event)
    requires Kept(start, t, begun, s) && (e.Tick? || (e.Advance? && e.c >= |begun|))
    ensures Kept(start, t, begun, Step(s, e))
  {
  }

  lemma {:induction false} KeptAlways(w: World, t: Time, calls: seq<Call>, events: seq<Event>)
    requires L.Stamped(w.invitations) && Batched(calls) && ClashFree(w.invitations, t, calls) && Going(events)
    ensures Kept(w.invitations, t, calls, Steps(Batch(w, t, calls), events))
  {
    hide Step, ClashFree, Batched, RowKept, CallKept;
    if events == [] {
      BatchKept(w, t, calls);
    } else {
      var init, e := events[..|events| - 1], events[|events| - 1];
      assert e in events;
      KeptAlways(w, t, calls, init);
      var s := Steps(Batch(w, t, calls), init);
      if e.Advance? && e.c < |calls| {
        AdvanceKeeps(w.invitations, t, calls, s, e.c, e.pick);
      } else {
        IdleKeeps(w.invitations, t, calls, s, e);
      }
    }
  }

  // ---------------------------------------------------------------- with a clash

  lemma More(s: Sys, events: seq<Event>, e: Event) returns (more: seq<Event>)
    requires Going(events) && (e.Advance? || e.Tick?)
    ensures Going(more) && Steps(s, more) == Step(Steps(s, events), e)
  {
    more := events + [e];
    assert more[..|more| - 1] == events;
  }

  /** The row i that a call asks for is one that `findOne` may return. */
  lemma Picked(invs: seq<Invitation>, where: Where, i: nat)
    requires i < |invs| && Selects(where, invs[i])
    ensures FindOne(invs, where, i) == Some(i)
  {
  }

  lemma EmptySteps(s: Sys)
    ensures Steps(s, []) == s
  {
  }

  /** An accept finds the row expired, a revoke of it goes through, and then the accept overwrites the status. */
  lemma RevokeBreaks(w: World, t: Time, calls: seq<Call>, i: nat, c: nat, d: nat) returns (events: seq<Event>)
    requires i < |w.invitations| && w.invitations[i].status == Pending
    requires Accepts(calls, c, w.invitations[i]) && Revokes(calls, d, w.invitations[i])
    ensures Going(events)
    ensures var invs := Steps(Batch(w, t, calls), events).w.invitations;
            i < |invs| && invs[i].status == Expired && invs[i].revokedAt.Some?
  {
    hide FindOne, LastMatch, Steps;
    var s := Batch(w, t, calls);
    var inv := w.invitations[i];
    EmptySteps(s);
    events := More(s, [], Tick(if t <= inv.expiresAt then inv.expiresAt - t + 1 else 0));
    Picked(w.invitations, ByToken(inv.token), i);
    events := More(s, events, Advance(c, i));
    assert Steps(s, events).calls == calls[c := AcceptExpire(i)];
    Picked(w.invitations, ByEmail(inv.email), i);
    events := More(s, events, Advance(d, i));
    assert Steps(s, events).calls == calls[c := AcceptExpire(i)][d := RevokeMark(i)];
    events := More(s, events, Advance(d, i));
    events := More(s, events, Advance(c, i));
  }

  /** An accept of an unexpired PENDING invitation can get past its insert while the row is still PENDING. */
  lemma AcceptInserts(w: World, t: Time, calls: seq<Call>, i: nat, c: nat) returns (events: seq<Event>)
    requires L.Lawful(w) && i < |w.invitations| && w.invitations[i].status == Pending && t <= w.invitations[i].expiresAt
    requires Accepts(calls, c, w.invitations[i])
    ensures Going(events)
    ensures var s := Steps(Batch(w, t, calls), events);
      && s.w.invitations == w.invitations && s.now == t
      && s.calls == calls[c := Accepting(Marking, calls[c].accept, i, w.invitations[i], t)]
  {
    hide FindOne, LastMatch, Steps, Connect, L.LawfulRows, PoolOk, L.Tallied;
    var s := Batch(w, t, calls);
    var inv := w.invitations[i];
    var r := calls[c].accept;
    EmptySteps(s);
    Picked(w.invitations, ByToken(r.token), i);
    events := More(s, [], Advance(c, i));
    assert Steps(s, events).calls == calls[c := Accepting(Connecting, r, i, inv, t)];
    assert L.IsPending(w.invitations, i);
    ConnectToTables(w, inv.tenantSchema);
    events := More(s, events, Advance(c, i));
    assert Steps(s, events).calls == calls[c := Accepting(FindingUser, r, i, inv, t)];
    events := More(s, events, Advance(c, i));
    assert Steps(s, events).calls == calls[c := Accepting(Hashing, r, i, inv, t)];
    events := More(s, events, Advance(c, i));
    assert Steps(s, events).calls == calls[c := Accepting(Inserting, r, i, inv, t)];
    events := More(s, events, Advance(c, i));
  }

  /** A second accept finds the row expired before the first has marked it, and overwrites ACCEPTED. */
  lemma AcceptBreaks(w: World, t: Time, calls: seq<Call>, i: nat, c: nat, d: nat) returns (events: seq<Event>)
    requires L.Lawful(w) && i < |w.invitations| && w.invitations[i].status == Pending && t <= w.invitations[i].expiresAt
    requires Accepts(calls, c, w.invitations[i]) && Accepts(calls, d, w.invitations[i]) && c != d
    ensures Going(events)
    ensures var invs := Steps(Batch(w, t, calls), events).w.invitations;
            i < |invs| && invs[i].status == Expired && invs[i].acceptedAt.Some?
  {
    hide FindOne, LastMatch, Steps, L.Lawful, Connect;
    var s := Batch(w, t, calls);
    var inv := w.invitations[i];
    var marking := Accepting(Marking, calls[c].accept, i, inv, t);
    events := AcceptInserts(w, t, calls, i, c);
    events := More(s, events, Tick(inv.expiresAt - t + 1));
    Picked(w.invitations, ByToken(inv.token), i);
    events := More(s, events, Advance(d, i));
    assert Steps(s, events).calls == calls[c := marking][d := AcceptExpire(i)];
    events := More(s, events, Advance(c, i));
    assert Steps(s, events).calls == calls[c := marking.(stage := Joined)][d := AcceptExpire(i)];
    events := More(s, events, Advance(d, i));
  }

  // ---------------------------------------------------------------- the theorem

  /** For any batch of accepts, revokes and cleanups begun in a lawful state: every interleaving keeps
      `acceptedAt` set exactly when ACCEPTED and `revokedAt` exactly when REVOKED, at every step, if and only
      if no PENDING invitation is claimed by an accept and a revoke nor, unless it has already expired, by two
      accepts. */
  lemma StampedIffClashFree(w: World, t: Time, calls: seq<Call>)
    requires L.Lawful(w) && Batched(calls)
    ensures (forall events :: Going(events) ==> L.Stamped(Steps(Batch(w, t, calls), events).w.invitations))
       <==> ClashFree(w.invitations, t, calls)
  {
    hide L.LawfulTenants, PoolOk, Steps, Batch, Batched, Going;
    if ClashFree(w.invitations, t, calls) {
      forall events | Going(events) ensures L.Stamped(Steps(Batch(w, t, calls), events).w.invitations) {
        KeptAlways(w, t, calls, events);
      }
    } else {
      var i, c, d :| 0 <= i < |w.invitations| && ClashesAt(t, calls, w.invitations[i], c, d);
      var events;
      if Revokes(calls, d, w.invitations[i]) {
        events := RevokeBreaks(w, t, calls, i, c, d);
      } else {
        events := AcceptBreaks(w, t, calls, i, c, d);
      }
      assert !L.Stamped(Steps(Batch(w, t, calls), events).w.invitations);
    }
  }
}
