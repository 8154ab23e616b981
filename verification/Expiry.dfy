/** Expiry is decided twice: lazily by accept, eagerly by the nightly cleanup.  The two agree. */
module Expiry {
  import opened Tables
  import opened Connections
  import opened InvitationSteps
  import opened InvitationSafety
  import opened Lifecycle

  predicate AcceptOrCleanup(op: Op) {
    op.AcceptOp? || op.CleanupOp?
  }

  /** Accepts and cleanups at nondecreasing times. */
  ghost predicate Chronicle(ops: seq<Op>) {
    && (forall i :: 0 <= i < |ops| ==> AcceptOrCleanup(ops[i]))
    && (forall i, j :: 0 <= i < j < |ops| ==> ops[i].at <= ops[j].at)
  }

  function EraseCleanups(ops: seq<Op>): seq<Op> {
    if ops == [] then []
    else
      var rest := EraseCleanups(ops[..|ops| - 1]);
      if ops[|ops| - 1].CleanupOp? then rest else rest + [ops[|ops| - 1]]
  }

  /** The user each accept of the run returned, if it did. */
  function Welcomes(w: World, ops: seq<Op>): seq<Option<User>> {
    if ops == [] then []
    else
      var op := ops[|ops| - 1];
      var rest := Welcomes(w, ops[..|ops| - 1]);
      if !op.AcceptOp? then rest
      else
        var outcome := Accept(Lifecycle.Run(w, ops[..|ops| - 1]), op.at, op.accept, op.pick).1;
        rest + [if outcome.UserSaved? then Some(outcome.user) else None]
  }

  predicate StaleAhead(eager: Invitation, lazy: Invitation, t: Time) {
    Stale(lazy, t) && eager == lazy.(status := Expired)
  }

  /** `eager` is `lazy` with some rows, all of them stale at t, already marked EXPIRED. */
  ghost predicate Ahead(eager: World, lazy: World, t: Time) {
    && eager == lazy.(invitations := eager.invitations)
    && |eager.invitations| == |lazy.invitations|
    && forall i :: 0 <= i < |lazy.invitations| ==>
         eager.invitations[i] == lazy.invitations[i] || StaleAhead(eager.invitations[i], lazy.invitations[i], t)
  }

  lemma TokenFindsOne(invs: seq<Invitation>, token: string, pick: nat, i: nat)
    requires TokensUnique(invs) && i < |invs| && Selects(ByToken(token), invs[i])
    ensures FindOne(invs, ByToken(token), pick) == Some(i)
  {
  }

  lemma ConnectIgnoresInvitations(w: World, v: World, schema: string)
    requires w == v.(invitations := w.invitations)
    ensures var (w', a) := Connect(w, schema);
            var (v', b) := Connect(v, schema);
            && a == b && w'.invitations == w.invitations && v'.invitations == v.invitations
            && w' == v'.(invitations := w'.invitations)
  {
  }

  lemma AcceptStaysAhead(eager: World, lazy: World, t: Time, at: Time, r: AcceptReq, pick: nat)
    requires Ahead(eager, lazy, t) && t <= at && TokensUnique(lazy.invitations)
    ensures var (e, x) := Accept(eager, at, r, pick);
            var (l, y) := Accept(lazy, at, r, pick);
            Ahead(e, l, at) && (x == y || (x == InvitationNotFound && y == InvitationExpired))
  {
    hide Connect;
    var mine := FindOne(eager.invitations, ByToken(r.token), pick);
    var theirs := FindOne(lazy.invitations, ByToken(r.token), pick);
    if mine.Some? {
      TokenFindsOne(lazy.invitations, r.token, pick, mine.value);
      ConnectIgnoresInvitations(eager, lazy, eager.invitations[mine.value].tenantSchema);
    } else if theirs.Some? {
      assert StaleAhead(eager.invitations[theirs.value], lazy.invitations[theirs.value], t);
    }
  }

  lemma DoKeepsTokens(w: World, op: Op)
    requires TokensUnique(w.invitations) && AcceptOrCleanup(op)
    ensures TokensUnique(Do(w, op).invitations)
  {
    hide Connect;
    if op.AcceptOp? {
      var found := FindOne(w.invitations, ByToken(op.accept.token), op.pick);
      if found.Some? { ConnectKeepsInvitations(w, w.invitations[found.value].tenantSchema); }
    }
  }

  lemma {:induction false} StaysAhead(w: World, ops: seq<Op>, t: Time)
    requires Chronicle(ops) && TokensUnique(w.invitations)
    requires forall i :: 0 <= i < |ops| ==> ops[i].at <= t
    ensures Ahead(Lifecycle.Run(w, ops), Lifecycle.Run(w, EraseCleanups(ops)), t)
    ensures TokensUnique(Lifecycle.Run(w, EraseCleanups(ops)).invitations)
    ensures Welcomes(w, ops) == Welcomes(w, EraseCleanups(ops))
  {
    if ops != [] {
      var init, op := ops[..|ops| - 1], ops[|ops| - 1];
      StaysAhead(w, init, op.at);
      var eager, lazy := Lifecycle.Run(w, init), Lifecycle.Run(w, EraseCleanups(init));
      if op.AcceptOp? {
        assert EraseCleanups(ops)[..|EraseCleanups(ops)| - 1] == EraseCleanups(init);
        AcceptStaysAhead(eager, lazy, op.at, op.at, op.accept, op.pick);
        DoKeepsTokens(lazy, op);
      }
    }
  }

  /** Over any run of accepts and cleanups at nondecreasing times, from any state whose tokens are unique:
      erasing every cleanup changes no table of any tenant and no user any accept returns, and one cleanup at
      the end brings the two invitation tables together. */
  lemma {:induction false} CleanupsErasable(w: World, ops: seq<Op>, t: Time)
    requires Chronicle(ops) && TokensUnique(w.invitations)
    requires forall i :: 0 <= i < |ops| ==> ops[i].at <= t
    ensures Lifecycle.Run(w, ops).schemas == Lifecycle.Run(w, EraseCleanups(ops)).schemas
    ensures Welcomes(w, ops) == Welcomes(w, EraseCleanups(ops))
    ensures Cleanup(Lifecycle.Run(w, ops), t).invitations
         == Cleanup(Lifecycle.Run(w, EraseCleanups(ops)), t).invitations
  {
    StaysAhead(w, ops, t);
  }

  // ---------------------------------------------------------------- invites do notice

  /** Some PENDING invitation is in the way of inviting this address to this tenant again. */
  ghost predicate InTheWay(invs: seq<Invitation>, email: string, schema: string) {
    exists i :: 0 <= i < |invs| && Selects(ByTenant(email, schema), invs[i])
  }

  /** And one of them is not stale at t. */
  ghost predicate FreshInTheWay(invs: seq<Invitation>, email: string, schema: string, t: Time) {
    exists i :: 0 <= i < |invs| && Selects(ByTenant(email, schema), invs[i]) && t <= invs[i].expiresAt
  }

  lemma FreshSurvives(invs: seq<Invitation>, email: string, schema: string, t: Time)
    ensures InTheWay(ExpireStale(invs, t), email, schema) <==> FreshInTheWay(invs, email, schema, t)
  {
    var after := ExpireStale(invs, t);
    if i :| 0 <= i < |after| && Selects(ByTenant(email, schema), after[i]) {
      assert Selects(ByTenant(email, schema), invs[i]) && t <= invs[i].expiresAt;
    }
    if i :| 0 <= i < |invs| && Selects(ByTenant(email, schema), invs[i]) && t <= invs[i].expiresAt {
      assert after[i] == invs[i];
    }
  }

  /** An invite says "duplicate" exactly when a PENDING row is in its way; otherwise the status of rows plays
      no part in its answer. */
  lemma InviteSees(w: World, v: World, at: Time, r: InviteReq)
    requires w == v.(invitations := w.invitations) && |w.invitations| == |v.invitations|
    requires forall i :: 0 <= i < |w.invitations| ==> w.invitations[i].token == v.invitations[i].token
    ensures Invite(w, at, r).1 == DuplicateInvitation <==> InTheWay(w.invitations, r.email, r.schema)
    ensures !InTheWay(w.invitations, r.email, r.schema) && !InTheWay(v.invitations, r.email, r.schema) ==>
              Invite(w, at, r).1 == Invite(v, at, r).1
  {
    hide Connect, LastMatch;
    ConnectIgnoresInvitations(w, v, r.schema);
    assert TokenUsed(w.invitations, r.token) <==> TokenUsed(v.invitations, r.token) by {
      assert forall i :: 0 <= i < |w.invitations| ==> w.invitations[i].token == v.invitations[i].token;
    }
    if FindOne(w.invitations, ByTenant(r.email, r.schema), 0).Some? {
      assert InTheWay(w.invitations, r.email, r.schema);
    }
  }

  lemma FreshIsInTheWay(invs: seq<Invitation>, email: string, schema: string, t: Time)
    ensures FreshInTheWay(invs, email, schema, t) ==> InTheWay(invs, email, schema)
  {
  }

  /** In any state: a cleanup at t changes the answer of an invite exactly when PENDING rows are in the
      invite's way and all of them were stale at t. */
  lemma InviteFeelsCleanup(w: World, t: Time, at: Time, r: InviteReq)
    ensures Invite(Cleanup(w, t), at, r).1 == Invite(w, at, r).1 <==>
            !InTheWay(w.invitations, r.email, r.schema) || FreshInTheWay(w.invitations, r.email, r.schema, t)
  {
    hide Invite, InTheWay, FreshInTheWay;
    FreshSurvives(w.invitations, r.email, r.schema, t);
    InviteSees(w, Cleanup(w, t), at, r);
    InviteSees(Cleanup(w, t), w, at, r);
    assert FreshInTheWay(w.invitations, r.email, r.schema, t) ==> InTheWay(w.invitations, r.email, r.schema) by {
      FreshIsInTheWay(w.invitations, r.email, r.schema, t);
    }
  }

  /** Inviting into a connected tenant with nothing in the way. */
  lemma FreeInviteSaved(w: World, at: Time, r: InviteReq)
    requires r.schema in w.pool.cache && HasTables(w.schemas, r.schema) && r.email !in Users(w.schemas, r.schema)
    requires !InTheWay(w.invitations, r.email, r.schema) && !TokenUsed(w.invitations, r.token)
    ensures Invite(w, at, r) == (w.(invitations := w.invitations + [NewInvitation(r, at)]), InvitationSaved)
  {
    assert forall i :: 0 <= i < |w.invitations| ==> !Selects(ByTenant(r.email, r.schema), w.invitations[i]);
  }

  function OneTenant(owner: User): World {
    EMPTY_WORLD.(schemas := map["t" := NO_ROWS.(users := map[owner.email := owner])])
  }

  lemma FirstInvite(owner: User, at: Time, r: InviteReq)
    requires r.schema == "t" && r.email != owner.email
    ensures var w := Invite(OneTenant(owner), at, r).0;
      && w.invitations == [NewInvitation(r, at)] && "t" in w.pool.cache
      && w.schemas == OneTenant(owner).schemas
  {
    assert OneTenant(owner).schemas["t" := OneTenant(owner).schemas["t"]] == OneTenant(owner).schemas;
  }

  lemma Lapsed(w: World, late: Time, r: InviteReq, at: Time)
    requires w.invitations == [NewInvitation(r, at)] && late == at + DAY + 1 && r.token == "1"
    ensures InTheWay(w.invitations, r.email, r.schema)
    ensures !InTheWay(Cleanup(w, late).invitations, r.email, r.schema)
    ensures !TokenUsed(Cleanup(w, late).invitations, "2")
    ensures Cleanup(w, late) == w.(invitations := Cleanup(w, late).invitations)
  {
    assert Selects(ByTenant(r.email, r.schema), w.invitations[0]);
  }

  /** And there is such a state: a@t was invited to the connected tenant t at `t`.  Inviting her again 24 hours
      and a millisecond later is a duplicate, unless a cleanup has run. */
  lemma ReinviteNeedsCleanup(t: Time)
    ensures var owner := User("u0", "owner@t", OwnerRole, HashPassword("pw"), "Owner", Some(t));
            var first, again := InviteReq("t", "u0", "a@t", None, "1"), InviteReq("t", "u0", "a@t", None, "2");
            var late := t + DAY + 1;
            var w := Lifecycle.Run(EMPTY_WORLD, [TenantOp("t", owner)] + [InviteOp(t, first)]);
      && Invite(w, late, again).1 == DuplicateInvitation
      && Invite(Cleanup(w, late), late, again).1 == InvitationSaved
  {
    hide Invite, InTheWay, FreshInTheWay, Cleanup;
    var owner := User("u0", "owner@t", OwnerRole, HashPassword("pw"), "Owner", Some(t));
    var first, again := InviteReq("t", "u0", "a@t", None, "1"), InviteReq("t", "u0", "a@t", None, "2");
    var late := t + DAY + 1;
    var ops := [TenantOp("t", owner)] + [InviteOp(t, first)];
    var w := Lifecycle.Run(EMPTY_WORLD, ops);
    assert ops[..1] == [TenantOp("t", owner)];
    assert Lifecycle.Run(EMPTY_WORLD, ops[..1]) == OneTenant(owner);
    assert w == Invite(OneTenant(owner), t, first).0;
    FirstInvite(owner, t, first);
    InviteSees(w, w, late, again);
    Lapsed(w, late, first, t);
    FreeInviteSaved(Cleanup(w, late), late, again);
  }
}
