/** What a caller is told, in every run of whole calls: each answer is decided by what the public and tenant
    tables hold, and an invitation can be taken up for exactly 24 hours, unless it is revoked. */
module InvitationAnswers {
  import opened Tables
  import opened Connections
  import opened InvitationSteps
  import opened InvitationSafety
  import opened Lifecycle

  function Reached(ops: seq<Op>): World {
    Lifecycle.Run(EMPTY_WORLD, ops)
  }

  ghost predicate Invited(invs: seq<Invitation>, email: string, schema: string) {
    exists i :: IsPending(invs, i) && invs[i].email == email && invs[i].tenantSchema == schema
  }

  lemma NoSuchSchema(w: World, schema: string)
    requires PoolOk(w) && schema !in w.schemas
    ensures var (w', source) := Connect(w, schema);
            source.None? && w' == w.(pool := w'.pool)
  {
    ProvisionCases(w, schema, false, false);
  }

  /** The five answers to an invite exclude one another and say exactly what stands in the way; the one thing
      an invite can change, besides connections, is to add the invitation asked for. */
  lemma InviteDecided(ops: seq<Op>, now: Time, r: InviteReq)
    ensures var w := Reached(ops);
            var (w', outcome) := Invite(w, now, r);
            var tokenUsed := exists i :: 0 <= i < |w.invitations| && w.invitations[i].token == r.token;
            var free := r.schema in w.schemas && !Invited(w.invitations, r.email, r.schema)
                        && r.email !in Users(w.schemas, r.schema);
      && (outcome == NoConnection <==> r.schema !in w.schemas)
      && (outcome == DuplicateInvitation <==> Invited(w.invitations, r.email, r.schema))
      && (outcome == DuplicateUser <==> r.email in Users(w.schemas, r.schema))
      && (outcome == TokenTaken <==> free && tokenUsed)
      && (outcome == InvitationSaved <==> free && !tokenUsed)
      && w'.schemas == w.schemas && w'.tenants == w.tenants
      && w'.invitations
         == w.invitations
            + if outcome != InvitationSaved then []
              else [Invitation(r.schema, Pending, r.email, if r.role.Some? then r.role.value else MemberRole,
                               r.token, r.invitedBy, now, now + 24 * 60 * 60 * 1000, None, None)]
  {
    hide PoolOk, Connect, LastMatch;
    LawfulAlways(ops);
    var w := Reached(ops);
    if r.schema in w.schemas { ConnectToTables(w, r.schema); } else { NoSuchSchema(w, r.schema); }
    var found := FindOne(w.invitations, ByTenant(r.email, r.schema), 0);
    if found.Some? {
      assert IsPending(w.invitations, found.value);
    } else {
      assert forall i :: 0 <= i < |w.invitations| ==> !Selects(ByTenant(r.email, r.schema), w.invitations[i]);
    }
  }

  /** In any state with sound connections, reached or not: an accept of an unexpired invitation checks the
      tenant's schema first and its users next, and changes no table unless it lets the user in. */
  lemma AcceptRefusals(w: World, now: Time, r: AcceptReq, pick: nat, i: nat)
    requires PoolOk(w) && FindOne(w.invitations, ByToken(r.token), pick) == Some(i)
    requires i < |w.invitations| && now <= w.invitations[i].expiresAt
    requires w.invitations[i].tenantSchema in w.schemas ==> w.schemas[w.invitations[i].tenantSchema].Migrated?
    ensures var (w', outcome) := Accept(w, now, r, pick);
            var schema, email := w.invitations[i].tenantSchema, w.invitations[i].email;
      && (outcome == NoConnection <==> schema !in w.schemas)
      && (outcome == UserExists <==> schema in w.schemas && email in w.schemas[schema].users)
      && (outcome.UserSaved? <==> schema in w.schemas && email !in w.schemas[schema].users)
      && (!outcome.UserSaved? ==> w' == w.(pool := w'.pool))
  {
    hide Connect, FindOne, PoolOk;
    var schema := w.invitations[i].tenantSchema;
    if schema in w.schemas { ConnectToTables(w, schema); } else { NoSuchSchema(w, schema); }
  }

  /** What an accept does to the tables, after any run: nothing, or it expires its one invitation, or it inserts
      the invited user and marks the invitation. */
  lemma AcceptEffect(ops: seq<Op>, now: Time, r: AcceptReq, pick: nat)
    ensures var w := Reached(ops);
            var (w', outcome) := Accept(w, now, r, pick);
      match outcome
      case InvitationNotFound => w' == w
      case InvitationExpired =>
        exists i | 0 <= i < |w.invitations| :: var inv := w.invitations[i];
          && inv.status == Pending && inv.token == r.token && inv.expiresAt < now
          && w' == w.(invitations := w.invitations[i := inv.(status := Expired)])
      case UserSaved(user) =>
        exists i | 0 <= i < |w.invitations| :: var inv := w.invitations[i];
          && inv.status == Pending && inv.token == r.token && now <= inv.expiresAt
          && user == User(r.userId, inv.email, inv.role, Argon2(r.password), r.displayName, Some(now))
          && w'.invitations == w.invitations[i := inv.(status := Accepted, acceptedAt := Some(now))]
          && inv.tenantSchema in w.schemas && w.schemas[inv.tenantSchema].Migrated?
          && inv.email !in w.schemas[inv.tenantSchema].users
          && w'.schemas == w.schemas[inv.tenantSchema := w.schemas[inv.tenantSchema].(users :=
                             w.schemas[inv.tenantSchema].users[inv.email := user])]
          && w'.tenants == w.tenants
      case _ => false
  {
    hide PoolOk, Connect, LastMatch, FindOne, Lifecycle.Run, OnePending, Stamped, Tallied, TokensUnique;
    LawfulAlways(ops);
    AcceptDecided(ops, now, r, pick);
    var w := Reached(ops);
    var found := FindOne(w.invitations, ByToken(r.token), pick);
    if found.Some? {
      var i := found.value;
      var inv := w.invitations[i];
      assert IsPending(w.invitations, i);
      ConnectToTables(w, inv.tenantSchema);
      if !(inv.expiresAt < now) {
        assert Accept(w, now, r, pick).1 == UserSaved(NewUser(r, inv, now));
      }
    }
  }

  lemma RunMore(ops: seq<Op>, op: Op)
    ensures Reached(ops + [op]) == Do(Reached(ops), op)
  {
  }

  /** An invitation made at t is good until t + 24h, that instant included, and not a millisecond longer. */
  lemma InviteThenAccept(ops: seq<Op>, t: Time, r: InviteReq, u: Time, a: AcceptReq, pick: nat)
    requires Invite(Reached(ops), t, r).1 == InvitationSaved && a.token == r.token
    ensures var role := if r.role.Some? then r.role.value else MemberRole;
      Accept(Invite(Reached(ops), t, r).0, u, a, pick).1
        == if u <= t + 24 * 60 * 60 * 1000
           then UserSaved(User(a.userId, r.email, role, HashPassword(a.password), a.displayName, Some(u)))
           else InvitationExpired
  {
    hide Lifecycle.Run, Connect, Accept;
    RunMore(ops, InviteOp(t, r));
    AcceptDecided(ops + [InviteOp(t, r)], u, a, pick);
    var w' := Reached(ops + [InviteOp(t, r)]);
    assert w'.invitations[|w'.invitations| - 1] == NewInvitation(r, t);
  }

  lemma {:induction false} RunConcat(ops: seq<Op>, more: seq<Op>)
    ensures Reached(ops + more) == Lifecycle.Run(Reached(ops), more)
    decreases |more|
  {
    if more == [] {
      assert ops + more == ops;
    } else {
      var init := more[..|more| - 1];
      RunConcat(ops, init);
      assert ops + more == ops + init + [more[|more| - 1]];
      RunMore(ops + init, more[|more| - 1]);
    }
  }

  /** An invitation that was accepted, revoked or expired is spent: whatever happens next, no accept with its
      token ever succeeds again. */
  lemma TokenSpent(ops: seq<Op>, i: nat, more: seq<Op>, u: Time, a: AcceptReq, pick: nat)
    requires i < |Reached(ops).invitations| && Reached(ops).invitations[i].status != Pending
    requires a.token == Reached(ops).invitations[i].token
    ensures Accept(Reached(ops + more), u, a, pick).1 == InvitationNotFound
  {
    hide Lifecycle.Run, Accept, PoolOk;
    RunConcat(ops, more);
    LeavesPendingOnce(Reached(ops), more);
    LawfulAlways(ops + more);
    AcceptDecided(ops + more, u, a, pick);
    var invs := Reached(ops + more).invitations;
    assert forall j :: 0 <= j < |invs| && invs[j].token == a.token ==> j == i;
  }

  /** A revoke succeeds exactly when some invitation for that address is PENDING, in whatever tenant, and takes
      effect on one such invitation: its token is then refused at any later time. */
  lemma RevokeThenAccept(ops: seq<Op>, t: Time, email: string, pick: nat)
    ensures var w := Reached(ops);
            var (w', outcome) := Revoke(w, t, email, pick);
      if exists i :: IsPending(w.invitations, i) && w.invitations[i].email == email then
        && outcome == InvitationRevoked
        && exists i | 0 <= i < |w.invitations| ::
             && w.invitations[i].status == Pending && w.invitations[i].email == email
             && w' == w.(invitations := w.invitations[i := w.invitations[i].(status := Revoked, revokedAt := Some(t))])
             && forall u, a: AcceptReq, p | a.token == w.invitations[i].token ::
                  Accept(w', u, a, p).1 == InvitationNotFound
      else
        outcome == InvitationNotFound && w' == w
  {
    hide Lifecycle.Run, Connect, Accept, PoolOk;
    var w := Reached(ops);
    var revoked := ops + [RevokeOp(t, email, pick)];
    var found := FindOne(w.invitations, ByEmail(email), pick);
    RunMore(ops, RevokeOp(t, email, pick));
    if found.Some? {
      var i := found.value;
      assert IsPending(w.invitations, i);
      forall u, a: AcceptReq, p: nat | a.token == w.invitations[i].token
        ensures Accept(Reached(revoked), u, a, p).1 == InvitationNotFound
      {
        assert revoked + [] == revoked;
        TokenSpent(revoked, i, [], u, a, p);
      }
    } else {
      assert forall i :: 0 <= i < |w.invitations| ==> !Selects(ByEmail(email), w.invitations[i]);
    }
  }
}
