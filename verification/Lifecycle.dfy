/** The same four operations with each call running alone: its awaits happen back to back, at one instant. */
module Lifecycle {
  import opened Tables
  import opened Connections
  import opened InvitationSteps
  import opened InvitationSafety

  function Invite(w: World, now: Time, r: InviteReq): (World, Outcome) {
    if FindOne(w.invitations, ByTenant(r.email, r.schema), 0).Some? then
      (w, DuplicateInvitation)
    else
      var (w', source) := Connect(w, r.schema);
      if source.None? || !HasTables(w'.schemas, r.schema) then (w', NoConnection)
      else if r.email in Users(w'.schemas, r.schema) then (w', DuplicateUser)
      else if TokenUsed(w'.invitations, r.token) then (w', TokenTaken)
      else (w'.(invitations := w'.invitations + [NewInvitation(r, now)]), InvitationSaved)
  }

  /** What lines 87 to 113 come to, for the invitation at `id` as read. */
  function Admit(w: World, now: Time, r: AcceptReq, id: nat, inv: Invitation): (World, Outcome)
    requires id < |w.invitations|
  {
    var (w', source) := Connect(w, inv.tenantSchema);
    if source.None? || !HasTables(w'.schemas, inv.tenantSchema) then (w', NoConnection)
    else if inv.email in Users(w'.schemas, inv.tenantSchema) then (w', UserExists)
    else
      var user := NewUser(r, inv, now);
      (w'.(schemas := WithUser(w'.schemas, inv.tenantSchema, user),
           invitations := w.invitations[id := w.invitations[id].(status := Accepted, acceptedAt := Some(now))]),
       UserSaved(user))
  }

  function Accept(w: World, now: Time, r: AcceptReq, pick: nat): (World, Outcome) {
    var found := FindOne(w.invitations, ByToken(r.token), pick);
    if found.None? then
      (w, InvitationNotFound)
    else
      var inv := w.invitations[found.value];
      if inv.expiresAt < now then
        (SetRow(w, found.value, inv.(status := Expired)), InvitationExpired)
      else
        Admit(w, now, r, found.value, inv)
  }

  function Revoke(w: World, now: Time, email: string, pick: nat): (World, Outcome) {
    var found := FindOne(w.invitations, ByEmail(email), pick);
    if found.None? then
      (w, InvitationNotFound)
    else
      (SetRow(w, found.value, w.invitations[found.value].(status := Revoked, revokedAt := Some(now))),
       InvitationRevoked)
  }

  function Cleanup(w: World, now: Time): World {
    w.(invitations := ExpireStale(w.invitations, now))
  }

  // ---------------------------------------------------------------- a call alone is the step machine alone

  /** Run one call of the step machine to its end. */
  function Solo(w: World, now: Time, call: Call, pick: nat, awaits: nat): (World, Call)
    decreases awaits
  {
    if awaits == 0 then (w, call)
    else
      var (w', call') := Next(w, now, call, pick);
      Solo(w', now, call', pick, awaits - 1)
  }

  lemma ConnectKeepsInvitations(w: World, schema: string)
    ensures Connect(w, schema).0.invitations == w.invitations
  {
  }

  lemma InviteIsSolo(w: World, now: Time, r: InviteReq, pick: nat)
    ensures Solo(w, now, InviteFind(r), pick, 4) == (Invite(w, now, r).0, Finished(Invite(w, now, r).1))
  {
    hide Connect, Users, FindOne, LastMatch;
    var (w1, c1) := Next(w, now, InviteFind(r), pick);
    var (w2, c2) := Next(w1, now, c1, pick);
    var (w3, c3) := Next(w2, now, c2, pick);
    assert Solo(w, now, InviteFind(r), pick, 4) == Solo(w1, now, c1, pick, 3) == Solo(w2, now, c2, pick, 2)
        == Solo(w3, now, c3, pick, 1);
    assert Solo(w3, now, c3, pick, 1) == Next(w3, now, c3, pick);
    ConnectKeepsInvitations(w, r.schema);
  }

  lemma FinishedStays(w: World, now: Time, call: Call, pick: nat, awaits: nat)
    requires call.Finished?
    ensures Solo(w, now, call, pick, awaits) == (w, call)
    decreases awaits
  {
  }

  lemma AdmitIsSolo(w: World, now: Time, r: AcceptReq, id: nat, inv: Invitation, pick: nat)
    requires id < |w.invitations|
    ensures var (w', outcome) := Admit(w, now, r, id, inv);
            Solo(w, now, Accepting(Connecting, r, id, inv, now), pick, 5)
              == (w', if outcome.UserSaved? then Accepting(Joined, r, id, inv, now) else Finished(outcome))
    ensures var outcome := Admit(w, now, r, id, inv).1;
            outcome.UserSaved? ==> outcome.user == NewUser(r, inv, now)
  {
    hide Connect, WithUser, NewUser, Users;
    ConnectKeepsInvitations(w, inv.tenantSchema);
    var (w1, c1) := Next(w, now, Accepting(Connecting, r, id, inv, now), pick);
    var (w2, c2) := Next(w1, now, c1, pick);
    assert Solo(w, now, Accepting(Connecting, r, id, inv, now), pick, 5) == Solo(w1, now, c1, pick, 4)
        == Solo(w2, now, c2, pick, 3);
    if c2.Finished? {
      FinishedStays(w2, now, c2, pick, 3);
    } else {
      var (w3, c3) := Next(w2, now, c2, pick);
      var (w4, c4) := Next(w3, now, c3, pick);
      assert Solo(w2, now, c2, pick, 3) == Solo(w3, now, c3, pick, 2) == Solo(w4, now, c4, pick, 1)
          == Next(w4, now, c4, pick);
    }
  }

  lemma AcceptIsSolo(w: World, now: Time, r: AcceptReq, pick: nat)
    ensures var (w', outcome) := Accept(w, now, r, pick);
            var (v, call) := Solo(w, now, AcceptFind(r), pick, 6);
            && v == w'
            && (match outcome
                case UserSaved(user) =>
                  call.Accepting? && call.stage == Joined && user == NewUser(r, call.inv, now)
                case _ => call == Finished(outcome))
  {
    hide Admit, Connect, FindOne, LastMatch;
    var (w1, c1) := Next(w, now, AcceptFind(r), pick);
    assert Solo(w, now, AcceptFind(r), pick, 6) == Solo(w1, now, c1, pick, 5);
    if c1.Accepting? {
      ConnectKeepsInvitations(w, c1.inv.tenantSchema);
      AdmitIsSolo(w1, now, r, c1.id, c1.inv, pick);
    } else {
      FinishedStays(Next(w1, now, c1, pick).0, now, Next(w1, now, c1, pick).1, pick, 4);
    }
  }

  // ---------------------------------------------------------------- runs of whole calls

  datatype Op =
    | TenantOp(schema: string, owner: User)
    | InviteOp(at: Time, invite: InviteReq)
    | AcceptOp(at: Time, accept: AcceptReq, pick: nat)
    | RevokeOp(at: Time, email: string, pick: nat)
    | CleanupOp(at: Time)

  function Do(w: World, op: Op): World {
    match op
    case TenantOp(schema, owner) =>
      if schema in w.schemas then w
      else w.(schemas := w.schemas[schema := NO_ROWS.(users := map[owner.email := owner])])
    case InviteOp(at, r) => Invite(w, at, r).0
    case AcceptOp(at, r, pick) => Accept(w, at, r, pick).0
    case RevokeOp(at, email, pick) => Revoke(w, at, email, pick).0
    case CleanupOp(at) => Cleanup(w, at)
  }

  function Run(w: World, ops: seq<Op>): World {
    if ops == [] then w else Do(Run(w, ops[..|ops| - 1]), ops[|ops| - 1])
  }

  // ---------------------------------------------------------------- the invariant of atomic runs

  predicate IsPending(invs: seq<Invitation>, i: int) {
    0 <= i < |invs| && invs[i].status == Pending
  }

  ghost predicate TokensUnique(invs: seq<Invitation>) {
    forall i, j :: 0 <= i < j < |invs| ==> invs[i].token != invs[j].token
  }

  ghost predicate OnePending(invs: seq<Invitation>) {
    forall i, j :: IsPending(invs, i) && IsPending(invs, j) && i != j ==> !SameInvitee(invs[i], invs[j])
  }

  ghost predicate PendingOutside(invs: seq<Invitation>, schemas: map<string, Tables>) {
    forall i :: IsPending(invs, i) ==> invs[i].email !in Users(schemas, invs[i].tenantSchema)
  }

  ghost predicate Stamped(invs: seq<Invitation>) {
    forall i :: 0 <= i < |invs| ==>
      && (invs[i].acceptedAt.Some? <==> invs[i].status == Accepted)
      && (invs[i].revokedAt.Some? <==> invs[i].status == Revoked)
  }

  ghost predicate Hosted(invs: seq<Invitation>, schemas: map<string, Tables>) {
    && (forall s :: s in schemas ==> schemas[s].Migrated?)
    && (forall i :: 0 <= i < |invs| ==> HasTables(schemas, invs[i].tenantSchema))
  }

  ghost predicate Tallied(invs: seq<Invitation>, schemas: map<string, Tables>) {
    forall s :: HasTables(schemas, s) ==> |Users(schemas, s)| == 1 + |AcceptedIn(invs, s)|
  }

  ghost predicate LawfulRows(invs: seq<Invitation>) {
    TokensUnique(invs) && OnePending(invs) && Stamped(invs)
  }

  ghost predicate LawfulTenants(invs: seq<Invitation>, schemas: map<string, Tables>) {
    PendingOutside(invs, schemas) && Hosted(invs, schemas) && Tallied(invs, schemas)
  }

  ghost predicate Lawful(w: World) {
    LawfulRows(w.invitations) && LawfulTenants(w.invitations, w.schemas) && PoolOk(w)
  }

  /** Rows may stop being PENDING as long as nobody is accepted. */
  ghost predicate Closes(invs: seq<Invitation>, after: seq<Invitation>) {
    && QuietRows(invs, after) && Stamped(after)
    && forall i :: IsPending(after, i) ==> IsPending(invs, i)
  }

  lemma CloseKeepsRows(invs: seq<Invitation>, after: seq<Invitation>)
    requires LawfulRows(invs) && Closes(invs, after)
    ensures LawfulRows(after)
  {
  }

  lemma CloseKeepsTenants(invs: seq<Invitation>, after: seq<Invitation>, schemas: map<string, Tables>)
    requires LawfulTenants(invs, schemas) && Closes(invs, after)
    ensures LawfulTenants(after, schemas)
  {
    forall t ensures AcceptedIn(after, t) == AcceptedIn(invs, t) {
      assert forall i :: IsAccepted(after, i) <==> IsAccepted(invs, i);
    }
  }

  lemma CloseKeeps(w: World, w': World)
    requires Lawful(w) && w' == w.(invitations := w'.invitations) && Closes(w.invitations, w'.invitations)
    ensures Lawful(w')
  {
    CloseKeepsRows(w.invitations, w'.invitations);
    CloseKeepsTenants(w.invitations, w'.invitations, w.schemas);
  }

  /** Expiring or revoking one PENDING row. */
  lemma CloseOne(invs: seq<Invitation>, id: nat, row: Invitation)
    requires LawfulRows(invs) && IsPending(invs, id) && SameRow(row, invs[id]) && row.acceptedAt == invs[id].acceptedAt
    requires (row.status == Expired && row.revokedAt == invs[id].revokedAt) || (row.status == Revoked && row.revokedAt.Some?)
    ensures Closes(invs, invs[id := row])
  {
  }

  lemma CloseStale(invs: seq<Invitation>, cutoff: Time)
    requires LawfulRows(invs)
    ensures Closes(invs, ExpireStale(invs, cutoff))
  {
  }

  lemma AppendKeepsRows(invs: seq<Invitation>, added: Invitation)
    requires LawfulRows(invs) && added.acceptedAt.None? && added.revokedAt.None? && added.status == Pending
    requires forall i :: 0 <= i < |invs| ==> invs[i].token != added.token
    requires forall i :: IsPending(invs, i) ==> !SameInvitee(invs[i], added)
    ensures LawfulRows(invs + [added])
  {
  }

  lemma AppendKeepsTenants(invs: seq<Invitation>, added: Invitation, schemas: map<string, Tables>)
    requires LawfulTenants(invs, schemas) && added.acceptedAt.None?
    requires HasTables(schemas, added.tenantSchema) && added.email !in Users(schemas, added.tenantSchema)
    ensures LawfulTenants(invs + [added], schemas)
  {
    assert forall i :: IsPending(invs + [added], i) ==> IsPending(invs, i) || i == |invs|;
    forall t ensures AcceptedIn(invs + [added], t) == AcceptedIn(invs, t) {
      assert forall i :: IsAccepted(invs + [added], i) <==> IsAccepted(invs, i);
    }
  }

  lemma ConnectKeepsLawful(w: World, schema: string)
    requires Lawful(w)
    ensures var w' := Connect(w, schema).0;
            && Lawful(w') && w'.invitations == w.invitations && w'.schemas == w.schemas
            && w'.tenants == w.tenants
    ensures schema in w.schemas <==> Connect(w, schema).1.Some?
  {
    ProvisionCases(w, schema, false, false);
    if schema in w.schemas {
      ConnectToTables(w, schema);
    } else {
      ProvisionKeepsPool(w, schema, false, false);
    }
  }

  lemma JoinKeepsPool(w: World, w': World)
    requires PoolOk(w) && w'.pool == w.pool
    requires forall s :: HasTables(w.schemas, s) ==> HasTables(w'.schemas, s)
    ensures PoolOk(w')
  {
  }

  lemma InviteKeeps(w: World, now: Time, r: InviteReq)
    requires Lawful(w)
    ensures Lawful(Invite(w, now, r).0)
  {
    hide PoolOk, Tallied, OnePending, TokensUnique, Stamped;
    ConnectKeepsLawful(w, r.schema);
    var (v, outcome) := Invite(w, now, r);
    if outcome == InvitationSaved {
      var added := NewInvitation(r, now);
      forall i | IsPending(w.invitations, i) ensures !SameInvitee(w.invitations[i], added) {
        assert !Selects(ByTenant(r.email, r.schema), w.invitations[i]);
      }
      AppendKeepsRows(w.invitations, added);
      AppendKeepsTenants(w.invitations, added, w.schemas);
      JoinKeepsPool(Connect(w, r.schema).0, v);
    }
  }

  ghost predicate Joins(invs: seq<Invitation>, after: seq<Invitation>, id: nat) {
    && IsPending(invs, id) && |after| == |invs| && after == invs[id := after[id]] && SameRow(after[id], invs[id])
    && after[id].status == Accepted && after[id].acceptedAt.Some? && after[id].revokedAt == invs[id].revokedAt
  }

  lemma JoinKeepsRows(invs: seq<Invitation>, after: seq<Invitation>, id: nat)
    requires LawfulRows(invs) && Joins(invs, after, id)
    ensures LawfulRows(after)
  {
  }

  lemma JoinKeepsTenants(w: World, w': World, id: nat, user: User)
    requires LawfulRows(w.invitations) && LawfulTenants(w.invitations, w.schemas)
    requires Joins(w.invitations, w'.invitations, id) && user.email == w.invitations[id].email
    requires w'.schemas == WithUser(w.schemas, w.invitations[id].tenantSchema, user)
    ensures LawfulTenants(w'.invitations, w'.schemas)
  {
    var schema := w.invitations[id].tenantSchema;
    UsersAfterInsert(w.schemas, schema, user);
    OneMoreKey(Users(w.schemas, schema), user.email, user);
    AcceptedMore(w.invitations, w'.invitations, id);
    forall i | IsPending(w'.invitations, i)
      ensures w'.invitations[i].email !in Users(w'.schemas, w'.invitations[i].tenantSchema)
    {
      assert IsPending(w.invitations, i) && !SameInvitee(w.invitations[i], w.invitations[id]);
    }
  }

  /** A PENDING invitation of a lawful world can always be taken up: insert and status update together make
      one user more and one accepted invitation more. */
  lemma AdmitKeeps(w: World, now: Time, r: AcceptReq, id: nat)
    requires Lawful(w) && IsPending(w.invitations, id)
    ensures Lawful(Admit(w, now, r, id, w.invitations[id]).0)
    ensures Admit(w, now, r, id, w.invitations[id]).1 == UserSaved(NewUser(r, w.invitations[id], now))
  {
    var inv := w.invitations[id];
    ConnectKeepsLawful(w, inv.tenantSchema);
    var (w', outcome) := Admit(w, now, r, id, inv);
    JoinKeepsRows(w.invitations, w'.invitations, id);
    JoinKeepsTenants(w, w', id, NewUser(r, inv, now));
    JoinKeepsPool(Connect(w, inv.tenantSchema).0, w');
  }

  lemma AcceptKeeps(w: World, now: Time, r: AcceptReq, pick: nat)
    requires Lawful(w)
    ensures Lawful(Accept(w, now, r, pick).0)
  {
    hide LawfulRows, LawfulTenants, PoolOk;
    var found := FindOne(w.invitations, ByToken(r.token), pick);
    if found.Some? {
      var inv := w.invitations[found.value];
      assert IsPending(w.invitations, found.value);
      if inv.expiresAt < now {
        CloseOne(w.invitations, found.value, inv.(status := Expired));
        CloseKeeps(w, Accept(w, now, r, pick).0);
      } else {
        AdmitKeeps(w, now, r, found.value);
      }
    }
  }

  lemma NewTenantKeeps(invs: seq<Invitation>, schemas: map<string, Tables>, schema: string, owner: User)
    requires LawfulTenants(invs, schemas) && schema !in schemas
    ensures LawfulTenants(invs, schemas[schema := NO_ROWS.(users := map[owner.email := owner])])
  {
  }

  lemma TenantOpKeeps(w: World, schema: string, owner: User)
    requires Lawful(w)
    ensures Lawful(Do(w, TenantOp(schema, owner)))
  {
    hide PoolOk, LawfulRows, LawfulTenants;
    if schema !in w.schemas {
      NewTenantKeeps(w.invitations, w.schemas, schema, owner);
      JoinKeepsPool(w, Do(w, TenantOp(schema, owner)));
    }
  }

  lemma DoKeeps(w: World, op: Op)
    requires Lawful(w)
    ensures Lawful(Do(w, op))
  {
    hide LawfulRows, LawfulTenants, PoolOk;
    match op
    case TenantOp(schema, owner) => TenantOpKeeps(w, schema, owner);
    case InviteOp(at, r) => InviteKeeps(w, at, r);
    case AcceptOp(at, r, pick) => AcceptKeeps(w, at, r, pick);
    case RevokeOp(at, email, pick) =>
      var found := FindOne(w.invitations, ByEmail(email), pick);
      if found.Some? {
        CloseOne(w.invitations, found.value, Revoke(w, at, email, pick).0.invitations[found.value]);
        CloseKeeps(w, Revoke(w, at, email, pick).0);
      }
    case CleanupOp(at) =>
      CloseStale(w.invitations, at);
      CloseKeeps(w, Cleanup(w, at));
  }

  lemma {:induction false} LawfulAlways(ops: seq<Op>)
    ensures Lawful(Run(EMPTY_WORLD, ops))
  {
    if ops != [] {
      LawfulAlways(ops[..|ops| - 1]);
      DoKeeps(Run(EMPTY_WORLD, ops[..|ops| - 1]), ops[|ops| - 1]);
    } else {
      assert Destroyed([]) == {} && Orphaned([]) == {};
    }
  }

  // ---------------------------------------------------------------- the theorems

  /** Whole calls in any order: at most one PENDING invitation per address and tenant, none for somebody who
      is already a user, users = owner + ACCEPTED invitations, and the time stamps say the status. */
  lemma AtomicLaws(ops: seq<Op>)
    ensures var w := Run(EMPTY_WORLD, ops);
      && (forall i, j | 0 <= i < j < |w.invitations|
                        && w.invitations[i].status == Pending && w.invitations[j].status == Pending
                        && w.invitations[i].email == w.invitations[j].email ::
            w.invitations[i].tenantSchema != w.invitations[j].tenantSchema)
      && (forall i | 0 <= i < |w.invitations| && w.invitations[i].status == Pending ::
            w.invitations[i].email !in Users(w.schemas, w.invitations[i].tenantSchema))
      && (forall i | 0 <= i < |w.invitations| ::
            && (w.invitations[i].acceptedAt.Some? <==> w.invitations[i].status == Accepted)
            && (w.invitations[i].revokedAt.Some? <==> w.invitations[i].status == Revoked))
    ensures var w := Run(EMPTY_WORLD, ops);
      forall s | s in w.schemas ::
        |Users(w.schemas, s)|
          == 1 + |set i | 0 <= i < |w.invitations| && w.invitations[i].status == Accepted
                          && w.invitations[i].tenantSchema == s|
  {
    LawfulAlways(ops);
    var w := Run(EMPTY_WORLD, ops);
    forall i, j | 0 <= i < j < |w.invitations|
      && w.invitations[i].status == Pending && w.invitations[j].status == Pending
      ensures !SameInvitee(w.invitations[i], w.invitations[j])
    {
      assert IsPending(w.invitations, i) && IsPending(w.invitations, j);
    }
    forall i | 0 <= i < |w.invitations| && w.invitations[i].status == Pending
      ensures w.invitations[i].email !in Users(w.schemas, w.invitations[i].tenantSchema)
    {
      assert IsPending(w.invitations, i);
    }
    forall s | s in w.schemas
      ensures AcceptedIn(w.invitations, s)
           == set i | 0 <= i < |w.invitations| && w.invitations[i].status == Accepted
                      && w.invitations[i].tenantSchema == s
    {
    }
  }

  /** After any run an accept answers in exactly one of three ways, decided by the token and the clock alone.
      "User already exists in tenant" is never one of them. */
  lemma AcceptDecided(ops: seq<Op>, now: Time, r: AcceptReq, pick: nat)
    ensures var w := Run(EMPTY_WORLD, ops);
            var outcome := Accept(w, now, r, pick).1;
      && (outcome == InvitationNotFound <==>
            forall i | 0 <= i < |w.invitations| && w.invitations[i].token == r.token :: w.invitations[i].status != Pending)
      && (forall i | 0 <= i < |w.invitations| && w.invitations[i].token == r.token && w.invitations[i].status == Pending ::
            outcome == if w.invitations[i].expiresAt < now then InvitationExpired
                       else UserSaved(NewUser(r, w.invitations[i], now)))
  {
    hide PoolOk, LawfulTenants, OnePending, Stamped, Admit, Run;
    LawfulAlways(ops);
    var w := Run(EMPTY_WORLD, ops);
    var found := FindOne(w.invitations, ByToken(r.token), pick);
    if found.Some? {
      assert IsPending(w.invitations, found.value);
      AdmitKeeps(w, now, r, found.value);
      forall i | 0 <= i < |w.invitations| && w.invitations[i].token == r.token ensures i == found.value {
      }
    } else {
      assert forall i :: 0 <= i < |w.invitations| ==> !Selects(ByToken(r.token), w.invitations[i]);
    }
  }

  /** Later rows extend earlier ones: the columns that name the invitee never change, and a row that has left
      PENDING never changes at all. */
  ghost predicate Extends(before: seq<Invitation>, after: seq<Invitation>) {
    && |before| <= |after|
    && forall i :: 0 <= i < |before| ==>
         SameRow(after[i], before[i]) && (before[i].status != Pending ==> after[i] == before[i])
  }

  lemma AcceptExtends(w: World, now: Time, r: AcceptReq, pick: nat)
    ensures Extends(w.invitations, Accept(w, now, r, pick).0.invitations)
  {
    var found := FindOne(w.invitations, ByToken(r.token), pick);
    if found.Some? { ConnectKeepsInvitations(w, w.invitations[found.value].tenantSchema); }
  }

  lemma DoExtends(w: World, op: Op)
    ensures Extends(w.invitations, Do(w, op).invitations)
  {
    hide Accept, Connect;
    match op
    case TenantOp(_, _) =>
    case InviteOp(at, r) => ConnectKeepsInvitations(w, r.schema);
    case AcceptOp(at, r, pick) => AcceptExtends(w, at, r, pick);
    case RevokeOp(at, email, pick) =>
    case CleanupOp(at) =>
  }

  /** Each invitation leaves PENDING at most once and is immutable from then on. */
  lemma {:induction false} LeavesPendingOnce(w: World, ops: seq<Op>)
    ensures Extends(w.invitations, Run(w, ops).invitations)
  {
    if ops != [] {
      LeavesPendingOnce(w, ops[..|ops| - 1]);
      DoExtends(Run(w, ops[..|ops| - 1]), ops[|ops| - 1]);
    }
  }
}
