/** TenantService and TenantInvitationCleanupService, one await at a time.

    A call is a program counter with its local variables.  `Next` runs a call up to and including its next
    awaited repository call.  Any number of calls are in flight; a run is any sequence of events, so it
    interleaves them in every order.  A call that is never advanced again is one whose request died there. */
module InvitationSteps {
  import opened Tables
  import opened Connections

  datatype InviteReq = InviteReq(schema: string, invitedBy: string, email: string, role: Option<Role>, token: string)

  /** `userId` is the uuid the database will generate for the user. */
  datatype AcceptReq = AcceptReq(token: string, userId: string, password: string, displayName: string)

  datatype Outcome =
    | InvitationSaved
    | DuplicateInvitation
    | DuplicateUser
    | TokenTaken
    | NoConnection
    | InvitationNotFound
    | InvitationExpired
    | UserExists
    | EmailTaken
    | InvitationRevoked
    | CleanupFinished
    | UserSaved(user: User)

  datatype AcceptStage = Connecting | FindingUser | Hashing | Inserting | Marking | Joined

  datatype Call =
    | InviteFind(invite: InviteReq)
    | InviteConnect(invite: InviteReq)
    | InviteFindUser(invite: InviteReq)
    | InviteSave(invite: InviteReq)
    | AcceptFind(accept: AcceptReq)
    | AcceptExpire(id: nat)
      // `inv` is the row as read at line 71, `checkedAt` the clock at line 80
    | Accepting(stage: AcceptStage, accept: AcceptReq, id: nat, inv: Invitation, checkedAt: Time)
    | RevokeFind(revokeEmail: string)
    | RevokeMark(id: nat)
    | CleanupStart
    | CleanupUpdate(cutoff: Time)
    | Finished(outcome: Outcome)

  predicate Initial(call: Call) {
    call.InviteFind? || call.AcceptFind? || call.RevokeFind? || call.CleanupStart?
  }

  /** The `where` of the three lookups; all of them ask for PENDING. */
  datatype Where = ByTenant(email: string, schema: string) | ByToken(token: string) | ByEmail(email: string)

  predicate Selects(where: Where, inv: Invitation) {
    && inv.status == Pending
    && match where
       case ByTenant(e, s) => inv.email == e && inv.tenantSchema == s
       case ByToken(t) => inv.token == t
       case ByEmail(e) => inv.email == e
  }

  function LastMatch(invs: seq<Invitation>, where: Where): (r: Option<nat>)
    ensures r.Some? ==> r.value < |invs| && Selects(where, invs[r.value])
    ensures r.None? ==> forall i :: 0 <= i < |invs| ==> !Selects(where, invs[i])
  {
    if invs == [] then None
    else if Selects(where, invs[|invs| - 1]) then Some(|invs| - 1)
    else LastMatch(invs[..|invs| - 1], where)
  }

  /** `findOne` without an order: some matching row, the one at `pick` if it matches. */
  function FindOne(invs: seq<Invitation>, where: Where, pick: nat): (r: Option<nat>)
    ensures r.Some? ==> r.value < |invs| && Selects(where, invs[r.value])
    ensures r.None? ==> forall i :: 0 <= i < |invs| ==> !Selects(where, invs[i])
  {
    if pick < |invs| && Selects(where, invs[pick]) then Some(pick) else LastMatch(invs, where)
  }

  function NewInvitation(r: InviteReq, now: Time): Invitation {
    Invitation(r.schema, Pending, r.email, if r.role.Some? then r.role.value else MemberRole, r.token,
               r.invitedBy, now, now + DAY, None, None)
  }

  predicate TokenUsed(invs: seq<Invitation>, token: string) {
    exists i :: 0 <= i < |invs| && invs[i].token == token
  }

  function NewUser(r: AcceptReq, inv: Invitation, now: Time): User {
    User(r.userId, inv.email, inv.role, HashPassword(r.password), r.displayName, Some(now))
  }

  predicate Stale(inv: Invitation, cutoff: Time) {
    inv.status == Pending && inv.expiresAt < cutoff
  }

  /** The cron job's single UPDATE. */
  function ExpireStale(invs: seq<Invitation>, cutoff: Time): seq<Invitation> {
    seq(|invs|, i requires 0 <= i < |invs| => if Stale(invs[i], cutoff) then invs[i].(status := Expired) else invs[i])
  }

  function SetRow(w: World, id: nat, inv: Invitation): World
    requires id < |w.invitations|
  {
    w.(invitations := w.invitations[id := inv])
  }

  function NextAccept(w: World, now: Time, stage: AcceptStage, r: AcceptReq, id: nat, inv: Invitation, checkedAt: Time)
    : (World, Call)
  {
    match stage
    case Connecting =>
      var (w', source) := Connect(w, inv.tenantSchema);
      (w', if source.Some? then Accepting(FindingUser, r, id, inv, checkedAt) else Finished(NoConnection))
    case FindingUser =>
      if !HasTables(w.schemas, inv.tenantSchema) then (w, Finished(NoConnection))
      else if inv.email in Users(w.schemas, inv.tenantSchema) then (w, Finished(UserExists))
      else (w, Accepting(Hashing, r, id, inv, checkedAt))
    case Hashing => (w, Accepting(Inserting, r, id, inv, checkedAt))
    case Inserting =>
      if !HasTables(w.schemas, inv.tenantSchema) then (w, Finished(NoConnection))
      else if inv.email in Users(w.schemas, inv.tenantSchema) then (w, Finished(EmailTaken))  // UNIQUE email
      else (w.(schemas := WithUser(w.schemas, inv.tenantSchema, NewUser(r, inv, now))),
            Accepting(Marking, r, id, inv, checkedAt))
    case Marking =>
      if id < |w.invitations| then
        (SetRow(w, id, w.invitations[id].(status := Accepted, acceptedAt := Some(now))),
         Accepting(Joined, r, id, inv, checkedAt))
      else (w, Accepting(Joined, r, id, inv, checkedAt))
    case Joined => (w, Accepting(Joined, r, id, inv, checkedAt))
  }

  /** One awaited call. */
  function Next(w: World, now: Time, call: Call, pick: nat): (World, Call) {
    match call
    case InviteFind(r) =>
      if FindOne(w.invitations, ByTenant(r.email, r.schema), pick).Some?
      then (w, Finished(DuplicateInvitation)) else (w, InviteConnect(r))
    case InviteConnect(r) =>
      var (w', source) := Connect(w, r.schema);
      (w', if source.Some? then InviteFindUser(r) else Finished(NoConnection))
    case InviteFindUser(r) =>
      if !HasTables(w.schemas, r.schema) then (w, Finished(NoConnection))
      else if r.email in Users(w.schemas, r.schema) then (w, Finished(DuplicateUser))
      else (w, InviteSave(r))
    case InviteSave(r) =>
      if TokenUsed(w.invitations, r.token) then (w, Finished(TokenTaken))
      else (w.(invitations := w.invitations + [NewInvitation(r, now)]), Finished(InvitationSaved))
    case AcceptFind(r) =>
      var found := FindOne(w.invitations, ByToken(r.token), pick);
      if found.None? then (w, Finished(InvitationNotFound))
      else
        var inv := w.invitations[found.value];
        if inv.expiresAt < now then (w, AcceptExpire(found.value))
        else (w, Accepting(Connecting, r, found.value, inv, now))
    case AcceptExpire(id) =>
      if id < |w.invitations| then
        (SetRow(w, id, w.invitations[id].(status := Expired)), Finished(InvitationExpired))
      else (w, Finished(InvitationExpired))
    case Accepting(stage, r, id, inv, checkedAt) => NextAccept(w, now, stage, r, id, inv, checkedAt)
    case RevokeFind(email) =>
      var found := FindOne(w.invitations, ByEmail(email), pick);
      (w, if found.None? then Finished(InvitationNotFound) else RevokeMark(found.value))
    case RevokeMark(id) =>
      if id < |w.invitations| then
        (SetRow(w, id, w.invitations[id].(status := Revoked, revokedAt := Some(now))), Finished(InvitationRevoked))
      else (w, Finished(InvitationRevoked))
    case CleanupStart => (w, CleanupUpdate(now))
    case CleanupUpdate(cutoff) =>
      (w.(invitations := ExpireStale(w.invitations, cutoff)), Finished(CleanupFinished))
    case Finished(_) => (w, call)
  }

  // ---------------------------------------------------------------- runs

  /** `owners` records the owner each tenant was created with. */
  datatype Sys = Sys(w: World, calls: seq<Call>, now: Time, owners: map<string, string>)

  datatype Event =
    | NewTenant(schema: string, owner: User)
    | Begin(call: Call)
    | Advance(c: nat, pick: nat)
    | Tick(elapsed: nat)

  function Step(s: Sys, e: Event): Sys {
    match e
    case NewTenant(schema, owner) =>
      if schema in s.w.schemas then s
      else s.(w := s.w.(schemas := s.w.schemas[schema := NO_ROWS.(users := map[owner.email := owner])]),
              owners := s.owners[schema := owner.email])
    case Begin(call) => if Initial(call) then s.(calls := s.calls + [call]) else s
    case Advance(c, pick) =>
      if c < |s.calls| then
        var (w', call') := Next(s.w, s.now, s.calls[c], pick);
        s.(w := w', calls := s.calls[c := call'])
      else s
    case Tick(elapsed) => s.(now := s.now + elapsed)
  }

  function Start(now: Time): Sys {
    Sys(EMPTY_WORLD, [], now, map[])
  }

  function Run(now: Time, events: seq<Event>): Sys {
    if events == [] then Start(now) else Step(Run(now, events[..|events| - 1]), events[|events| - 1])
  }
}
