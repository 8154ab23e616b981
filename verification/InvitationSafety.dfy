/** What holds at every step of every interleaving of invite, accept, revoke and cleanup calls. */
module InvitationSafety {
  import opened Tables
  import opened Connections
  import opened InvitationSteps

  /** The columns that no statement of the services updates. */
  predicate SameRow(a: Invitation, b: Invitation) {
    && a.tenantSchema == b.tenantSchema && a.email == b.email && a.role == b.role && a.token == b.token
    && a.invitedByUserId == b.invitedByUserId && a.createdAt == b.createdAt && a.expiresAt == b.expiresAt
  }

  /** The invitee is a user of the inviting tenant, in the role offered. */
  predicate Member(schemas: map<string, Tables>, inv: Invitation) {
    && inv.email in Users(schemas, inv.tenantSchema)
    && Users(schemas, inv.tenantSchema)[inv.email].role == inv.role
  }

  predicate IsAccepted(invs: seq<Invitation>, i: int) {
    0 <= i < |invs| && invs[i].acceptedAt.Some?
  }

  /** Call c has inserted its user and not yet updated its invitation. */
  predicate IsMarking(calls: seq<Call>, c: int) {
    0 <= c < |calls| && calls[c].Accepting? && calls[c].stage == Marking
  }

  function AcceptedIn(invs: seq<Invitation>, schema: string): set<int> {
    set i | 0 <= i < |invs| && IsAccepted(invs, i) && invs[i].tenantSchema == schema
  }

  function MarkingIn(calls: seq<Call>, schema: string): set<int> {
    set c | 0 <= c < |calls| && IsMarking(calls, c) && calls[c].inv.tenantSchema == schema
  }

  /** Call c inserted the user `u` of `schema`, having checked the invitation's expiry no later than 24 hours
      after the invitation was made. */
  predicate CreatedBy(calls: seq<Call>, c: int, schema: string, u: User) {
    && 0 <= c < |calls| && calls[c].Accepting? && (calls[c].stage == Marking || calls[c].stage == Joined)
    && calls[c].inv.tenantSchema == schema && calls[c].inv.email == u.email && calls[c].inv.role == u.role
    && u.passwordHash == HashPassword(calls[c].accept.password)
    && calls[c].inv.createdAt <= calls[c].checkedAt <= calls[c].inv.createdAt + DAY
  }

  // ---------------------------------------------------------------- the inductive invariant

  predicate RowOk(inv: Invitation, now: Time) {
    inv.createdAt <= now && inv.expiresAt == inv.createdAt + DAY
  }

  /** A row that says ACCEPTED or REVOKED has the date of it; a date may outlive its status. */
  predicate Dated(inv: Invitation) {
    (inv.status == Accepted ==> inv.acceptedAt.Some?) && (inv.status == Revoked ==> inv.revokedAt.Some?)
  }

  ghost predicate RowsOk(invs: seq<Invitation>, schemas: map<string, Tables>, now: Time) {
    forall i :: 0 <= i < |invs| ==>
      RowOk(invs[i], now) && Dated(invs[i]) && (IsAccepted(invs, i) ==> Member(schemas, invs[i]))
  }

  predicate CallOk(invs: seq<Invitation>, schemas: map<string, Tables>, now: Time, call: Call) {
    match call
    case AcceptExpire(id) => id < |invs|
    case RevokeMark(id) => id < |invs|
    case Accepting(stage, accept, id, inv, checkedAt) =>
      && id < |invs| && SameRow(invs[id], inv) && RowOk(inv, now) && inv.token == accept.token
      && inv.createdAt <= checkedAt <= inv.expiresAt
      && (stage == Marking ==> Member(schemas, inv) && invs[id].acceptedAt.None?)
    case _ => true
  }

  ghost predicate CallsOk(invs: seq<Invitation>, schemas: map<string, Tables>, now: Time, calls: seq<Call>) {
    forall c :: 0 <= c < |calls| ==> CallOk(invs, schemas, now, calls[c])
  }

  predicate SameInvitee(a: Invitation, b: Invitation) {
    a.tenantSchema == b.tenantSchema && a.email == b.email
  }

  /** No two accepted invitations, and no two accepts between insert and update, and no one of each, are for
      the same person in the same tenant. */
  ghost predicate Distinct(invs: seq<Invitation>, calls: seq<Call>) {
    && (forall i, j :: IsAccepted(invs, i) && IsAccepted(invs, j) && i != j ==> !SameInvitee(invs[i], invs[j]))
    && (forall c, d :: IsMarking(calls, c) && IsMarking(calls, d) && c != d ==> !SameInvitee(calls[c].inv, calls[d].inv))
    && (forall i, c :: IsAccepted(invs, i) && IsMarking(calls, c) ==> !SameInvitee(invs[i], calls[c].inv))
  }

  ghost predicate Counted(invs: seq<Invitation>, schemas: map<string, Tables>, calls: seq<Call>) {
    forall s :: HasTables(schemas, s) ==>
      |Users(schemas, s)| == 1 + |AcceptedIn(invs, s)| + |MarkingIn(calls, s)|
  }

  ghost predicate Traced(schemas: map<string, Tables>, calls: seq<Call>, owners: map<string, string>) {
    forall s, e :: e in Users(schemas, s) ==>
      && s in owners && Users(schemas, s)[e].email == e
      && (e == owners[s] || exists c :: CreatedBy(calls, c, s, Users(schemas, s)[e]))
  }

  ghost predicate Owned(schemas: map<string, Tables>, owners: map<string, string>) {
    forall s :: s in schemas ==> schemas[s].Migrated? && s in owners
  }

  ghost predicate Safe(s: Sys) {
    && RowsOk(s.w.invitations, s.w.schemas, s.now)
    && CallsOk(s.w.invitations, s.w.schemas, s.now, s.calls)
    && Distinct(s.w.invitations, s.calls)
    && Counted(s.w.invitations, s.w.schemas, s.calls)
    && Traced(s.w.schemas, s.calls, s.owners)
    && Owned(s.w.schemas, s.owners)
  }

  // ---------------------------------------------------------------- the four effects a step can have

  /** Same rows, as far as acceptance is concerned. */
  ghost predicate QuietRows(before: seq<Invitation>, after: seq<Invitation>) {
    && |after| == |before|
    && forall i :: 0 <= i < |before| ==> SameRow(after[i], before[i]) && after[i].acceptedAt == before[i].acceptedAt
  }

  ghost predicate StepsTo(s: Sys, s': Sys, c: nat, call': Call) {
    && c < |s.calls| && s'.calls == s.calls[c := call'] && s'.owners == s.owners && s'.now == s.now
  }

  /** A user keeps its creator as long as that call keeps its locals and stays past the insert. */
  lemma StillTraced(s: Sys, s': Sys, c: nat)
    requires Traced(s.w.schemas, s.calls, s.owners)
    requires c < |s.calls| <= |s'.calls| && s'.w.schemas == s.w.schemas && s'.owners == s.owners
    requires forall d :: 0 <= d < |s.calls| && d != c ==> s'.calls[d] == s.calls[d]
    requires s.calls[c].Accepting? && s.calls[c].stage == Joined ==> s'.calls[c] == s.calls[c]
    requires IsMarking(s.calls, c) ==> s'.calls[c] == s.calls[c].(stage := Joined)
    ensures Traced(s'.w.schemas, s'.calls, s'.owners)
  {
    forall t, e | e in Users(s.w.schemas, t) && e != s.owners[t]
      ensures exists d :: CreatedBy(s'.calls, d, t, Users(s.w.schemas, t)[e])
    {
      var d :| CreatedBy(s.calls, d, t, Users(s.w.schemas, t)[e]);
      assert CreatedBy(s'.calls, d, t, Users(s.w.schemas, t)[e]);
    }
  }

  /** Nobody is inserted, nobody accepted. */
  lemma QuietKeeps(s: Sys, s': Sys, c: nat, call': Call)
    requires Safe(s) && StepsTo(s, s', c, call')
    requires !IsMarking(s.calls, c) && !(call'.Accepting? && call'.stage == Marking)
    requires s.calls[c].Accepting? && s.calls[c].stage == Joined ==> call' == s.calls[c]
    requires s'.w.schemas == s.w.schemas
    requires QuietRows(s.w.invitations, s'.w.invitations)
    requires forall i :: 0 <= i < |s'.w.invitations| ==> Dated(s'.w.invitations[i])
    requires CallOk(s'.w.invitations, s.w.schemas, s.now, call')
    ensures Safe(s')
  {
    assert forall i :: IsAccepted(s'.w.invitations, i) <==> IsAccepted(s.w.invitations, i);
    assert forall d :: IsMarking(s'.calls, d) <==> IsMarking(s.calls, d);
    forall t ensures AcceptedIn(s'.w.invitations, t) == AcceptedIn(s.w.invitations, t)
                  && MarkingIn(s'.calls, t) == MarkingIn(s.calls, t) {
    }
    StillTraced(s, s', c);
  }

  /** Line 66: a new PENDING invitation. */
  lemma SaveKeeps(s: Sys, s': Sys, c: nat, inv: Invitation)
    requires Safe(s) && StepsTo(s, s', c, Finished(InvitationSaved)) && !s.calls[c].Accepting?
    requires RowOk(inv, s.now) && Dated(inv) && inv.acceptedAt.None?
    requires s'.w.schemas == s.w.schemas && s'.w.invitations == s.w.invitations + [inv]
    ensures Safe(s')
  {
    assert forall i :: IsAccepted(s'.w.invitations, i) <==> IsAccepted(s.w.invitations, i);
    assert forall d :: IsMarking(s'.calls, d) <==> IsMarking(s.calls, d);
    forall t ensures AcceptedIn(s'.w.invitations, t) == AcceptedIn(s.w.invitations, t)
                  && MarkingIn(s'.calls, t) == MarkingIn(s.calls, t) {
    }
    StillTraced(s, s', c);
  }

  ghost predicate Inserts(s: Sys, s': Sys, c: nat) {
    && c < |s.calls| && s.calls[c].Accepting? && s.calls[c].stage == Inserting
    && StepsTo(s, s', c, s.calls[c].(stage := Marking))
    && var inv := s.calls[c].inv;
       && HasTables(s.w.schemas, inv.tenantSchema) && inv.email !in Users(s.w.schemas, inv.tenantSchema)
       && s'.w == s.w.(schemas := WithUser(s.w.schemas, inv.tenantSchema, NewUser(s.calls[c].accept, inv, s.now)))
  }

  lemma UsersAfterInsert(schemas: map<string, Tables>, schema: string, u: User)
    requires HasTables(schemas, schema)
    ensures var after := WithUser(schemas, schema, u);
            && Users(after, schema) == Users(schemas, schema)[u.email := u]
            && (forall t :: t != schema ==> Users(after, t) == Users(schemas, t))
            && (forall t :: HasTables(after, t) <==> HasTables(schemas, t))
  {
  }

  lemma InsertKeepsMembers(s: Sys, s': Sys, c: nat)
    requires Safe(s) && Inserts(s, s', c)
    ensures RowsOk(s'.w.invitations, s'.w.schemas, s'.now)
    ensures CallsOk(s'.w.invitations, s'.w.schemas, s'.now, s'.calls)
  {
    var inv := s.calls[c].inv;
    UsersAfterInsert(s.w.schemas, inv.tenantSchema, NewUser(s.calls[c].accept, inv, s.now));
    assert forall other: Invitation :: Member(s.w.schemas, other) ==> Member(s'.w.schemas, other);
    assert CallOk(s.w.invitations, s.w.schemas, s.now, s.calls[c]);
    assert Member(s'.w.schemas, inv);
  }

  lemma InsertKeepsDistinct(s: Sys, s': Sys, c: nat)
    requires Safe(s) && Inserts(s, s', c)
    ensures Distinct(s'.w.invitations, s'.calls)
  {
    var inv := s.calls[c].inv;
    forall d | IsMarking(s'.calls, d) && d != c ensures !SameInvitee(s'.calls[d].inv, inv) {
      assert IsMarking(s.calls, d) && CallOk(s.w.invitations, s.w.schemas, s.now, s.calls[d]);
    }
    forall i | IsAccepted(s.w.invitations, i) ensures !SameInvitee(s.w.invitations[i], inv) {
      assert Member(s.w.schemas, s.w.invitations[i]);
    }
    assert forall d :: IsMarking(s'.calls, d) ==> IsMarking(s.calls, d) || d == c;
  }

  lemma InsertKeepsCounts(s: Sys, s': Sys, c: nat)
    requires Counted(s.w.invitations, s.w.schemas, s.calls) && Inserts(s, s', c)
    ensures Counted(s'.w.invitations, s'.w.schemas, s'.calls)
  {
    var schema := s.calls[c].inv.tenantSchema;
    var u := NewUser(s.calls[c].accept, s.calls[c].inv, s.now);
    UsersAfterInsert(s.w.schemas, schema, u);
    OneMoreKey(Users(s.w.schemas, schema), u.email, u);
    assert MarkingIn(s'.calls, schema) == MarkingIn(s.calls, schema) + {c};
    forall t | t != schema ensures MarkingIn(s'.calls, t) == MarkingIn(s.calls, t) {
    }
  }

  lemma InsertKeepsTraces(s: Sys, s': Sys, c: nat)
    requires Safe(s) && Inserts(s, s', c)
    ensures Traced(s'.w.schemas, s'.calls, s'.owners) && Owned(s'.w.schemas, s'.owners)
  {
    var schema := s.calls[c].inv.tenantSchema;
    var u := NewUser(s.calls[c].accept, s.calls[c].inv, s.now);
    UsersAfterInsert(s.w.schemas, schema, u);
    assert CallOk(s.w.invitations, s.w.schemas, s.now, s.calls[c]);
    forall t, e | e in Users(s'.w.schemas, t)
      ensures t in s.owners && Users(s'.w.schemas, t)[e].email == e
      ensures e == s.owners[t] || exists d :: CreatedBy(s'.calls, d, t, Users(s'.w.schemas, t)[e])
    {
      if t == schema && e == u.email {
        assert CreatedBy(s'.calls, c, t, u);
      } else if e != s.owners[t] {
        var d :| CreatedBy(s.calls, d, t, Users(s.w.schemas, t)[e]);
        assert CreatedBy(s'.calls, d, t, Users(s.w.schemas, t)[e]);
      }
    }
  }

  /** Line 102: the insert.  UNIQUE email means nobody had claimed the address before. */
  lemma InsertKeeps(s: Sys, s': Sys, c: nat)
    requires Safe(s) && Inserts(s, s', c)
    ensures Safe(s')
  {
    InsertKeepsMembers(s, s', c);
    InsertKeepsDistinct(s, s', c);
    InsertKeepsCounts(s, s', c);
    InsertKeepsTraces(s, s', c);
  }

  /** Call c sets `acceptedAt` on its invitation. */
  ghost predicate Marks(s: Sys, s': Sys, c: nat) {
    && IsMarking(s.calls, c) && StepsTo(s, s', c, s.calls[c].(stage := Joined))
    && var id := s.calls[c].id;
       && id < |s.w.invitations| == |s'.w.invitations|
       && s'.w.schemas == s.w.schemas && s'.w.invitations == s.w.invitations[id := s'.w.invitations[id]]
       && SameRow(s'.w.invitations[id], s.w.invitations[id]) && s'.w.invitations[id].acceptedAt.Some?
       && Dated(s'.w.invitations[id])
  }

  /** Nobody else is about to mark this invitation: that would be a second claim on its address. */
  lemma MarkKeepsCalls(s: Sys, s': Sys, c: nat)
    requires Safe(s) && Marks(s, s', c)
    ensures CallsOk(s'.w.invitations, s'.w.schemas, s'.now, s'.calls)
    ensures RowsOk(s'.w.invitations, s'.w.schemas, s'.now)
  {
    assert CallOk(s.w.invitations, s.w.schemas, s.now, s.calls[c]);
    forall d | 0 <= d < |s'.calls|
      ensures CallOk(s'.w.invitations, s'.w.schemas, s'.now, s'.calls[d])
    {
      assert CallOk(s.w.invitations, s.w.schemas, s.now, s.calls[d]);
      if d != c && IsMarking(s.calls, d) {
        assert !SameInvitee(s.calls[c].inv, s.calls[d].inv);
      }
    }
  }

  lemma MarkKeepsDistinct(s: Sys, s': Sys, c: nat)
    requires Safe(s) && Marks(s, s', c)
    ensures Distinct(s'.w.invitations, s'.calls)
  {
    var id := s.calls[c].id;
    assert CallOk(s.w.invitations, s.w.schemas, s.now, s.calls[c]);
    assert SameInvitee(s'.w.invitations[id], s.calls[c].inv);
    assert forall i :: IsAccepted(s'.w.invitations, i) ==> IsAccepted(s.w.invitations, i) || i == id;
    assert forall d :: IsMarking(s'.calls, d) ==> IsMarking(s.calls, d) && d != c;
  }

  lemma AcceptedMore(before: seq<Invitation>, after: seq<Invitation>, id: nat)
    requires id < |before| == |after| && after == before[id := after[id]]
    requires before[id].acceptedAt.None? && after[id].acceptedAt.Some?
    requires after[id].tenantSchema == before[id].tenantSchema
    ensures forall t :: |AcceptedIn(after, t)| == |AcceptedIn(before, t)| + if t == before[id].tenantSchema then 1 else 0
  {
    forall t ensures |AcceptedIn(after, t)| == |AcceptedIn(before, t)| + if t == before[id].tenantSchema then 1 else 0 {
      assert AcceptedIn(after, t) == AcceptedIn(before, t) + if t == before[id].tenantSchema then {id} else {};
    }
  }

  lemma MarkingLess(before: seq<Call>, after: seq<Call>, c: nat)
    requires IsMarking(before, c) && !IsMarking(after, c)
    requires |after| == |before| && after == before[c := after[c]]
    ensures forall t :: |MarkingIn(before, t)| == |MarkingIn(after, t)| + if t == before[c].inv.tenantSchema then 1 else 0
  {
    forall t ensures |MarkingIn(before, t)| == |MarkingIn(after, t)| + if t == before[c].inv.tenantSchema then 1 else 0 {
      assert MarkingIn(before, t) == MarkingIn(after, t) + if t == before[c].inv.tenantSchema then {c} else {};
    }
  }

  lemma MarkKeepsCounts(s: Sys, s': Sys, c: nat)
    requires Safe(s) && Marks(s, s', c)
    ensures Counted(s'.w.invitations, s'.w.schemas, s'.calls)
  {
    assert CallOk(s.w.invitations, s.w.schemas, s.now, s.calls[c]);
    AcceptedMore(s.w.invitations, s'.w.invitations, s.calls[c].id);
    MarkingLess(s.calls, s'.calls, c);
  }

  /** Line 110: the claim passes from the call to its invitation. */
  lemma MarkKeeps(s: Sys, s': Sys, c: nat)
    requires Safe(s) && Marks(s, s', c)
    ensures Safe(s')
  {
    MarkKeepsCalls(s, s', c);
    MarkKeepsDistinct(s, s', c);
    MarkKeepsCounts(s, s', c);
    StillTraced(s, s', c);
  }

  // ---------------------------------------------------------------- every step has one of those effects

  /** Connecting to a schema that has its tables, or does not exist, changes no table. */
  lemma ConnectIsQuiet(s: Sys, schema: string)
    requires Owned(s.w.schemas, s.owners)
    ensures Connect(s.w, schema).0.schemas == s.w.schemas
    ensures Connect(s.w, schema).0.invitations == s.w.invitations
  {
  }

  lemma AdvanceAcceptKeeps(s: Sys, c: nat, pick: nat)
    requires Safe(s) && c < |s.calls| && s.calls[c].Accepting?
    ensures Safe(Step(s, Advance(c, pick)))
  {
    var s' := Step(s, Advance(c, pick));
    var call := s.calls[c];
    assert CallOk(s.w.invitations, s.w.schemas, s.now, call);
    match call.stage
    case Connecting =>
      ConnectIsQuiet(s, call.inv.tenantSchema);
      QuietKeeps(s, s', c, s'.calls[c]);
    case Inserting =>
      if s'.calls[c].Finished? { QuietKeeps(s, s', c, s'.calls[c]); } else { InsertKeeps(s, s', c); }
    case Marking => MarkKeeps(s, s', c);
    case _ => QuietKeeps(s, s', c, s'.calls[c]);
  }

  lemma AdvanceInviteKeeps(s: Sys, c: nat, pick: nat)
    requires Safe(s) && c < |s.calls|
    requires s.calls[c].InviteFind? || s.calls[c].InviteConnect? || s.calls[c].InviteFindUser? || s.calls[c].InviteSave?
    ensures Safe(Step(s, Advance(c, pick)))
  {
    var s' := Step(s, Advance(c, pick));
    if s.calls[c].InviteConnect? { ConnectIsQuiet(s, s.calls[c].invite.schema); }
    if s.calls[c].InviteSave? && s'.calls[c] == Finished(InvitationSaved) {
      SaveKeeps(s, s', c, NewInvitation(s.calls[c].invite, s.now));
    } else {
      QuietKeeps(s, s', c, s'.calls[c]);
    }
  }

  lemma AdvanceOtherKeeps(s: Sys, c: nat, pick: nat)
    requires Safe(s) && c < |s.calls|
    requires s.calls[c].RevokeFind? || s.calls[c].RevokeMark? || s.calls[c].CleanupStart?
          || s.calls[c].CleanupUpdate? || s.calls[c].AcceptExpire? || s.calls[c].Finished?
    ensures Safe(Step(s, Advance(c, pick)))
  {
    var s' := Step(s, Advance(c, pick));
    QuietKeeps(s, s', c, s'.calls[c]);
  }

  lemma AcceptFindIsQuiet(s: Sys, c: nat, pick: nat)
    requires Safe(s) && c < |s.calls| && s.calls[c].AcceptFind?
    ensures var s' := Step(s, Advance(c, pick));
            s'.w == s.w && CallOk(s.w.invitations, s.w.schemas, s.now, s'.calls[c])
  {
  }

  lemma AdvanceKeeps(s: Sys, c: nat, pick: nat)
    requires Safe(s) && c < |s.calls|
    ensures Safe(Step(s, Advance(c, pick)))
  {
    var call := s.calls[c];
    if call.Accepting? {
      AdvanceAcceptKeeps(s, c, pick);
    } else if call.AcceptFind? {
      AcceptFindIsQuiet(s, c, pick);
      QuietKeeps(s, Step(s, Advance(c, pick)), c, Step(s, Advance(c, pick)).calls[c]);
    } else if call.InviteFind? || call.InviteConnect? || call.InviteFindUser? || call.InviteSave? {
      AdvanceInviteKeeps(s, c, pick);
    } else {
      AdvanceOtherKeeps(s, c, pick);
    }
  }

  lemma UsersOfNewTenant(schemas: map<string, Tables>, schema: string, owner: User)
    requires schema !in schemas
    ensures var after := schemas[schema := NO_ROWS.(users := map[owner.email := owner])];
            && Users(after, schema) == map[owner.email := owner]
            && (forall t :: t != schema ==> Users(after, t) == Users(schemas, t))
            && (forall inv: Invitation :: Member(schemas, inv) ==> Member(after, inv))
  {
  }

  /** Nobody was invited to a schema that did not exist. */
  lemma TenantKeepsCounts(s: Sys, s': Sys, schema: string)
    requires Safe(s) && schema !in s.w.schemas
    requires s'.w.invitations == s.w.invitations && s'.calls == s.calls
    requires |Users(s'.w.schemas, schema)| == 1
    requires forall t :: t != schema ==> Users(s'.w.schemas, t) == Users(s.w.schemas, t)
    requires forall t :: t != schema && HasTables(s'.w.schemas, t) ==> HasTables(s.w.schemas, t)
    ensures Counted(s'.w.invitations, s'.w.schemas, s'.calls)
  {
  }

  lemma TenantKeepsCalls(s: Sys, s': Sys)
    requires RowsOk(s.w.invitations, s.w.schemas, s.now) && CallsOk(s.w.invitations, s.w.schemas, s.now, s.calls)
    requires s'.w.invitations == s.w.invitations && s'.calls == s.calls && s'.now >= s.now
    requires forall inv: Invitation :: Member(s.w.schemas, inv) ==> Member(s'.w.schemas, inv)
    ensures RowsOk(s'.w.invitations, s'.w.schemas, s'.now) && CallsOk(s'.w.invitations, s'.w.schemas, s'.now, s'.calls)
  {
  }

  lemma TenantKeeps(s: Sys, schema: string, owner: User)
    requires Safe(s)
    ensures Safe(Step(s, NewTenant(schema, owner)))
  {
    var s' := Step(s, NewTenant(schema, owner));
    if schema !in s.w.schemas {
      UsersOfNewTenant(s.w.schemas, schema, owner);
      TenantKeepsCounts(s, s', schema);
      TenantKeepsCalls(s, s');
    }
  }

  lemma BeginKeepsTraces(s: Sys, call: Call)
    requires Traced(s.w.schemas, s.calls, s.owners)
    ensures Traced(s.w.schemas, s.calls + [call], s.owners)
  {
    forall t, e | e in Users(s.w.schemas, t) && e != s.owners[t]
      ensures exists d :: CreatedBy(s.calls + [call], d, t, Users(s.w.schemas, t)[e])
    {
      var d :| CreatedBy(s.calls, d, t, Users(s.w.schemas, t)[e]);
      assert CreatedBy(s.calls + [call], d, t, Users(s.w.schemas, t)[e]);
    }
  }

  lemma BeginKeeps(s: Sys, call: Call)
    requires Safe(s)
    ensures Safe(Step(s, Begin(call)))
  {
    if Initial(call) {
      var s' := Step(s, Begin(call));
      assert forall d :: IsMarking(s'.calls, d) <==> IsMarking(s.calls, d);
      forall t ensures MarkingIn(s'.calls, t) == MarkingIn(s.calls, t) {
      }
      BeginKeepsTraces(s, call);
    }
  }

  lemma {:induction false} SafeAlways(now: Time, events: seq<Event>)
    ensures Safe(Run(now, events))
  {
    if events != [] {
      SafeAlways(now, events[..|events| - 1]);
      var s := Run(now, events[..|events| - 1]);
      match events[|events| - 1]
      case NewTenant(schema, owner) => TenantKeeps(s, schema, owner);
      case Begin(call) => BeginKeeps(s, call);
      case Advance(c, pick) => if c < |s.calls| { AdvanceKeeps(s, c, pick); }
      case Tick(elapsed) => TenantKeepsCalls(s, Step(s, Tick(elapsed)));
    }
  }

  // ---------------------------------------------------------------- the theorems

  /** In every interleaving, an invitation with `acceptedAt` set has a user in its tenant with its email and
      role, and two of them in one tenant never share an email. */
  lemma AcceptedOnce(now: Time, events: seq<Event>)
    ensures var w := Run(now, events).w;
      forall i | 0 <= i < |w.invitations| && w.invitations[i].acceptedAt.Some? ::
        var inv := w.invitations[i];
        && inv.email in Users(w.schemas, inv.tenantSchema)
        && Users(w.schemas, inv.tenantSchema)[inv.email].role == inv.role
    ensures var w := Run(now, events).w;
      forall i, j | 0 <= i < j < |w.invitations|
                    && w.invitations[i].acceptedAt.Some? && w.invitations[j].acceptedAt.Some?
                    && w.invitations[i].tenantSchema == w.invitations[j].tenantSchema ::
        w.invitations[i].email != w.invitations[j].email
  {
    SafeAlways(now, events);
    var w := Run(now, events).w;
    forall i | 0 <= i < |w.invitations| && w.invitations[i].acceptedAt.Some?
      ensures Member(w.schemas, w.invitations[i])
    {
      assert IsAccepted(w.invitations, i);
    }
    forall i, j | 0 <= i < j < |w.invitations|
      && w.invitations[i].acceptedAt.Some? && w.invitations[j].acceptedAt.Some?
      ensures !SameInvitee(w.invitations[i], w.invitations[j])
    {
      assert IsAccepted(w.invitations, i) && IsAccepted(w.invitations, j);
    }
  }

  /** At every step of every interleaving a tenant's users are its owner, its accepted invitations and the
      accepts that are past the insert but not past the status update. */
  lemma UsersConserved(now: Time, events: seq<Event>, schema: string)
    requires schema in Run(now, events).w.schemas
    ensures var s := Run(now, events);
      |Users(s.w.schemas, schema)|
        == 1
         + |set i | 0 <= i < |s.w.invitations| && s.w.invitations[i].acceptedAt.Some?
                    && s.w.invitations[i].tenantSchema == schema|
         + |set c | 0 <= c < |s.calls| && s.calls[c].Accepting? && s.calls[c].stage == Marking
                    && s.calls[c].inv.tenantSchema == schema|
  {
    SafeAlways(now, events);
    var s := Run(now, events);
    assert AcceptedIn(s.w.invitations, schema)
        == set i | 0 <= i < |s.w.invitations| && s.w.invitations[i].acceptedAt.Some?
                   && s.w.invitations[i].tenantSchema == schema;
    assert MarkingIn(s.calls, schema)
        == set c | 0 <= c < |s.calls| && s.calls[c].Accepting? && s.calls[c].stage == Marking
                   && s.calls[c].inv.tenantSchema == schema;
    assert HasTables(s.w.schemas, schema);
  }

  /** In every interleaving a row that says ACCEPTED has `acceptedAt` and one that says REVOKED has `revokedAt`. */
  lemma {:induction false} StatusIsDated(now: Time, events: seq<Event>)
    ensures var w := Run(now, events).w;
      forall i | 0 <= i < |w.invitations| ::
        && (w.invitations[i].status == Accepted ==> w.invitations[i].acceptedAt.Some?)
        && (w.invitations[i].status == Revoked ==> w.invitations[i].revokedAt.Some?)
  {
    SafeAlways(now, events);
    var w := Run(now, events).w;
    forall i | 0 <= i < |w.invitations| ensures Dated(w.invitations[i]) {
    }
  }

  /** The invitation that call c took up is in the table, under the token c was called with. */
  predicate TookUp(calls: seq<Call>, invs: seq<Invitation>, c: int) {
    && 0 <= c < |calls| && calls[c].Accepting? && calls[c].id < |invs|
    && SameRow(invs[calls[c].id], calls[c].inv) && invs[calls[c].id].token == calls[c].accept.token
  }

  /** In every interleaving every user but the owner was inserted by an accept that carried the token of an
      invitation in the table, for that address, role and tenant, with that accept's password, and whose expiry
      check passed within 24 hours of the invite. */
  lemma {:induction false} EveryUserInvited(now: Time, events: seq<Event>, schema: string, email: string)
    requires var s := Run(now, events);
             email in Users(s.w.schemas, schema) && schema in s.owners && email != s.owners[schema]
    ensures var s := Run(now, events);
            exists c :: CreatedBy(s.calls, c, schema, Users(s.w.schemas, schema)[email])
                        && TookUp(s.calls, s.w.invitations, c)
  {
    SafeAlways(now, events);
    var s := Run(now, events);
    var c :| CreatedBy(s.calls, c, schema, Users(s.w.schemas, schema)[email]);
    assert CallOk(s.w.invitations, s.w.schemas, s.now, s.calls[c]);
    assert TookUp(s.calls, s.w.invitations, c);
  }
}
