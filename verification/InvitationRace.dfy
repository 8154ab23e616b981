/** The laws of whole calls do not survive interleaving: a run in which an accept and a revoke of one invitation
    overlap and both go through.  InvitationSafety says what every interleaving keeps, InvitationClash exactly
    which batches of calls keep status and dates in step. */
module InvitationRace {
  import opened Tables
  import opened Connections
  import opened InvitationSteps
  import opened InvitationSerial

  const OWNER := User("u0", "owner@t", OwnerRole, Argon2("pw"), "Owner", Some(0))
  const INVITE := InviteReq("t", "u0", "a@t", None, "token")
  const ACCEPT := AcceptReq("token", "u1", "pw", "A")

  /** Tenant t, connected; users as given, one invitation as given. */
  function Scene(users: map<string, User>, inv: Invitation): World {
    World(map[], 0, [inv], map["t" := NO_ROWS.(users := users)], Pool(map["t" := 0], [Source("t", true, true)]))
  }

  function At(now: Time, w: World, calls: seq<Call>): Sys {
    Sys(w, calls, now, map["t" := OWNER.email])
  }

  /** The tenant is there and the invite has its connection. */
  lemma Inviting(now: Time) returns (events: seq<Event>)
    ensures Run(now, events)
         == At(now, Scene(map[OWNER.email := OWNER], NewInvitation(INVITE, now)).(invitations := []),
               [InviteFindUser(INVITE)])
  {
    hide LastMatch;
    events := More(now, [], NewTenant("t", OWNER));
    events := More(now, events, Begin(InviteFind(INVITE)));
    events := More(now, events, Advance(0, 0));
    assert Run(now, events).calls == [InviteConnect(INVITE)];
    events := More(now, events, Advance(0, 0));
    assert Run(now, events).calls == [InviteFindUser(INVITE)];
    assert Run(now, events).w.pool == Pool(map["t" := 0], [Source("t", true, true)]);
    assert Run(now, events).w.schemas == map["t" := NO_ROWS.(users := map[OWNER.email := OWNER])];
  }

  lemma Invited(now: Time) returns (events: seq<Event>)
    ensures Run(now, events)
         == At(now, Scene(map[OWNER.email := OWNER], NewInvitation(INVITE, now)), [Finished(InvitationSaved)])
  {
    hide Connect, FindOne, LastMatch;
    events := Inviting(now);
    events := More(now, events, Advance(0, 0));
    assert Run(now, events).calls == [InviteSave(INVITE)];
    events := More(now, events, Advance(0, 0));
  }

  /** The accept has read the row. */
  lemma ReadRow(now: Time) returns (events: seq<Event>)
    ensures Run(now, events)
         == At(now, Scene(map[OWNER.email := OWNER], NewInvitation(INVITE, now)),
               [Finished(InvitationSaved), Accepting(Connecting, ACCEPT, 0, NewInvitation(INVITE, now), now)])
  {
    hide Connect;
    events := Invited(now);
    events := More(now, events, Begin(AcceptFind(ACCEPT)));
    assert Run(now, events).calls == [Finished(InvitationSaved), AcceptFind(ACCEPT)];
    events := More(now, events, Advance(1, 0));
  }

  /** The accept has the tenant's connection. */
  lemma Reached(now: Time) returns (events: seq<Event>)
    ensures Run(now, events)
         == At(now, Scene(map[OWNER.email := OWNER], NewInvitation(INVITE, now)),
               [Finished(InvitationSaved), Accepting(FindingUser, ACCEPT, 0, NewInvitation(INVITE, now), now)])
  {
    hide FindOne, LastMatch;
    events := ReadRow(now);
    events := More(now, events, Advance(1, 0));
  }

  function WithInvitee(now: Time): World {
    Scene(map[OWNER.email := OWNER, "a@t" := NewUser(ACCEPT, NewInvitation(INVITE, now), now)],
          NewInvitation(INVITE, now))
  }

  /** The accept has inserted its user. */
  lemma Inserted(now: Time) returns (events: seq<Event>)
    ensures Run(now, events)
         == At(now, WithInvitee(now),
               [Finished(InvitationSaved), Accepting(Marking, ACCEPT, 0, NewInvitation(INVITE, now), now)])
  {
    hide Connect, LastMatch, FindOne;
    var inv := NewInvitation(INVITE, now);
    events := Reached(now);
    events := More(now, events, Advance(1, 0));
    assert Run(now, events).calls == [Finished(InvitationSaved), Accepting(Hashing, ACCEPT, 0, inv, now)];
    events := More(now, events, Advance(1, 0));
    assert Run(now, events).calls == [Finished(InvitationSaved), Accepting(Inserting, ACCEPT, 0, inv, now)];
    events := More(now, events, Advance(1, 0));
    assert Run(now, events).w.schemas["t"].users
        == map[OWNER.email := OWNER, "a@t" := NewUser(ACCEPT, inv, now)];
    assert Run(now, events).w.schemas == WithInvitee(now).schemas;
    assert Run(now, events).calls == [Finished(InvitationSaved), Accepting(Marking, ACCEPT, 0, inv, now)];
  }

  /** And the revoke has found the row still PENDING. */
  lemma Overlapping(now: Time) returns (events: seq<Event>)
    ensures Run(now, events)
         == At(now, WithInvitee(now),
               [Finished(InvitationSaved), Accepting(Marking, ACCEPT, 0, NewInvitation(INVITE, now), now),
                RevokeMark(0)])
  {
    hide Connect;
    var inv := NewInvitation(INVITE, now);
    events := Inserted(now);
    events := More(now, events, Begin(RevokeFind("a@t")));
    assert Run(now, events).calls
        == [Finished(InvitationSaved), Accepting(Marking, ACCEPT, 0, inv, now), RevokeFind("a@t")];
    events := More(now, events, Advance(2, 0));
  }

  /** The accept has marked the row; the revoke still means to. */
  lemma Marked(now: Time) returns (events: seq<Event>)
    ensures Run(now, events)
         == At(now, WithInvitee(now).(invitations :=
                  [NewInvitation(INVITE, now).(status := InvitationStatus.Accepted, acceptedAt := Some(now))]),
               [Finished(InvitationSaved), Accepting(AcceptStage.Joined, ACCEPT, 0, NewInvitation(INVITE, now), now),
                RevokeMark(0)])
  {
    hide Connect, LastMatch, FindOne;
    events := Overlapping(now);
    events := More(now, events, Advance(1, 0));
  }

  /** An accept and a revoke of one invitation can both succeed: the invitee is a user, and the row that made
      her one ends REVOKED with both dates set. */
  lemma OverlapRevokesAccepted(now: Time)
    ensures exists events ::
      var w := Run(now, events).w;
      && |w.invitations| == 1 && w.invitations[0].email in Users(w.schemas, w.invitations[0].tenantSchema)
      && w.invitations[0].status == Revoked
      && w.invitations[0].acceptedAt.Some? && w.invitations[0].revokedAt.Some?
  {
    hide Connect, LastMatch, FindOne;
    var events := Marked(now);
    events := More(now, events, Advance(2, 0));
  }
}
