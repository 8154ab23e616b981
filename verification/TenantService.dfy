/** TenantService and its cleanup job as objects over the database.  Each method does to the state, and answers,
    what the function Lifecycle gives for a call running alone. */
module TenantServices {
  import opened Tables
  import Connections
  import opened InvitationSteps
  import opened Provisioning
  import L = Lifecycle

  class TenantService {
    const provisioning: TenantProvisioningService

    constructor (provisioning: TenantProvisioningService)
      ensures this.provisioning == provisioning
    {
      this.provisioning := provisioning;
    }

    method InviteUserToTenant(r: InviteReq, now: Time) returns (outcome: Outcome)
      requires provisioning.Valid()
      modifies provisioning.Repr()
      ensures provisioning.Valid() && fresh(provisioning.Repr() - old(provisioning.Repr()))
      ensures (provisioning.State(), outcome) == L.Invite(old(provisioning.State()), now, r)
    {
      hide Connections.GetDataSource, FindOne, LastMatch,
        TenantProvisioningService.Summarised, TenantProvisioningService.Filed, TenantProvisioningService.Valid;
      var db := provisioning.database;
      var existing := FindOne(db.invitations, ByTenant(r.email, r.schema), 0);
      if existing.Some? {
        return DuplicateInvitation;
      }
      var tenantDb := provisioning.GetDataSource(r.schema, false, false);
      if tenantDb.None? {
        return NoConnection;
      }
      var tables := tenantDb.value.Query();
      if tables.None? {
        return NoConnection;
      }
      if r.email in tables.value.users {
        return DuplicateUser;
      }
      if TokenUsed(db.invitations, r.token) {
        return TokenTaken;
      }
      db.invitations := db.invitations + [NewInvitation(r, now)];
      return InvitationSaved;
    }

    method AcceptTenantInvitation(r: AcceptReq, now: Time, pick: nat) returns (outcome: Outcome)
      requires provisioning.Valid()
      modifies provisioning.Repr()
      ensures provisioning.Valid() && fresh(provisioning.Repr() - old(provisioning.Repr()))
      ensures (provisioning.State(), outcome) == L.Accept(old(provisioning.State()), now, r, pick)
    {
      hide Connections.GetDataSource, FindOne, LastMatch,
        TenantProvisioningService.Summarised, TenantProvisioningService.Filed, TenantProvisioningService.Valid;
      var db := provisioning.database;
      var found := FindOne(db.invitations, ByToken(r.token), pick);
      if found.None? {
        return InvitationNotFound;
      }
      var id := found.value;
      var inv := db.invitations[id];
      if inv.expiresAt < now {
        db.invitations := db.invitations[id := inv.(status := Expired)];
        return InvitationExpired;
      }
      L.ConnectKeepsInvitations(provisioning.State(), inv.tenantSchema);
      var tenantDb := provisioning.GetDataSource(inv.tenantSchema, false, false);
      if tenantDb.None? {
        return NoConnection;
      }
      var tables := tenantDb.value.Query();
      if tables.None? {
        return NoConnection;
      }
      if inv.email in tables.value.users {
        return UserExists;
      }
      var user := NewUser(r, inv, now);
      var saved := tenantDb.value.SaveUser(user);
      if !saved {
        return EmailTaken;
      }
      db.invitations := db.invitations[id := db.invitations[id].(status := Accepted, acceptedAt := Some(now))];
      return UserSaved(user);
    }

    method RevokeInvitation(email: string, now: Time, pick: nat) returns (outcome: Outcome)
      modifies provisioning.database`invitations
      ensures (provisioning.State(), outcome) == L.Revoke(old(provisioning.State()), now, email, pick)
    {
      var db := provisioning.database;
      var found := FindOne(db.invitations, ByEmail(email), pick);
      if found.None? {
        return InvitationNotFound;
      }
      var id := found.value;
      db.invitations := db.invitations[id := db.invitations[id].(status := Revoked, revokedAt := Some(now))];
      return InvitationRevoked;
    }
  }

  class TenantInvitationCleanupService {
    const database: Database

    constructor (database: Database)
      ensures this.database == database
    {
      this.database := database;
    }

    /** Exactly the stale rows become EXPIRED, and nothing else about any row changes. */
    method ExpireStaleInvitations(now: Time)
      modifies database`invitations
      ensures database.invitations == ExpireStale(old(database.invitations), now)
      ensures |database.invitations| == |old(database.invitations)|
      ensures forall i :: 0 <= i < |database.invitations| ==>
                var was := old(database.invitations)[i];
                database.invitations[i]
                == if was.status == Pending && was.expiresAt < now then was.(status := Expired) else was
    {
      database.invitations := ExpireStale(database.invitations, now);
    }
  }
}
