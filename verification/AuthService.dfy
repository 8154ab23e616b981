/** AuthService as an object: the `try` and `catch` of signup, and login. */
module AuthServices {
  import opened Tables
  import opened SignupSteps
  import Connections
  import opened Provisioning
  import opened Accounts
  import L = Logins

  class AuthService {
    const provisioning: TenantProvisioningService

    constructor (provisioning: TenantProvisioningService)
      ensures this.provisioning == provisioning
    {
      this.provisioning := provisioning;
    }

    /** Insert the tenant row, its UNIQUE columns having been checked. */
    method InsertTenant(row: Tenant) returns (id: nat)
      modifies provisioning.database
      ensures id == old(provisioning.State()).nextTenantId
      ensures provisioning.State() == InsertRow(old(provisioning.State()), row)
    {
      var db := provisioning.database;
      id := db.nextTenantId;
      db.tenants, db.nextTenantId := db.tenants[id := row], id + 1;
    }

    /** `CREATE SCHEMA IF NOT EXISTS`. */
    method CreateSchemaFor(slug: string)
      modifies provisioning.database
      ensures provisioning.State() == CreateIfAbsent(old(provisioning.State()), slug)
    {
      var db := provisioning.database;
      if slug !in db.schemas {
        db.schemas := db.schemas[slug := Bare];
      }
    }

    /** The `try`: the owner, or an error with the id of the tenant row saved so far. */
    method TryToCreate(r: SignupReq, now: Time, f: Faults) returns (result: Result<User, Option<nat>>)
      requires provisioning.Valid()
      modifies provisioning.Repr()
      ensures provisioning.Valid() && fresh(provisioning.Repr() - old(provisioning.Repr()))
      ensures (provisioning.State(), result) == Attempt(old(provisioning.State()), now, r, f)
    {
      hide Connections.Provision, Conflicts, InsertRow, CreateIfAbsent, TenantRow,
        TenantProvisioningService.Summarised, TenantProvisioningService.Filed, TenantProvisioningService.Valid;
      if f.save || Conflicts(provisioning.database.tenants, TenantRow(r)) {
        return Err(None);
      }
      var tenant := InsertTenant(TenantRow(r));
      if f.create {
        return Err(Some(tenant));
      }
      CreateSchemaFor(r.slug);
      var tenantDb := provisioning.Provision(r.slug, f.init, f.migrate);
      if tenantDb.None? || f.insert {
        return Err(Some(tenant));
      }
      var saved := tenantDb.value.SaveUser(Owner(r, now));
      return if saved then Ok(Owner(r, now)) else Err(Some(tenant));
    }

    /** The `catch`. */
    method RollBack(slug: string, tenant: Option<nat>)
      requires provisioning.Valid()
      modifies provisioning.Repr()
      ensures provisioning.Valid() && fresh(provisioning.Repr() - old(provisioning.Repr()))
      ensures provisioning.State() == Compensate(old(provisioning.State()), slug, tenant)
    {
      var db := provisioning.database;
      db.schemas := db.schemas - {slug};
      if tenant.Some? {
        db.tenants := db.tenants - {tenant.value};
      }
      provisioning.DeleteConnection(slug);
    }

    method SignUp(r: SignupReq, now: Time, f: Faults) returns (owner: Option<User>)
      requires provisioning.Valid()
      modifies provisioning.Repr()
      ensures provisioning.Valid() && fresh(provisioning.Repr() - old(provisioning.Repr()))
      ensures (provisioning.State(), owner) == Accounts.SignUp(old(provisioning.State()), now, r, f)
    {
      if f.check || SlugTaken(provisioning.database.tenants, r.slug) || f.hash {
        return None;
      }
      var result := TryToCreate(r, now, f);
      match result {
        case Ok(user) => owner := Some(user);
        case Err(tenant) =>
          RollBack(r.slug, tenant);
          owner := None;
      }
    }

    method Login(tenant: Option<Tenant>, email: string, password: string) returns (r: Result<L.Token, L.LoginError>)
      requires provisioning.Valid()
      modifies provisioning.Repr()
      ensures provisioning.Valid() && fresh(provisioning.Repr() - old(provisioning.Repr()))
      ensures (provisioning.State(), r) == L.Login(old(provisioning.State()), tenant, email, password)
    {
      if tenant.None? {
        return Err(L.TenantRequired);
      }
      if tenant.value.status != Active {
        return Err(L.WorkspaceNotActive);
      }
      var schemaName := L.SchemaFor(tenant.value);
      var tenantDb := provisioning.GetDataSource(schemaName, false, false);
      if tenantDb.None? {
        return Err(L.Unreachable);
      }
      var tables := tenantDb.value.Query();
      if tables.None? {
        return Err(L.Unreachable);
      }
      if email !in tables.value.users {
        return Err(L.InvalidCredentials);
      }
      var user := tables.value.users[email];
      if user.activatedAt.None? {
        return Err(L.EmailNotVerified);
      }
      if !Verify(user.passwordHash, password) {
        return Err(L.InvalidCredentials);
      }
      return Ok(L.Token(user.id, user.role, schemaName));
    }
  }
}
