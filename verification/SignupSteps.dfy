/** AuthService.signup, one await at a time.  Every await in the `try` may fault; a fault leaves no effect and
    sends the call to the `catch`, whose own steps do not fail.  Any number of signups are in flight. */
module SignupSteps {
  import opened Tables
  import opened Connections

  /** `userId` is the uuid the database will generate for the owner. */
  datatype SignupReq = SignupReq(name: string, slug: string, ownerEmail: string, password: string, userId: string)

  datatype Pc =
    | Check
    | Hash
    | SaveRow
    | CreateSchema(row: nat)
    | InitSource(row: nat)
    | Migrate(row: nat, source: nat)
    | InsertOwner(row: nat, source: nat)
    | Created(owner: User)
    | Refused                    // thrown before the `try`
    | Drop(undo: Option<nat>)    // in the `catch`; the row, if `tenant?.id` is set
    | DeleteRow(row: nat)
    | Disconnect
    | ForgetConnection
    | RolledBack

  predicate Over(pc: Pc) {
    pc.Created? || pc.Refused? || pc.RolledBack?
  }

  function TenantRow(r: SignupReq): Tenant {
    Tenant(r.name, r.slug, r.ownerEmail, r.slug, Active)
  }

  function Owner(r: SignupReq, now: Time): User {
    User(r.userId, r.ownerEmail, OwnerRole, HashPassword(r.password), r.name, Some(now))
  }

  predicate SlugTaken(tenants: map<nat, Tenant>, slug: string) {
    exists id :: id in tenants && tenants[id].slug == slug
  }

  /** The three UNIQUE columns of the tenants table. */
  predicate Conflicts(tenants: map<nat, Tenant>, row: Tenant) {
    exists id :: id in tenants
      && (tenants[id].slug == row.slug || tenants[id].tenantOwnerEmail == row.tenantOwnerEmail
          || tenants[id].schemaName == row.schemaName)
  }

  function InsertRow(w: World, row: Tenant): World {
    w.(tenants := w.tenants[w.nextTenantId := row], nextTenantId := w.nextTenantId + 1)
  }

  function CreateIfAbsent(w: World, schema: string): World {
    if schema in w.schemas then w else w.(schemas := w.schemas[schema := Bare])
  }

  function DropSchema(w: World, schema: string): World {
    w.(schemas := w.schemas - {schema})
  }

  function RemoveRow(w: World, row: nat): World {
    w.(tenants := w.tenants - {row})
  }

  /** `userRepository.save` of the owner: needs the table, and an address not yet in it. */
  function SaveOwner(w: World, r: SignupReq, now: Time): (World, bool) {
    if HasTables(w.schemas, r.slug) && r.ownerEmail !in Users(w.schemas, r.slug) then
      (w.(schemas := WithUser(w.schemas, r.slug, Owner(r, now))), true)
    else
      (w, false)
  }

  function Next(w: World, now: Time, r: SignupReq, pc: Pc, fault: bool): (World, Pc) {
    match pc
    case Check => (w, if fault || SlugTaken(w.tenants, r.slug) then Refused else Hash)
    case Hash => (w, if fault then Refused else SaveRow)
    case SaveRow =>
      if fault || Conflicts(w.tenants, TenantRow(r)) then (w, Drop(None))
      else (InsertRow(w, TenantRow(r)), CreateSchema(w.nextTenantId))
    case CreateSchema(row) =>
      if fault then (w, Drop(Some(row))) else (CreateIfAbsent(w, r.slug), InitSource(row))
    case InitSource(row) =>
      if fault then (w, Drop(Some(row))) else (Initialise(w, r.slug), Migrate(row, |w.pool.sources|))
    case Migrate(row, source) =>
      if source >= |w.pool.sources| then (w, Drop(Some(row)))
      else
        var (w', ok) := RunMigrations(w, source, fault);
        if ok then (Remember(w', r.slug, source), InsertOwner(row, source)) else (w', Drop(Some(row)))
    case InsertOwner(row, source) =>
      if fault then (w, Drop(Some(row)))
      else
        var (w', ok) := SaveOwner(w, r, now);
        (w', if ok then Created(Owner(r, now)) else Drop(Some(row)))
    case Drop(undo) =>
      (DropSchema(w, r.slug), if undo.Some? then DeleteRow(undo.value) else Disconnect)
    case DeleteRow(row) => (RemoveRow(w, row), Disconnect)
    case Disconnect =>
      if Connected(w, r.slug) then (Destroy(w, r.slug), ForgetConnection) else (w, RolledBack)
    case ForgetConnection => (Forget(w, r.slug), RolledBack)
    case Created(_) => (w, pc)
    case Refused => (w, pc)
    case RolledBack => (w, pc)
  }

  datatype Signup = Signup(req: SignupReq, pc: Pc)

  datatype Sys = Sys(w: World, calls: seq<Signup>, now: Time)

  /** Advance one call by one await, or let time pass. */
  datatype Event = Advance(c: nat, fault: bool) | Tick(elapsed: nat)

  function Step(s: Sys, e: Event): Sys {
    match e
    case Advance(c, fault) =>
      if c < |s.calls| then
        var (w', pc') := Next(s.w, s.now, s.calls[c].req, s.calls[c].pc, fault);
        s.(w := w', calls := s.calls[c := s.calls[c].(pc := pc')])
      else s
    case Tick(elapsed) => s.(now := s.now + elapsed)
  }

  function Begin(w: World, reqs: seq<SignupReq>, now: Time): Sys {
    Sys(w, seq(|reqs|, i requires 0 <= i < |reqs| => Signup(reqs[i], Check)), now)
  }

  function Run(s: Sys, events: seq<Event>): Sys {
    if events == [] then s else Step(Run(s, events[..|events| - 1]), events[|events| - 1])
  }

  predicate AllOver(s: Sys) {
    forall c :: 0 <= c < |s.calls| ==> Over(s.calls[c].pc)
  }
}
