/** The state every service shares: the rows of the public schema, the contents of each tenant schema,
    and the connection pool.

    - `Tenant`, `Invitation` and `User` keep the columns that some branch of the services reads or writes.
    - A table with a UNIQUE or primary-key column that the services rely on is a map keyed by that column.
    - Invitations are never deleted, so that table is a sequence and a row's id is its position.
 */
module Tables {
  datatype Option<+T> = None | Some(value: T)

  datatype Result<+T, +E> = Ok(value: T) | Err(error: E)

  /** Milliseconds since the epoch. */
  type Time = int

  const DAY: int := 24 * 60 * 60 * 1000

  datatype Role = OwnerRole | AdminRole | MemberRole

  /** Argon2 as an abstract pair: a hash verifies exactly the password it was made from. */
  datatype PasswordHash = Argon2(password: string)

  function HashPassword(password: string): PasswordHash {
    Argon2(password)
  }

  predicate Verify(hash: PasswordHash, password: string) {
    hash.password == password
  }

  datatype User = User(
    id: string, email: string, role: Role, passwordHash: PasswordHash, displayName: string,
    activatedAt: Option<Time>)

  datatype Product = Product(id: string, title: string, description: Option<string>, tenantSchema: string)

  datatype Changelog = Changelog(id: string, productId: string, title: string, content: string, createdAt: Time)

  datatype Feedback = Feedback(
    id: string, content: Option<string>, userId: string, productId: string, changelogId: Option<string>)

  /** A PostgreSQL schema is bare until the tenant migrations have run in it. */
  datatype Tables =
    | Bare
    | Migrated(
        users: map<string, User>, products: map<string, Product>,
        changelogs: map<string, Changelog>, feedback: map<string, Feedback>)

  const NO_ROWS: Tables := Migrated(map[], map[], map[], map[])

  datatype TenantStatus = PendingTenant | Active | Inactive | Suspended

  datatype Tenant = Tenant(
    name: string, slug: string, tenantOwnerEmail: string, schemaName: string, status: TenantStatus)

  datatype InvitationStatus = Pending | Accepted | Revoked | Expired

  datatype Invitation = Invitation(
    tenantSchema: string, status: InvitationStatus, email: string, role: Role, token: string,
    invitedByUserId: string, createdAt: Time, expiresAt: Time,
    acceptedAt: Option<Time>, revokedAt: Option<Time>)

  /** A TypeORM DataSource that has been initialised at least once. */
  datatype Source = Source(schema: string, initialised: bool, migrated: bool)

  /** Every DataSource ever initialised, and the cache from schema name to the one in use. */
  datatype Pool = Pool(cache: map<string, nat>, sources: seq<Source>)

  datatype World = World(
    tenants: map<nat, Tenant>, nextTenantId: nat, invitations: seq<Invitation>,
    schemas: map<string, Tables>, pool: Pool)

  const EMPTY_WORLD: World := World(map[], 0, [], map[], Pool(map[], []))

  /** The users table of a schema; a schema that is absent or bare has no users. */
  function Users(schemas: map<string, Tables>, schema: string): map<string, User> {
    if schema in schemas && schemas[schema].Migrated? then schemas[schema].users else map[]
  }

  function Products(schemas: map<string, Tables>, schema: string): map<string, Product> {
    if schema in schemas && schemas[schema].Migrated? then schemas[schema].products else map[]
  }

  function Changelogs(schemas: map<string, Tables>, schema: string): map<string, Changelog> {
    if schema in schemas && schemas[schema].Migrated? then schemas[schema].changelogs else map[]
  }

  predicate HasTables(schemas: map<string, Tables>, schema: string) {
    schema in schemas && schemas[schema].Migrated?
  }

  function WithUser(schemas: map<string, Tables>, schema: string, user: User): (r: map<string, Tables>)
    requires HasTables(schemas, schema)
  {
    schemas[schema := schemas[schema].(users := schemas[schema].users[user.email := user])]
  }
}
