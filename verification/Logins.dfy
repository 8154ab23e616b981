/** Who can log in, after any run of signups, invitations, acceptances, revocations, cleanups and logins. */
module Logins {
  import opened Tables
  import opened Connections
  import opened InvitationSteps
  import opened InvitationSafety
  import L = Lifecycle
  import S = SignupSteps
  import opened SignupSafety
  import opened Accounts

  /** The claims of both JWTs. */
  datatype Token = Token(sub: string, role: Role, schemaName: string)

  datatype LoginError = TenantRequired | WorkspaceNotActive | Unreachable | InvalidCredentials | EmailNotVerified

  /** The row TenantMiddleware hands to login for a slug it does not reserve. */
  ghost function FindTenant(tenants: map<nat, Tenant>, slug: string): Option<Tenant> {
    if S.SlugTaken(tenants, slug) then
      var id :| id in tenants && tenants[id].slug == slug;
      Some(tenants[id])
    else None
  }

  function SchemaFor(tenant: Tenant): string {
    if tenant.schemaName != "" then tenant.schemaName else "tenant_" + tenant.slug
  }

  function Authenticate(users: map<string, User>, schemaName: string, email: string, password: string)
    : Result<Token, LoginError>
  {
    if email !in users then Err(InvalidCredentials)
    else if users[email].activatedAt.None? then Err(EmailNotVerified)
    else if !Verify(users[email].passwordHash, password) then Err(InvalidCredentials)
    else Ok(Token(users[email].id, users[email].role, schemaName))
  }

  function Login(w: World, tenant: Option<Tenant>, email: string, password: string): (World, Result<Token, LoginError>) {
    if tenant.None? then (w, Err(TenantRequired))
    else if tenant.value.status != Active then (w, Err(WorkspaceNotActive))
    else
      var schemaName := SchemaFor(tenant.value);
      var (w', source) := Connect(w, schemaName);
      if source.None? || !HasTables(w'.schemas, schemaName) then (w', Err(Unreachable))
      else (w', Authenticate(Users(w'.schemas, schemaName), schemaName, email, password))
  }

  // ---------------------------------------------------------------- runs

  datatype Op =
    | SignUpOp(at: Time, req: S.SignupReq, faults: Faults)
    | InviteOp(at: Time, invite: InviteReq)
    | AcceptOp(at: Time, accept: AcceptReq, pick: nat)
    | RevokeOp(at: Time, email: string, pick: nat)
    | CleanupOp(at: Time)
    | LoginOp(slug: string, email: string, password: string)

  ghost function Exec(w: World, op: Op): World {
    match op
    case SignUpOp(at, r, f) => SignUp(w, at, r, f).0
    case InviteOp(at, r) => L.Invite(w, at, r).0
    case AcceptOp(at, r, pick) => L.Accept(w, at, r, pick).0
    case RevokeOp(at, email, pick) => L.Revoke(w, at, email, pick).0
    case CleanupOp(at) => L.Cleanup(w, at)
    case LoginOp(slug, email, password) => Login(w, FindTenant(w.tenants, slug), email, password).0
  }

  ghost function Run(ops: seq<Op>): World {
    if ops == [] then EMPTY_WORLD else Exec(Run(ops[..|ops| - 1]), ops[|ops| - 1])
  }

  /** Somebody set this password for this address in this tenant. */
  datatype Account = Account(schema: string, email: string, password: string)

  /** The account a call's answer says it has made. */
  function Enrols(w: World, op: Op): Option<Account> {
    match op
    case SignUpOp(at, r, f) =>
      if SignUp(w, at, r, f).1.Some? then Some(Account(r.slug, r.ownerEmail, r.password)) else None
    case AcceptOp(at, r, pick) =>
      var found := FindOne(w.invitations, ByToken(r.token), pick);
      var outcome := L.Accept(w, at, r, pick).1;
      if found.Some? && outcome.UserSaved?
      then Some(Account(w.invitations[found.value].tenantSchema, outcome.user.email, r.password)) else None
    case _ => None
  }

  /** The accounts made by successful signups and accepts, read off the calls and their answers. */
  ghost function Book(ops: seq<Op>): set<Account> {
    if ops == [] then {}
    else
      var init, op := ops[..|ops| - 1], ops[|ops| - 1];
      var made := Enrols(Run(init), op);
      Book(init) + if made.Some? then {made.value} else {}
  }

  // ---------------------------------------------------------------- the invariant

  predicate Holds(users: map<string, User>, email: string, password: string) {
    && email in users && users[email].passwordHash == HashPassword(password) && users[email].activatedAt.Some?
  }

  /** The book is right, and it leaves no stored user out. */
  ghost predicate Enrolled(schemas: map<string, Tables>, book: set<Account>) {
    && (forall s, e, p :: Account(s, e, p) in book <==> Holds(Users(schemas, s), e, p))
    && (forall s, e :: e in Users(schemas, s) ==> exists p :: Account(s, e, p) in book)
  }

  ghost predicate AllActive(tenants: map<nat, Tenant>) {
    forall id :: id in tenants ==> tenants[id].status == Active && tenants[id].slug != ""
  }

  ghost predicate Good(w: World, book: set<Account>) {
    L.Lawful(w) && Settled(w) && AllActive(w.tenants) && Enrolled(w.schemas, book)
  }

  /** Every user is activated, so a stored hash is a password somebody can use. */
  lemma EnrolOne(schemas: map<string, Tables>, after: map<string, Tables>, schema: string, user: User,
                 password: string, book: set<Account>)
    requires Enrolled(schemas, book) && user.email !in Users(schemas, schema)
    requires Users(after, schema) == Users(schemas, schema)[user.email := user]
    requires forall t :: t != schema ==> Users(after, t) == Users(schemas, t)
    requires user.passwordHash == HashPassword(password) && user.activatedAt.Some?
    ensures Enrolled(after, book + {Account(schema, user.email, password)})
  {
    var more := book + {Account(schema, user.email, password)};
    forall s, e, p ensures Account(s, e, p) in more <==> Holds(Users(after, s), e, p) {
      assert Account(s, e, p) in book <==> Holds(Users(schemas, s), e, p);
    }
    forall s, e | e in Users(after, s) ensures exists p :: Account(s, e, p) in more {
      if s == schema && e == user.email {
        assert Account(s, e, password) in more;
      } else {
        assert e in Users(schemas, s);
        var p :| Account(s, e, p) in book;
        assert Account(s, e, p) in more;
      }
    }
  }

  /** Settled speaks of tenants, of which schemas exist, and of the pool; team calls change none of the first two. */
  lemma StillSettled(w: World, w': World)
    requires Settled(w) && L.Lawful(w')
    requires w'.tenants == w.tenants && w'.nextTenantId == w.nextTenantId && w'.schemas.Keys == w.schemas.Keys
    ensures Settled(w')
  {
  }

  lemma ConnectKeepsTenants(w: World, schema: string)
    ensures Connect(w, schema).0.tenants == w.tenants && Connect(w, schema).0.nextTenantId == w.nextTenantId
  {
  }

  lemma InviteKeepsGood(w: World, book: set<Account>, at: Time, r: InviteReq)
    requires Good(w, book)
    ensures Good(L.Invite(w, at, r).0, book)
  {
    hide PoolOk, L.LawfulRows, L.LawfulTenants, Settled, Enrolled, AllActive;
    L.InviteKeeps(w, at, r);
    ConnectKeepsTenants(w, r.schema);
    L.ConnectKeepsLawful(w, r.schema);
    StillSettled(w, L.Invite(w, at, r).0);
  }

  lemma AdmitEffect(w: World, at: Time, r: AcceptReq, id: nat, book: set<Account>)
    requires L.Lawful(w) && L.IsPending(w.invitations, id) && Enrolled(w.schemas, book)
    ensures var (w', outcome) := L.Admit(w, at, r, id, w.invitations[id]);
      && outcome == UserSaved(NewUser(r, w.invitations[id], at))
      && w'.tenants == w.tenants && w'.nextTenantId == w.nextTenantId && w'.schemas.Keys == w.schemas.Keys
      && Enrolled(w'.schemas, book + {Account(w.invitations[id].tenantSchema, w.invitations[id].email, r.password)})
  {
    hide PoolOk, Enrolled, L.OnePending, L.TokensUnique, L.Stamped, L.Tallied;
    var inv := w.invitations[id];
    var user := NewUser(r, inv, at);
    L.AdmitKeeps(w, at, r, id);
    L.ConnectKeepsLawful(w, inv.tenantSchema);
    ConnectKeepsTenants(w, inv.tenantSchema);
    UsersAfterInsert(w.schemas, inv.tenantSchema, user);
    EnrolOne(w.schemas, WithUser(w.schemas, inv.tenantSchema, user), inv.tenantSchema, user, r.password, book);
  }

  lemma AcceptKeepsGood(w: World, book: set<Account>, at: Time, r: AcceptReq, pick: nat)
    requires Good(w, book)
    ensures var made := Enrols(w, AcceptOp(at, r, pick));
            Good(L.Accept(w, at, r, pick).0, book + if made.Some? then {made.value} else {})
  {
    hide PoolOk, L.LawfulRows, L.LawfulTenants, Settled, Enrolled, AllActive, Connect, L.Admit;
    L.AcceptKeeps(w, at, r, pick);
    var w' := L.Accept(w, at, r, pick).0;
    assert book + {} == book;
    var found := FindOne(w.invitations, ByToken(r.token), pick);
    if found.Some? && !(w.invitations[found.value].expiresAt < at) {
      AdmitEffect(w, at, r, found.value, book);
    }
    StillSettled(w, w');
  }

  lemma LoginKeepsGood(w: World, book: set<Account>, tenant: Option<Tenant>, email: string, password: string)
    requires Good(w, book)
    ensures Good(Login(w, tenant, email, password).0, book)
  {
    hide PoolOk, L.LawfulRows, L.LawfulTenants, Settled, Enrolled, AllActive, Connect, Authenticate;
    if tenant.Some? {
      L.ConnectKeepsLawful(w, SchemaFor(tenant.value));
      ConnectKeepsTenants(w, SchemaFor(tenant.value));
      StillSettled(w, Connect(w, SchemaFor(tenant.value)).0);
    }
  }

  lemma PoolOnlySettles(w: World, w': World)
    requires Settled(w) && PoolOk(w') && w'.tenants == w.tenants && w'.schemas == w.schemas
    requires w'.nextTenantId >= w.nextTenantId
    ensures Settled(w')
  {
  }

  lemma TenantSettles(w: World, w': World, r: S.SignupReq)
    requires Settled(w) && PoolOk(w') && !S.SlugTaken(w.tenants, r.slug)
    requires w'.tenants == w.tenants[w.nextTenantId := S.TenantRow(r)] && w'.nextTenantId == w.nextTenantId + 1
    requires r.slug in w'.schemas && w'.schemas[r.slug].Migrated?
    requires w'.schemas == w.schemas[r.slug := w'.schemas[r.slug]]
    ensures Settled(w')
  {
    hide NoneLost, Accounted;
    var row := w.nextTenantId;
    assert w'.tenants[row] == S.TenantRow(r);
    forall s | s in w'.schemas ensures S.SlugTaken(w'.tenants, s) {
      if s != r.slug {
        var id :| id in w.tenants && w.tenants[id].slug == s;
        assert id in w'.tenants && w'.tenants[id].slug == s;
      }
    }
  }

  lemma SignUpSettles(w: World, at: Time, r: S.SignupReq, f: Faults)
    requires Settled(w) && PoolOk(w)
    ensures Settled(SignUp(w, at, r, f).0)
  {
    hide SignUp, Settled, PoolOk;
    SignUpAtomic(w, at, r, f);
    var (w', owner) := SignUp(w, at, r, f);
    if owner.Some? { TenantSettles(w, w', r); } else { PoolOnlySettles(w, w'); }
  }

  lemma SignUpKeepsGood(w: World, book: set<Account>, at: Time, r: S.SignupReq, f: Faults)
    requires Good(w, book) && r.slug != ""
    ensures var made := Enrols(w, SignUpOp(at, r, f));
            Good(SignUp(w, at, r, f).0, book + if made.Some? then {made.value} else {})
  {
    hide PoolOk, L.LawfulRows, L.LawfulTenants, Enrolled, SignUp, Settled;
    assert book + {} == book;
    SignUpAtomic(w, at, r, f);
    var (w', owner) := SignUp(w, at, r, f);
    SignUpSettles(w, at, r, f);
    if owner.Some? {
      L.NewTenantKeeps(w.invitations, w.schemas, r.slug, owner.value);
      UsersOfNewTenant(w.schemas, r.slug, owner.value);
      EnrolOne(w.schemas, w'.schemas, r.slug, owner.value, r.password, book);
    }
  }

  lemma RowsOnlyKeepGood(w: World, book: set<Account>, op: L.Op)
    requires Good(w, book) && (op.RevokeOp? || op.CleanupOp?)
    ensures Good(L.Do(w, op), book)
  {
    hide PoolOk, L.LawfulRows, L.LawfulTenants, Settled, Enrolled, AllActive;
    L.DoKeeps(w, op);
    StillSettled(w, L.Do(w, op));
  }

  lemma ExecKeepsGood(w: World, book: set<Account>, op: Op)
    requires Good(w, book) && (op.SignUpOp? ==> op.req.slug != "")
    ensures var made := Enrols(w, op); Good(Exec(w, op), book + if made.Some? then {made.value} else {})
  {
    hide Good, SignUp, Login, L.Invite, L.Accept;
    assert book + {} == book;
    match op
    case SignUpOp(at, r, f) => SignUpKeepsGood(w, book, at, r, f);
    case InviteOp(at, r) => InviteKeepsGood(w, book, at, r);
    case AcceptOp(at, r, pick) => AcceptKeepsGood(w, book, at, r, pick);
    case RevokeOp(at, email, pick) => RowsOnlyKeepGood(w, book, L.RevokeOp(at, email, pick));
    case CleanupOp(at) => RowsOnlyKeepGood(w, book, L.CleanupOp(at));
    case LoginOp(slug, email, password) => LoginKeepsGood(w, book, FindTenant(w.tenants, slug), email, password);
  }

  lemma {:induction false} GoodAlways(ops: seq<Op>)
    requires forall i :: 0 <= i < |ops| && ops[i].SignUpOp? ==> ops[i].req.slug != ""
    ensures Good(Run(ops), Book(ops))
  {
    if ops == [] {
      assert Destroyed([]) == {} && Orphaned([]) == {};
    } else {
      GoodAlways(ops[..|ops| - 1]);
      ExecKeepsGood(Run(ops[..|ops| - 1]), Book(ops[..|ops| - 1]), ops[|ops| - 1]);
    }
  }

  // ---------------------------------------------------------------- the theorem

  lemma LoginDecided(ops: seq<Op>, slug: string, email: string, password: string)
    requires forall i :: 0 <= i < |ops| && ops[i].SignUpOp? ==> ops[i].req.slug != ""
    ensures var w := Run(ops);
            var answer := Login(w, FindTenant(w.tenants, slug), email, password).1;
      && (answer.Ok? <==> Holds(Users(w.schemas, slug), email, password))
      && (answer.Ok? ==>
            answer.value == Token(Users(w.schemas, slug)[email].id, Users(w.schemas, slug)[email].role, slug))
  {
    hide PoolOk, L.LawfulRows, L.LawfulTenants, Connect, Run, Book, Enrolled;
    GoodAlways(ops);
    var w := Run(ops);
    if S.SlugTaken(w.tenants, slug) {
      var tenant := FindTenant(w.tenants, slug).value;
      L.ConnectKeepsLawful(w, slug);
      assert tenant.schemaName == slug && HasTables(w.schemas, slug);
    } else {
      assert slug !in w.schemas;
    }
  }

  /** After any run, login under a slug succeeds exactly for an address and password that some successful
      signup or accept of that tenant set, and the token names that user and that tenant's schema.  Nobody is
      locked out: every stored user logs in, with one password and no other.
      (Request validation keeps the empty slug out of signup.) */
  lemma {:induction false} LoginExact(ops: seq<Op>, slug: string, email: string, password: string)
    requires forall i :: 0 <= i < |ops| && ops[i].SignUpOp? ==> ops[i].req.slug != ""
    ensures var w := Run(ops);
            var answer := Login(w, FindTenant(w.tenants, slug), email, password).1;
      && (answer.Ok? <==> Account(slug, email, password) in Book(ops))
      && (answer.Ok? ==>
            && email in Users(w.schemas, slug)
            && answer.value == Token(Users(w.schemas, slug)[email].id, Users(w.schemas, slug)[email].role, slug))
    ensures var w := Run(ops);
            email in Users(w.schemas, slug) ==>
              exists p :: Account(slug, email, p) in Book(ops) && forall q ::
                Login(w, FindTenant(w.tenants, slug), email, q).1.Ok? <==> q == p
  {
    hide L.Lawful, SignupSafety.Settled, Login, Run, Book;
    GoodAlways(ops);
    var w := Run(ops);
    LoginDecided(ops, slug, email, password);
    assert Account(slug, email, password) in Book(ops) <==> Holds(Users(w.schemas, slug), email, password);
    if email in Users(w.schemas, slug) {
      var p :| Account(slug, email, p) in Book(ops);
      assert Holds(Users(w.schemas, slug), email, p);
      forall q ensures Login(w, FindTenant(w.tenants, slug), email, q).1.Ok? <==> q == p {
        LoginDecided(ops, slug, email, q);
      }
    }
  }

  // ---------------------------------------------------------------- what else holds after any run

  lemma SignUpKeepsUnique(w: World, at: Time, r: S.SignupReq, f: Faults)
    requires RowsUnique(w.tenants)
    ensures RowsUnique(SignUp(w, at, r, f).0.tenants)
  {
    hide RowsUnique, SignUp, Solo;
    SignUpIsSolo(w, at, r, f);
    SoloKeepsUnique(w, at, r, S.Check, f, 11);
  }

  /** No other call touches the tenants table. */
  lemma OthersKeepTenants(w: World, op: Op)
    requires !op.SignUpOp?
    ensures Exec(w, op).tenants == w.tenants
  {
    hide Connect, FindOne, FindTenant;
    match op
    case InviteOp(_, r) => ConnectKeepsTenants(w, r.schema);
    case AcceptOp(_, r, pick) =>
      var found := FindOne(w.invitations, ByToken(r.token), pick);
      if found.Some? { ConnectKeepsTenants(w, w.invitations[found.value].tenantSchema); }
    case LoginOp(slug, _, _) =>
      var tenant := FindTenant(w.tenants, slug);
      if tenant.Some? { ConnectKeepsTenants(w, SchemaFor(tenant.value)); }
    case _ =>
  }

  lemma NoRowsUnique()
    ensures RowsUnique(map[])
  {
  }

  lemma UniqueKept(w: World, op: Op)
    requires RowsUnique(w.tenants)
    ensures RowsUnique(Exec(w, op).tenants)
  {
    hide RowsUnique, SignUp, L.Accept, L.Invite, Login;
    if op.SignUpOp? { SignUpKeepsUnique(w, op.at, op.req, op.faults); } else { OthersKeepTenants(w, op); }
  }

  lemma {:induction false} UniqueAlways(ops: seq<Op>)
    ensures RowsUnique(Run(ops).tenants)
  {
    hide RowsUnique, Exec;
    if ops == [] {
      NoRowsUnique();
    } else {
      var init, op := ops[..|ops| - 1], ops[|ops| - 1];
      UniqueAlways(init);
      UniqueKept(Run(init), op);
    }
  }

  /** After any run a signup without faults succeeds exactly when no stored tenant has its slug, its owner's
      address or its schema name, and two tenants never share any of the three. */
  lemma {:induction false} SignUpExact(ops: seq<Op>, at: Time, r: S.SignupReq)
    requires forall i :: 0 <= i < |ops| && ops[i].SignUpOp? ==> ops[i].req.slug != ""
    ensures var tenants := Run(ops).tenants;
      && (SignUp(Run(ops), at, r, Faults(false, false, false, false, false, false, false)).1.Some? <==>
            forall id :: id in tenants ==>
              tenants[id].slug != r.slug && tenants[id].tenantOwnerEmail != r.ownerEmail && tenants[id].schemaName != r.slug)
      && (forall i, j :: i in tenants && j in tenants && i != j ==>
            && tenants[i].slug != tenants[j].slug && tenants[i].tenantOwnerEmail != tenants[j].tenantOwnerEmail
            && tenants[i].schemaName != tenants[j].schemaName)
  {
    hide Run, SignUp, L.LawfulRows, L.LawfulTenants, Settled, PoolOk;
    GoodAlways(ops);
    UniqueAlways(ops);
    SignUpDecided(Run(ops), at, r, Faults(false, false, false, false, false, false, false));
  }

  /** Login's answers on any state, one by one: what each of them tells the caller, and in which order the
      checks come. */
  lemma LoginAnswers(w: World, tenant: Option<Tenant>, email: string, password: string)
    requires tenant.Some? && tenant.value.status == Active ==>
               HasTables(w.schemas, if tenant.value.schemaName == "" then "tenant_" + tenant.value.slug
                                    else tenant.value.schemaName)
    requires PoolOk(w)
    ensures var answer := Login(w, tenant, email, password).1;
      if tenant.None? then answer == Err(TenantRequired)
      else if tenant.value.status != Active then answer == Err(WorkspaceNotActive)
      else
        var schema := if tenant.value.schemaName == "" then "tenant_" + tenant.value.slug else tenant.value.schemaName;
        var users := w.schemas[schema].users;
        && (answer == Err(EmailNotVerified) <==> email in users && users[email].activatedAt == None)
        && (answer == Err(InvalidCredentials) <==>
              email !in users || (users[email].activatedAt.Some? && users[email].passwordHash != Argon2(password)))
        && (answer.Ok? ==> answer.value == Token(users[email].id, users[email].role, schema))
        && answer != Err(Unreachable)
  {
    hide Connect, PoolOk;
    if tenant.Some? && tenant.value.status == Active { ConnectToTables(w, SchemaFor(tenant.value)); }
  }

  lemma Activated(w: World, book: set<Account>, slug: string, email: string)
    requires Enrolled(w.schemas, book) && email in Users(w.schemas, slug)
    ensures Users(w.schemas, slug)[email].activatedAt.Some?
  {
    var p :| Account(slug, email, p) in book;
    assert Holds(Users(w.schemas, slug), email, p);
  }

  /** After any run a refused login says that there is no such tenant, or that the credentials are invalid;
      it never tells whether the address or the password was wrong. */
  lemma {:induction false} RefusalsAlike(ops: seq<Op>, slug: string, email: string, password: string)
    requires forall i :: 0 <= i < |ops| && ops[i].SignUpOp? ==> ops[i].req.slug != ""
    ensures var w := Run(ops);
            var answer := Login(w, FindTenant(w.tenants, slug), email, password).1;
            answer.Err? ==>
              answer.error == if exists id :: id in w.tenants && w.tenants[id].slug == slug then InvalidCredentials
                              else TenantRequired
  {
    hide PoolOk, L.LawfulRows, L.LawfulTenants, Run, Book, Login, Enrolled;
    GoodAlways(ops);
    var w := Run(ops);
    var tenant := FindTenant(w.tenants, slug);
    if S.SlugTaken(w.tenants, slug) {
      assert tenant.value.schemaName == slug && tenant.value.status == Active && HasTables(w.schemas, slug);
      assert slug != "";
      if email in Users(w.schemas, slug) { Activated(w, Book(ops), slug, email); }
    } else {
      assert tenant.None?;
    }
    LoginAnswers(w, tenant, email, password);
    LoginDecided(ops, slug, email, password);
  }
}
