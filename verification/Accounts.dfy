/** Signup as a whole call: the `try`, the `catch`, and what is left when it returns. */
module Accounts {
  import opened Tables
  import opened Connections
  import opened SignupSteps
  import opened SignupSafety

  /** Which of signup's awaits fault. */
  datatype Faults = Faults(check: bool, hash: bool, save: bool, create: bool, init: bool, migrate: bool, insert: bool)

  /** The `try`; an error carries the id of the tenant row if it was saved. */
  function Attempt(w: World, now: Time, r: SignupReq, f: Faults): (World, Result<User, Option<nat>>) {
    if f.save || Conflicts(w.tenants, TenantRow(r)) then
      (w, Err(None))
    else
      var row := w.nextTenantId;
      var w1 := InsertRow(w, TenantRow(r));
      if f.create then (w1, Err(Some(row)))
      else
        var (w2, source) := Provision(CreateIfAbsent(w1, r.slug), r.slug, f.init, f.migrate);
        if source.None? || f.insert then (w2, Err(Some(row)))
        else
          var (w3, ok) := SaveOwner(w2, r, now);
          (w3, if ok then Ok(Owner(r, now)) else Err(Some(row)))
  }

  /** The `catch` up to its disconnect. */
  function Cleaned(w: World, slug: string, undo: Option<nat>): World {
    var dropped := DropSchema(w, slug);
    if undo.Some? then RemoveRow(dropped, undo.value) else dropped
  }

  /** The `catch`. */
  function Compensate(w: World, slug: string, undo: Option<nat>): World {
    DeleteConnection(Cleaned(w, slug, undo), slug)
  }

  function SignUp(w: World, now: Time, r: SignupReq, f: Faults): (World, Option<User>) {
    if f.check || SlugTaken(w.tenants, r.slug) || f.hash then
      (w, None)
    else
      var (w', result) := Attempt(w, now, r, f);
      match result
      case Ok(owner) => (w', Some(owner))
      case Err(undo) => (Compensate(w', r.slug, undo), None)
  }

  // ---------------------------------------------------------------- a signup alone is the step machine alone

  predicate FaultAt(f: Faults, pc: Pc) {
    match pc
    case Check => f.check
    case Hash => f.hash
    case SaveRow => f.save
    case CreateSchema(_) => f.create
    case InitSource(_) => f.init
    case Migrate(_, _) => f.migrate
    case InsertOwner(_, _) => f.insert
    case _ => false
  }

  function Solo(w: World, now: Time, r: SignupReq, pc: Pc, f: Faults, awaits: nat): (World, Pc)
    decreases awaits
  {
    if awaits == 0 then (w, pc)
    else
      var (w', pc') := Next(w, now, r, pc, FaultAt(f, pc));
      Solo(w', now, r, pc', f, awaits - 1)
  }

  lemma OverStays(w: World, now: Time, r: SignupReq, pc: Pc, f: Faults, awaits: nat)
    requires Over(pc)
    ensures Solo(w, now, r, pc, f, awaits) == (w, pc)
    decreases awaits
  {
  }

  lemma CompensateIsSolo(w: World, now: Time, r: SignupReq, undo: Option<nat>, f: Faults, awaits: nat)
    requires awaits >= 4
    ensures Solo(w, now, r, Drop(undo), f, awaits) == (Compensate(w, r.slug, undo), RolledBack)
    decreases awaits
  {
    var (w1, c1) := Next(w, now, r, Drop(undo), false);
    var (w2, c2) := if undo.Some? then Next(w1, now, r, c1, false) else (w1, c1);
    var (w3, c3) := Next(w2, now, r, c2, false);
    var n := if undo.Some? then awaits - 3 else awaits - 2;
    assert Solo(w, now, r, Drop(undo), f, awaits) == Solo(w1, now, r, c1, f, awaits - 1) == Solo(w3, now, r, c3, f, n);
    if c3.RolledBack? {
      OverStays(w3, now, r, c3, f, n);
    } else {
      assert Solo(w3, now, r, c3, f, n) == Solo(Forget(w3, r.slug), now, r, RolledBack, f, n - 1);
      OverStays(Forget(w3, r.slug), now, r, RolledBack, f, n - 1);
    }
  }

  lemma OwnerIsSolo(w: World, now: Time, r: SignupReq, f: Faults, row: nat)
    ensures var (w2, source) := Provision(w, r.slug, f.init, f.migrate);
            Solo(w, now, r, InitSource(row), f, 7)
              == if source.None? || f.insert then (Compensate(w2, r.slug, Some(row)), RolledBack)
                 else
                   var (w3, ok) := SaveOwner(w2, r, now);
                   if ok then (w3, Created(Owner(r, now))) else (Compensate(w3, r.slug, Some(row)), RolledBack)
  {
    hide Compensate, SaveOwner;
    if f.init {
      CompensateIsSolo(w, now, r, Some(row), f, 6);
    } else {
      var w1 := Initialise(w, r.slug);
      var n := |w.pool.sources|;
      assert Solo(w, now, r, InitSource(row), f, 7) == Solo(w1, now, r, Migrate(row, n), f, 6);
      var (w2, c2) := Next(w1, now, r, Migrate(row, n), f.migrate);
      assert Solo(w1, now, r, Migrate(row, n), f, 6) == Solo(w2, now, r, c2, f, 5);
      if c2.Drop? {
        CompensateIsSolo(w2, now, r, Some(row), f, 5);
      } else {
        var (w3, c3) := Next(w2, now, r, c2, f.insert);
        assert Solo(w2, now, r, c2, f, 5) == Solo(w3, now, r, c3, f, 4);
        if c3.Drop? {
          CompensateIsSolo(w3, now, r, Some(row), f, 4);
        } else {
          OverStays(w3, now, r, c3, f, 4);
        }
      }
    }
  }

  /** From the row insert on: either the whole `try` or the whole `catch` on top of what was done. */
  lemma AttemptIsSolo(w: World, now: Time, r: SignupReq, f: Faults)
    ensures var (w', result) := Attempt(w, now, r, f);
            Solo(w, now, r, SaveRow, f, 9)
              == match result
                 case Ok(owner) => (w', Created(owner))
                 case Err(undo) => (Compensate(w', r.slug, undo), RolledBack)
  {
    hide Compensate;
    var (w1, c1) := Next(w, now, r, SaveRow, f.save);
    if c1.Drop? {
      CompensateIsSolo(w1, now, r, c1.undo, f, 8);
    } else {
      assert Solo(w, now, r, SaveRow, f, 9) == Solo(w1, now, r, c1, f, 8);
      if f.create {
        CompensateIsSolo(w1, now, r, Some(w.nextTenantId), f, 7);
      } else {
        var w2 := CreateIfAbsent(w1, r.slug);
        assert Solo(w1, now, r, c1, f, 8) == Solo(w2, now, r, InitSource(w.nextTenantId), f, 7);
        OwnerIsSolo(w2, now, r, f, w.nextTenantId);
      }
    }
  }

  lemma SignUpIsSolo(w: World, now: Time, r: SignupReq, f: Faults)
    ensures var (w', owner) := SignUp(w, now, r, f);
            var (v, pc) := Solo(w, now, r, Check, f, 11);
            && v == w' && Over(pc) && (owner.Some? <==> pc.Created?) && (owner.Some? ==> pc.owner == owner.value)
  {
    hide Attempt, Compensate;
    var (w1, c1) := Next(w, now, r, Check, f.check);
    assert Solo(w, now, r, Check, f, 11) == Solo(w1, now, r, c1, f, 10);
    if c1.Refused? {
      OverStays(w1, now, r, c1, f, 10);
    } else {
      assert Solo(w, now, r, Hash, f, 10) == Solo(w, now, r, if f.hash then Refused else SaveRow, f, 9);
      if f.hash { OverStays(w, now, r, Refused, f, 9); } else { AttemptIsSolo(w, now, r, f); }
    }
  }

  // ---------------------------------------------------------------- all or nothing, call by call

  lemma ClearSlug(w: World, slug: string)
    requires Settled(w) && !SlugTaken(w.tenants, slug)
    ensures slug !in w.schemas && slug !in w.pool.cache
  {
  }

  lemma SameBackingKeepsPool(w: World, w': World)
    requires PoolOk(w) && (w'.pool == w.pool)
    requires forall s :: HasTables(w.schemas, s) ==> HasTables(w'.schemas, s)
    ensures PoolOk(w')
  {
  }

  /** Provisioning a schema that is there, bare, and has no connection. */
  lemma ProvisionBare(w: World, schema: string, f: Faults)
    requires PoolOk(w) && schema in w.schemas && w.schemas[schema] == Bare && schema !in w.pool.cache
    ensures var (w', source) := Provision(w, schema, f.init, f.migrate);
      && PoolOk(w') && w' == w.(pool := w'.pool, schemas := w'.schemas)
      && if source.Some? then
           w'.schemas == w.schemas[schema := NO_ROWS]
           && w'.pool.cache == w.pool.cache[schema := |w.pool.sources|]
         else
           w'.schemas == w.schemas && w'.pool.cache == w.pool.cache
  {
    hide PoolOk;
    ProvisionCases(w, schema, f.init, f.migrate);
    ProvisionKeepsPool(w, schema, f.init, f.migrate);
  }

  /** `after` has at most the key k on top of `before`. */
  ghost predicate AtMostAdds<V>(before: map<string, V>, after: map<string, V>, k: string) {
    k !in before && (after == before || (k in after && after == before[k := after[k]]))
  }

  lemma WithoutAdded<V>(before: map<string, V>, after: map<string, V>, k: string)
    requires AtMostAdds(before, after, k)
    ensures after - {k} == before
  {
  }

  /** What the `try` can have done when it ends. */
  ghost predicate Attempted(w: World, now: Time, r: SignupReq, w': World, result: Result<User, Option<nat>>) {
    && PoolOk(w') && w'.invitations == w.invitations
    && AtMostAdds(w.pool.cache, w'.pool.cache, r.slug) && AtMostAdds(w.schemas, w'.schemas, r.slug)
    && w'.nextTenantId >= w.nextTenantId
    && match result
       case Ok(owner) =>
         && owner == Owner(r, now) && !Conflicts(w.tenants, TenantRow(r))
         && w'.tenants == w.tenants[w.nextTenantId := TenantRow(r)] && w'.nextTenantId == w.nextTenantId + 1
         && w'.schemas == w.schemas[r.slug := NO_ROWS.(users := map[r.ownerEmail := owner])]
         && r.slug in w'.pool.cache
       case Err(undo) =>
         && (undo.Some? ==> undo.value == w.nextTenantId)
         && w'.tenants == if undo.Some? then w.tenants[w.nextTenantId := TenantRow(r)] else w.tenants
  }

  /** Nothing happened, or only the row was saved. */
  lemma RowOnly(w: World, now: Time, r: SignupReq)
    requires PoolOk(w) && r.slug !in w.schemas && r.slug !in w.pool.cache
    ensures Attempted(w, now, r, w, Err(None))
    ensures Attempted(w, now, r, InsertRow(w, TenantRow(r)), Err(Some(w.nextTenantId)))
  {
  }

  lemma OwnerSaved(w: World, r: SignupReq, now: Time)
    requires PoolOk(w) && r.slug in w.schemas && w.schemas[r.slug] == NO_ROWS
    ensures var (w', ok) := SaveOwner(w, r, now);
      && ok && PoolOk(w')
      && w' == w.(schemas := w.schemas[r.slug := NO_ROWS.(users := map[r.ownerEmail := Owner(r, now)])])
  {
  }

  lemma SchemaToo(w: World, now: Time, r: SignupReq, w2: World, f: Faults)
    requires PoolOk(w2) && r.slug !in w.schemas && r.slug !in w.pool.cache
    requires w2 == CreateIfAbsent(InsertRow(w, TenantRow(r)), r.slug)
    requires !Conflicts(w.tenants, TenantRow(r))
    ensures var (w3, source) := Provision(w2, r.slug, f.init, f.migrate);
      && Attempted(w, now, r, w3, Err(Some(w.nextTenantId)))
      && (source.Some? ==>
            SaveOwner(w3, r, now).1 && Attempted(w, now, r, SaveOwner(w3, r, now).0, Ok(Owner(r, now))))
  {
    hide PoolOk, Provision, Conflicts, SaveOwner;
    ProvisionBare(w2, r.slug, f);
    var (w3, source) := Provision(w2, r.slug, f.init, f.migrate);
    if source.Some? { OwnerSaved(w3, r, now); }
  }

  lemma AttemptCases(w: World, now: Time, r: SignupReq, f: Faults)
    requires Settled(w) && PoolOk(w) && !SlugTaken(w.tenants, r.slug)
    ensures var (w', result) := Attempt(w, now, r, f); Attempted(w, now, r, w', result)
  {
    hide PoolOk, Provision, Settled, Conflicts, SlugTaken, SaveOwner, Attempted;
    ClearSlug(w, r.slug);
    RowOnly(w, now, r);
    if !f.save && !Conflicts(w.tenants, TenantRow(r)) && !f.create {
      var w2 := CreateIfAbsent(InsertRow(w, TenantRow(r)), r.slug);
      SameBackingKeepsPool(w, w2);
      ProvisionBare(w2, r.slug, f);
      SchemaToo(w, now, r, w2, f);
      var (w3, source) := Provision(w2, r.slug, f.init, f.migrate);
      if source.None? || f.insert {
        assert Attempt(w, now, r, f) == (w3, Err(Some(w.nextTenantId)));
      } else {
        assert Attempt(w, now, r, f) == (SaveOwner(w3, r, now).0, Ok(Owner(r, now)));
      }
    } else if f.save || Conflicts(w.tenants, TenantRow(r)) {
      assert Attempt(w, now, r, f) == (w, Err(None));
    } else {
      assert Attempt(w, now, r, f) == (InsertRow(w, TenantRow(r)), Err(Some(w.nextTenantId)));
    }
  }

  lemma IdIsNew(w: World)
    requires Settled(w)
    ensures w.nextTenantId !in w.tenants
  {
  }

  lemma CleanedRestores(w: World, now: Time, r: SignupReq, w1: World, undo: Option<nat>)
    requires Settled(w) && Attempted(w, now, r, w1, Err(undo))
    ensures Cleaned(w1, r.slug, undo)
         == w1.(tenants := w.tenants, schemas := w.schemas)
  {
    hide PoolOk, Settled, Conflicts, SlugTaken, AtMostAdds;
    assert w.nextTenantId !in w.tenants by { IdIsNew(w); }
    WithoutAdded(w.schemas, w1.schemas, r.slug);
    assert Cleaned(w1, r.slug, undo).tenants == w.tenants;
  }

  lemma DeleteConnectionOnlyPool(w: World, schema: string)
    ensures DeleteConnection(w, schema) == w.(pool := DeleteConnection(w, schema).pool)
  {
  }

  lemma DeleteConnectionSamePool(w: World, v: World, schema: string)
    requires w.pool == v.pool
    ensures DeleteConnection(w, schema).pool == DeleteConnection(v, schema).pool
  {
  }

  lemma DeleteForgets(w: World, schema: string)
    requires PoolOk(w)
    ensures DeleteConnection(w, schema).pool.cache == w.pool.cache - {schema}
  {
  }

  lemma DropUnconnected(w: World, w': World, schema: string)
    requires PoolOk(w) && schema !in w.pool.cache && w'.pool == w.pool && w'.schemas == w.schemas - {schema}
    ensures PoolOk(w')
  {
  }

  lemma CompensateRestores(w: World, now: Time, r: SignupReq, w1: World, undo: Option<nat>)
    requires Settled(w) && Attempted(w, now, r, w1, Err(undo)) && !SlugTaken(w.tenants, r.slug)
    ensures var w' := Compensate(w1, r.slug, undo);
      && PoolOk(w') && w'.tenants == w.tenants && w'.schemas == w.schemas && w'.invitations == w.invitations
      && w'.pool.cache == w.pool.cache && w'.nextTenantId >= w.nextTenantId
  {
    hide PoolOk, DeleteConnection, Settled, Conflicts, SlugTaken, AtMostAdds;
    CleanedRestores(w, now, r, w1, undo);
    var cleaned := Cleaned(w1, r.slug, undo);
    DeleteConnectionOnlyPool(w1, r.slug);
    DeleteConnectionOnlyPool(cleaned, r.slug);
    DeleteConnectionSamePool(w1, cleaned, r.slug);
    DeleteKeepsPool(w1, r.slug);
    DeleteForgets(w1, r.slug);
    WithoutAdded(w.schemas, w1.schemas, r.slug);
    DropUnconnected(DeleteConnection(w1, r.slug), Compensate(w1, r.slug, undo), r.slug);
    WithoutAdded(w.pool.cache, w1.pool.cache, r.slug);
  }

  /** All or nothing, for any combination of faults: either nobody was created and tenants, schemas and cache
      are exactly as before, or the ACTIVE row, the migrated schema with its activated owner and the cached
      connection are all there and nothing else has changed. */
  lemma SignUpAtomic(w: World, now: Time, r: SignupReq, f: Faults)
    requires Settled(w) && PoolOk(w)
    ensures var (w', owner) := SignUp(w, now, r, f);
      && PoolOk(w') && w'.invitations == w.invitations
      && if owner.None? then
           w'.tenants == w.tenants && w'.schemas == w.schemas && w'.pool.cache == w.pool.cache
           && w'.nextTenantId >= w.nextTenantId
         else
           && owner.value == Owner(r, now) && !SlugTaken(w.tenants, r.slug) && !Conflicts(w.tenants, TenantRow(r))
           && w'.tenants == w.tenants[w.nextTenantId := Tenant(r.name, r.slug, r.ownerEmail, r.slug, Active)]
           && w'.nextTenantId == w.nextTenantId + 1
           && r.slug !in w.schemas
           && w'.schemas == w.schemas[r.slug := NO_ROWS.(users := map[r.ownerEmail := owner.value])]
           && r.slug in w'.pool.cache && AtMostAdds(w.pool.cache, w'.pool.cache, r.slug)
  {
    hide PoolOk, Attempt, Compensate;
    if !f.check && !SlugTaken(w.tenants, r.slug) && !f.hash {
      ClearSlug(w, r.slug);
      AttemptCases(w, now, r, f);
      var (w1, result) := Attempt(w, now, r, f);
      if result.Err? { CompensateRestores(w, now, r, w1, result.error); }
    }
  }

  /** Nothing failing, a signup that no row stands in the way of gets through its `try`. */
  lemma FreeAttemptSucceeds(w: World, now: Time, r: SignupReq, f: Faults)
    requires Settled(w) && PoolOk(w) && !Conflicts(w.tenants, TenantRow(r)) && !SlugTaken(w.tenants, r.slug)
    requires !f.save && !f.create && !f.init && !f.migrate && !f.insert
    ensures Attempt(w, now, r, f).1.Ok?
  {
    hide PoolOk, Settled, Conflicts, SlugTaken, SaveOwner, Provision;
    ClearSlug(w, r.slug);
    var w2 := CreateIfAbsent(InsertRow(w, TenantRow(r)), r.slug);
    SameBackingKeepsPool(w, w2);
    ProvisionBare(w2, r.slug, f);
    SchemaToo(w, now, r, w2, f);
    ProvisionCases(w2, r.slug, f.init, f.migrate);
  }

  lemma InTheWay(w: World, r: SignupReq)
    requires Settled(w)
    ensures Conflicts(w.tenants, TenantRow(r)) || SlugTaken(w.tenants, r.slug) <==>
      exists id :: id in w.tenants && (w.tenants[id].slug == r.slug || w.tenants[id].tenantOwnerEmail == r.ownerEmail
                                       || w.tenants[id].schemaName == r.slug)
  {
  }

  lemma FaultyAttemptFails(w: World, now: Time, r: SignupReq, f: Faults)
    requires f.save || f.create || f.init || f.migrate || f.insert
    ensures Attempt(w, now, r, f).1.Err?
  {
  }

  /** When a signup succeeds: no await fails, and no stored tenant has its slug, its owner's address or its
      schema name.  Its owner is then the user the request describes. */
  lemma SignUpDecided(w: World, now: Time, r: SignupReq, f: Faults)
    requires Settled(w) && PoolOk(w)
    ensures var owner := SignUp(w, now, r, f).1;
      && (owner.Some? <==>
            && f == Faults(false, false, false, false, false, false, false)
            && forall id :: id in w.tenants ==>
                 && w.tenants[id].slug != r.slug && w.tenants[id].tenantOwnerEmail != r.ownerEmail
                 && w.tenants[id].schemaName != r.slug)
      && (owner.Some? ==>
            owner.value == User(r.userId, r.ownerEmail, OwnerRole, Argon2(r.password), r.name, Some(now)))
  {
    hide PoolOk, Settled, Conflicts, SlugTaken, SaveOwner, Provision, Compensate;
    InTheWay(w, r);
    if !f.check && !f.hash && !f.save && !f.create && !f.init && !f.migrate && !f.insert
       && !Conflicts(w.tenants, TenantRow(r)) && !SlugTaken(w.tenants, r.slug) {
      FreeAttemptSucceeds(w, now, r, f);
    }
    if f.save || f.create || f.init || f.migrate || f.insert { FaultyAttemptFails(w, now, r, f); }
  }

  /** What fails before the `try` is not compensated for: in any state at all, nothing changes. */
  lemma RefusedEarly(w: World, now: Time, r: SignupReq, f: Faults)
    requires f.check || f.hash || exists id :: id in w.tenants && w.tenants[id].slug == r.slug
    ensures SignUp(w, now, r, f) == (w, None)
  {
  }

  /** `CREATE SCHEMA IF NOT EXISTS`, migrations and the owner's insert lose no row of a schema that was there. */
  lemma ExistingRowsKept(w: World, now: Time, r: SignupReq, f: Faults)
    requires HasTables(w.schemas, r.slug)
    ensures var w' := Attempt(w, now, r, f).0;
      && HasTables(w'.schemas, r.slug)
      && (forall e :: e in w.schemas[r.slug].users ==>
            e in w'.schemas[r.slug].users && w'.schemas[r.slug].users[e] == w.schemas[r.slug].users[e])
      && w'.schemas[r.slug].products == w.schemas[r.slug].products
      && w'.schemas[r.slug].changelogs == w.schemas[r.slug].changelogs
      && w'.schemas[r.slug].feedback == w.schemas[r.slug].feedback
  {
    hide Provision, Conflicts;
    ProvisionCases(CreateIfAbsent(InsertRow(w, TenantRow(r)), r.slug), r.slug, f.init, f.migrate);
  }

  lemma {:induction false} SoloKeepsUnique(w: World, now: Time, r: SignupReq, pc: Pc, f: Faults, awaits: nat)
    requires RowsUnique(w.tenants)
    ensures RowsUnique(Solo(w, now, r, pc, f, awaits).0.tenants)
    decreases awaits
  {
    hide Next, RowsUnique;
    if awaits > 0 {
      NextKeepsUnique(w, now, r, pc, FaultAt(f, pc));
      var (w', pc') := Next(w, now, r, pc, FaultAt(f, pc));
      SoloKeepsUnique(w', now, r, pc', f, awaits - 1);
    }
  }
}
