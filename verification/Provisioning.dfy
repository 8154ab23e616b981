/** TenantProvisioningService over a database: DataSource objects, the cache of them, and what both come to as
    a value.  Every method here does to that value what the function of the same name in Connections does. */
module Provisioning {
  import opened Tables
  import Connections
  import C = CacheWrapper

  /** The public tables and the tenant schemas, behind one PostgreSQL connection string. */
  class Database {
    var tenants: map<nat, Tenant>
    var nextTenantId: nat
    var invitations: seq<Invitation>
    var schemas: map<string, Tables>

    constructor ()
      ensures tenants == map[] && nextTenantId == 0 && invitations == [] && schemas == map[]
    {
      tenants, nextTenantId, invitations, schemas := map[], 0, [], map[];
    }
  }

  class DataSource {
    const database: Database
    const schema: string
    var isInitialized: bool
    var isMigrated: bool
    /** How many DataSources were initialised before this one. */
    ghost const serial: nat

    constructor (database: Database, schema: string, ghost serial: nat)
      ensures this.database == database && this.schema == schema && this.serial == serial
      ensures !isInitialized && !isMigrated
    {
      this.database, this.schema, this.serial := database, schema, serial;
      isInitialized, isMigrated := false, false;
    }

    method Initialize(fault: bool) returns (ok: bool)
      modifies this
      ensures ok == !fault && isInitialized == (old(isInitialized) || ok) && isMigrated == old(isMigrated)
    {
      ok := !fault;
      if ok {
        isInitialized := true;
      }
    }

    method RunMigrations(fault: bool) returns (ok: bool)
      modifies this, database`schemas
      ensures ok <==> !fault && schema in old(database.schemas)
      ensures isInitialized == old(isInitialized) && isMigrated == (old(isMigrated) || ok)
      ensures database.schemas
           == if ok && old(database.schemas)[schema].Bare? then old(database.schemas)[schema := NO_ROWS]
              else old(database.schemas)
    {
      ok := !fault && schema in database.schemas;
      if ok {
        if database.schemas[schema].Bare? {
          database.schemas := database.schemas[schema := NO_ROWS];
        }
        isMigrated := true;
      }
    }

    method Destroy()
      modifies this
      ensures !isInitialized && isMigrated == old(isMigrated)
    {
      isInitialized := false;
    }

    /** The tables of this DataSource's schema; none if a query would fail for want of them. */
    method Query() returns (r: Option<Tables>)
      ensures r.Some? <==> HasTables(database.schemas, schema)
      ensures r.Some? ==> r.value == database.schemas[schema]
    {
      r := if HasTables(database.schemas, schema) then Some(database.schemas[schema]) else None;
    }

    /** Insert a user; `email` is UNIQUE. */
    method SaveUser(user: User) returns (ok: bool)
      modifies database`schemas
      ensures ok <==> HasTables(old(database.schemas), schema) && user.email !in Users(old(database.schemas), schema)
      ensures database.schemas
           == if ok then WithUser(old(database.schemas), schema, user) else old(database.schemas)
    {
      ok := HasTables(database.schemas, schema) && user.email !in database.schemas[schema].users;
      if ok {
        database.schemas := WithUser(database.schemas, schema, user);
      }
    }

    method SaveTables(tables: Tables)
      modifies database`schemas
      ensures database.schemas == old(database.schemas)[schema := tables]
    {
      database.schemas := database.schemas[schema := tables];
    }
  }

  class TenantProvisioningService {
    const database: Database
    const cache: C.CacheWrapper<DataSource>
    /** Every DataSource that was ever initialised. */
    ghost var sources: seq<DataSource>
    /** The cache and the DataSources as a value; `Valid` ties it to the objects. */
    ghost var pool: Pool

    ghost function Repr(): set<object>
      reads this
    {
      {this, database, cache} + (set d | d in sources)
    }

    ghost predicate Summarised()
      reads this, sources
    {
      && |sources| == |pool.sources|
      && forall i :: 0 <= i < |sources| ==>
           sources[i].serial == i && sources[i].database == database
           && pool.sources[i] == Source(sources[i].schema, sources[i].isInitialized, sources[i].isMigrated)
    }

    /** A cached entry is an initialised, migrated DataSource of the schema it is filed under. */
    ghost predicate Filed()
      reads this, cache
    {
      && pool.cache.Keys == cache.entries.Keys
      && forall k :: k in cache.entries ==>
           pool.cache[k] < |sources| == |pool.sources| && sources[pool.cache[k]] == cache.entries[k]
           && pool.sources[pool.cache[k]] == Source(k, true, true)
    }

    ghost predicate Valid()
      reads this, cache, sources
    {
      Summarised() && Filed()
    }

    /** The caller was handed the DataSource with that position in the pool. */
    ghost predicate Hands(r: Option<DataSource>, source: Option<nat>, schemaName: string)
      reads this, sources
    {
      && (r.Some? <==> source.Some?)
      && (r.Some? ==> source.value < |sources| == |pool.sources| && sources[source.value] == r.value
                      && r.value.schema == pool.sources[source.value].schema == schemaName
                      && r.value.database == database)
    }

    ghost function State(): World
      reads this, database
    {
      World(database.tenants, database.nextTenantId, database.invitations, database.schemas, pool)
    }

    constructor (database: Database)
      ensures Valid() && this.database == database && fresh(Repr() - {database})
      ensures pool == Pool(map[], [])
    {
      this.database := database;
      cache := new C.CacheWrapper();
      sources, pool := [], Pool(map[], []);
    }

    /** `new DataSource` and `initialize()`. */
    method Open(schemaName: string, fault: bool) returns (r: Option<DataSource>)
      requires Valid()
      modifies this
      ensures Valid() && fresh(Repr() - old(Repr()))
      ensures r.Some? <==> !fault
      ensures State() == if fault then old(State()) else Connections.Initialise(old(State()), schemaName)
      ensures r.Some? ==> fresh(r.value) && sources == old(sources) + [r.value]
                          && r.value.schema == schemaName && r.value.serial == |old(sources)|
    {
      var ds := new DataSource(database, schemaName, |sources|);
      var initialised := ds.Initialize(fault);
      if !initialised {
        return None;
      }
      sources := sources + [ds];
      pool := pool.(sources := pool.sources + [Source(schemaName, true, false)]);
      return Some(ds);
    }

    method Migrate(ds: DataSource, fault: bool) returns (ok: bool)
      requires Valid() && ds.serial < |sources| && sources[ds.serial] == ds
      requires forall k :: k in cache.entries ==> cache.entries[k] != ds
      modifies this, ds, database`schemas
      ensures Valid() && sources == old(sources)
      ensures (State(), ok) == Connections.RunMigrations(old(State()), ds.serial, fault)
    {
      ok := ds.RunMigrations(fault);
      if ok {
        pool := pool.(sources := pool.sources[ds.serial := pool.sources[ds.serial].(migrated := true)]);
        assert forall m: map<string, Tables>, k :: k in m ==> m[k := m[k]] == m;
      }
    }

    method Provision(schemaName: string, faultInit: bool, faultMigrate: bool) returns (r: Option<DataSource>)
      requires Valid()
      modifies Repr()
      ensures Valid() && fresh(Repr() - old(Repr()))
      ensures State() == Connections.Provision(old(State()), schemaName, faultInit, faultMigrate).0
      ensures Hands(r, Connections.Provision(old(State()), schemaName, faultInit, faultMigrate).1, schemaName)
    {
      var found := Open(schemaName, faultInit);
      if found.None? {
        return None;
      }
      var ds := found.value;
      var migrated := Migrate(ds, faultMigrate);
      if !migrated {
        return None;
      }
      cache.Set(schemaName, ds);
      pool := pool.(cache := pool.cache[schemaName := ds.serial]);
      return found;
    }

    method GetDataSource(schemaName: string, faultInit: bool, faultMigrate: bool) returns (r: Option<DataSource>)
      requires Valid()
      modifies Repr()
      ensures Valid() && fresh(Repr() - old(Repr()))
      ensures State() == Connections.GetDataSource(old(State()), schemaName, faultInit, faultMigrate).0
      ensures Hands(r, Connections.GetDataSource(old(State()), schemaName, faultInit, faultMigrate).1, schemaName)
    {
      var cached := cache.Has(schemaName);
      if cached {
        assert cache.entries[schemaName] == sources[pool.cache[schemaName]];
        r := cache.Get(schemaName);
        return;
      }
      r := Provision(schemaName, faultInit, faultMigrate);
    }

    method DeleteConnection(schemaName: string)
      requires Valid()
      modifies Repr()
      ensures Valid() && sources == old(sources)
      ensures State() == Connections.DeleteConnection(old(State()), schemaName)
    {
      var connection := cache.Get(schemaName);
      if connection.Some? && connection.value.isInitialized {
        assert cache.entries[schemaName] == sources[pool.cache[schemaName]];
        var ds := connection.value;
        ds.Destroy();
        cache.Delete(schemaName);
        pool := Connections.Forget(Connections.Destroy(State(), schemaName), schemaName).pool;
      }
    }
  }
}
