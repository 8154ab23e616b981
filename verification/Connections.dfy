/** Connections to tenant schemas and the cache over them.  Each function is one awaited repository call
    of TenantProvisioningService or a synchronous piece between two of them.  A fault flag makes that
    call fail with no effect. */
module Connections {
  import opened Tables

  /** `ds.initialize()`: the new DataSource's position in the pool is the old length. */
  function Initialise(w: World, schema: string): World {
    w.(pool := w.pool.(sources := w.pool.sources + [Source(schema, true, false)]))
  }

  /** `ds.runMigrations()` creates the tenant tables, or fails when the schema does not exist. */
  function RunMigrations(w: World, source: nat, fault: bool): (World, bool)
    requires source < |w.pool.sources|
  {
    var schema := w.pool.sources[source].schema;
    if fault || schema !in w.schemas then
      (w, false)
    else
      var tables := if w.schemas[schema].Bare? then NO_ROWS else w.schemas[schema];
      (w.(schemas := w.schemas[schema := tables],
          pool := w.pool.(sources := w.pool.sources[source := w.pool.sources[source].(migrated := true)])),
       true)
  }

  function Remember(w: World, schema: string, source: nat): World {
    w.(pool := w.pool.(cache := w.pool.cache[schema := source]))
  }

  function Provision(w: World, schema: string, faultInit: bool, faultMigrate: bool): (World, Option<nat>) {
    if faultInit then
      (w, None)
    else
      var source := |w.pool.sources|;
      var (w', ok) := RunMigrations(Initialise(w, schema), source, faultMigrate);
      if ok then (Remember(w', schema, source), Some(source)) else (w', None)
  }

  function GetDataSource(w: World, schema: string, faultInit: bool, faultMigrate: bool): (World, Option<nat>) {
    if schema in w.pool.cache then
      (w, Some(w.pool.cache[schema]))
    else
      Provision(w, schema, faultInit, faultMigrate)
  }

  /** `getDataSource` when nothing goes wrong. */
  function Connect(w: World, schema: string): (World, Option<nat>) {
    GetDataSource(w, schema, false, false)
  }

  predicate Connected(w: World, schema: string) {
    && schema in w.pool.cache
    && w.pool.cache[schema] < |w.pool.sources|
    && w.pool.sources[w.pool.cache[schema]].initialised
  }

  /** `connection.destroy()` on the cached DataSource. */
  function Destroy(w: World, schema: string): World
    requires Connected(w, schema)
  {
    var source := w.pool.cache[schema];
    w.(pool := w.pool.(sources := w.pool.sources[source := w.pool.sources[source].(initialised := false)]))
  }

  function Forget(w: World, schema: string): World {
    w.(pool := w.pool.(cache := w.pool.cache - {schema}))
  }

  function DeleteConnection(w: World, schema: string): World {
    if Connected(w, schema) then Forget(Destroy(w, schema), schema) else w
  }

  // ---------------------------------------------------------------- what every cached entry is

  /** A cached entry is an initialised, migrated DataSource of exactly the schema it is filed under. */
  ghost predicate CacheSound(pool: Pool) {
    forall k :: k in pool.cache ==>
      pool.cache[k] < |pool.sources| && pool.sources[pool.cache[k]] == Source(k, true, true)
  }

  /** Every schema with a cached connection has its tenant tables. */
  ghost predicate CacheBacked(w: World) {
    forall k :: k in w.pool.cache ==> HasTables(w.schemas, k)
  }

  /** Every live, migrated DataSource is the cached one of its schema: none was overwritten. */
  ghost predicate NoneLost(pool: Pool) {
    forall i: nat :: i < |pool.sources| && pool.sources[i].initialised && pool.sources[i].migrated ==>
      pool.sources[i].schema in pool.cache && pool.cache[pool.sources[i].schema] == i
  }

  function Destroyed(sources: seq<Source>): set<int> {
    set i | 0 <= i < |sources| && !sources[i].initialised
  }

  /** Initialised, but the migration failed: never cached and never destroyed. */
  function Orphaned(sources: seq<Source>): set<int> {
    set i | 0 <= i < |sources| && sources[i].initialised && !sources[i].migrated
  }

  ghost predicate Accounted(pool: Pool) {
    |pool.sources| == |pool.cache| + |Destroyed(pool.sources)| + |Orphaned(pool.sources)|
  }

  ghost predicate PoolOk(w: World) {
    CacheSound(w.pool) && CacheBacked(w) && NoneLost(w.pool) && Accounted(w.pool)
  }

  // ---------------------------------------------------------------- one operation

  lemma AppendSource(sources: seq<Source>, source: Source)
    requires source.initialised
    ensures Destroyed(sources + [source]) == Destroyed(sources)
    ensures Orphaned(sources + [source]) == Orphaned(sources) + if source.migrated then {} else {|sources|}
  {
  }

  lemma DestroySource(sources: seq<Source>, n: nat)
    requires n < |sources| && sources[n].initialised && sources[n].migrated
    ensures var after := sources[n := sources[n].(initialised := false)];
            && Destroyed(after) == Destroyed(sources) + {n} && n !in Destroyed(sources)
            && Orphaned(after) == Orphaned(sources)
  {
  }

  /** What provisioning comes to: nothing, one orphan, or one cached connection. */
  lemma ProvisionCases(w: World, schema: string, faultInit: bool, faultMigrate: bool)
    ensures var (w', a) := Provision(w, schema, faultInit, faultMigrate);
            if faultInit then
              w' == w && a == None
            else if faultMigrate || schema !in w.schemas then
              w' == Initialise(w, schema) && a == None
            else
              && a == Some(|w.pool.sources|)
              && w'.pool.cache == w.pool.cache[schema := |w.pool.sources|]
              && w'.pool.sources == w.pool.sources + [Source(schema, true, true)]
              && w'.schemas == w.schemas[schema := if w.schemas[schema].Bare? then NO_ROWS else w.schemas[schema]]
              && w' == w.(pool := w'.pool, schemas := w'.schemas)
  {
  }

  lemma OneMoreKey<V>(m: map<string, V>, k: string, v: V)
    requires k !in m
    ensures |m[k := v]| == |m| + 1
  {
  }

  /** Filing a new migrated DataSource under a schema that has none. */
  lemma CachedOneMore(p: Pool, q: Pool, schema: string)
    requires CacheSound(p) && NoneLost(p) && Accounted(p) && schema !in p.cache
    requires q == Pool(p.cache[schema := |p.sources|], p.sources + [Source(schema, true, true)])
    ensures CacheSound(q) && NoneLost(q)
  {
  }

  lemma CachedAccounted(p: Pool, q: Pool, schema: string)
    requires Accounted(p) && schema !in p.cache
    requires q == Pool(p.cache[schema := |p.sources|], p.sources + [Source(schema, true, true)])
    ensures Accounted(q)
  {
    AppendSource(p.sources, Source(schema, true, true));
    OneMoreKey(p.cache, schema, |p.sources|);
  }

  lemma ProvisionKeepsPool(w: World, schema: string, faultInit: bool, faultMigrate: bool)
    requires PoolOk(w) && schema !in w.pool.cache
    ensures PoolOk(Provision(w, schema, faultInit, faultMigrate).0)
  {
    ProvisionCases(w, schema, faultInit, faultMigrate);
    var w' := Provision(w, schema, faultInit, faultMigrate).0;
    if !faultInit {
      if faultMigrate || schema !in w.schemas {
        AppendSource(w.pool.sources, Source(schema, true, false));
      } else {
        CachedOneMore(w.pool, w'.pool, schema);
        CachedAccounted(w.pool, w'.pool, schema);
      }
    }
  }

  lemma DeleteKeepsPool(w: World, schema: string)
    requires PoolOk(w)
    ensures PoolOk(DeleteConnection(w, schema))
    ensures schema !in DeleteConnection(w, schema).pool.cache
  {
    if schema in w.pool.cache {
      DestroySource(w.pool.sources, w.pool.cache[schema]);
      assert DeleteConnection(w, schema).pool.cache.Keys == w.pool.cache.Keys - {schema};
    }
  }

  // ---------------------------------------------------------------- runs

  datatype PoolOp =
    | Get(schema: string, faultInit: bool, faultMigrate: bool)
    | Delete(schema: string)

  function ApplyPool(w: World, op: PoolOp): World {
    match op
    case Get(s, f, g) => GetDataSource(w, s, f, g).0
    case Delete(s) => DeleteConnection(w, s)
  }

  function RunPool(w: World, ops: seq<PoolOp>): World {
    if ops == [] then w else ApplyPool(RunPool(w, ops[..|ops| - 1]), ops[|ops| - 1])
  }

  /** Conservation: after any run, with any faults, every successful initialisation is accounted for once,
      as cached, as destroyed, or as one whose migration failed. */
  lemma {:induction false} PoolConserved(w: World, ops: seq<PoolOp>)
    requires PoolOk(w)
    ensures PoolOk(RunPool(w, ops))
    ensures var p := RunPool(w, ops).pool; |p.sources| == |p.cache| + |Destroyed(p.sources)| + |Orphaned(p.sources)|
  {
    if ops != [] {
      PoolConserved(w, ops[..|ops| - 1]);
      var v := RunPool(w, ops[..|ops| - 1]);
      match ops[|ops| - 1]
      case Get(s, f, g) => if s !in v.pool.cache { ProvisionKeepsPool(v, s, f, g); }
      case Delete(s) => DeleteKeepsPool(v, s);
    }
  }

  /** Transparency: after any run, `getDataSource` succeeds exactly when provisioning from scratch would,
      and either way the caller holds an initialised, migrated DataSource of the schema asked for. */
  lemma CacheTransparent(w: World, ops: seq<PoolOp>, schema: string)
    requires PoolOk(w)
    ensures var v := RunPool(w, ops);
            var (cached, a) := Connect(v, schema);
            var (anew, b) := Provision(v, schema, false, false);
            && (a.Some? <==> b.Some?)
            && (a.Some? ==> a.value < |cached.pool.sources| && b.value < |anew.pool.sources|
                            && cached.pool.sources[a.value] == Source(schema, true, true)
                            && anew.pool.sources[b.value] == Source(schema, true, true)
                            && cached.schemas == anew.schemas)
  {
    PoolConserved(w, ops);
    var v := RunPool(w, ops);
    ProvisionCases(v, schema, false, false);
    if schema in v.pool.cache {
      assert v.schemas[schema := v.schemas[schema]] == v.schemas;
    }
  }

  /** What callers use: a schema that has its tables always connects, and connecting changes only the pool. */
  lemma ConnectToTables(w: World, schema: string)
    requires PoolOk(w) && HasTables(w.schemas, schema)
    ensures var (w', a) := Connect(w, schema);
            && a.Some? && PoolOk(w') && w' == w.(pool := w'.pool)
            && schema in w'.pool.cache && w'.pool.cache[schema] == a.value
  {
    hide PoolOk;
    if schema !in w.pool.cache {
      ProvisionKeepsPool(w, schema, false, false);
      ProvisionCases(w, schema, false, false);
      assert w.schemas[schema := w.schemas[schema]] == w.schemas;
    }
  }
}
