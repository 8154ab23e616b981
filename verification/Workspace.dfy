/** Products, changelogs and feedback of many tenants over one connection cache.  A repository works in the
    schema of the DataSource it came from, not in the schema the caller named. */
module Workspace {
  import opened Tables
  import opened Connections
  import opened SignupSafety

  datatype Answer =
    | ProductSaved(product: Product)
    | ChangelogSaved(changelog: Changelog)
    | FeedbackSaved(feedback: Feedback)
    | NotFound(resource: string, id: string)
    | Violates        // a UNIQUE, primary-key or foreign-key constraint, or a missing table
    | NoSource

  datatype ProductDto = ProductDto(title: string, description: Option<string>)
  datatype ChangelogDto = ChangelogDto(productId: string, title: string, content: string)
  datatype FeedbackDto = FeedbackDto(productId: string, changelogId: Option<string>, content: Option<string>)

  /** One request; `id` is the uuid the database will generate. */
  datatype Body =
    | NewProduct(product: ProductDto)
    | NewChangelog(changelog: ChangelogDto, at: Time)
    | NewFeedback(userId: string, feedback: FeedbackDto)

  datatype Request = Request(schema: string, id: string, body: Body, faultInit: bool, faultMigrate: bool)

  predicate TitleTaken(products: map<string, Product>, tenantSchema: string) {
    exists p :: p in products && products[p].tenantSchema == tenantSchema
  }

  /** `createProduct` on the products table; `tenantSchema` is UNIQUE. */
  function SaveProduct(t: Tables, id: string, dto: ProductDto, tenantSchema: string): (Tables, Answer)
    requires t.Migrated?
  {
    if id in t.products || TitleTaken(t.products, tenantSchema) then (t, Violates)
    else
      var row := Product(id, dto.title, dto.description, tenantSchema);
      (t.(products := t.products[id := row]), ProductSaved(row))
  }

  /** `createChangeLogs`; `product_id` is a foreign key. */
  function SaveChangelog(t: Tables, id: string, dto: ChangelogDto, at: Time): (Tables, Answer)
    requires t.Migrated?
  {
    if id in t.changelogs || dto.productId !in t.products then (t, Violates)
    else
      var row := Changelog(id, dto.productId, dto.title, dto.content, at);
      (t.(changelogs := t.changelogs[id := row]), ChangelogSaved(row))
  }

  /** The changelog is looked up only for a truthy id: absent and empty are both skipped. */
  predicate Asked(changelogId: Option<string>) {
    changelogId.Some? && changelogId.value != ""
  }

  /** `createFeedback`: the product must exist, then the changelog if one is named. */
  function SaveFeedback(t: Tables, id: string, userId: string, dto: FeedbackDto): (Tables, Answer)
    requires t.Migrated?
  {
    if dto.productId !in t.products then (t, NotFound("PRODUCT", dto.productId))
    else if Asked(dto.changelogId) && dto.changelogId.value !in t.changelogs then
      (t, NotFound("CHANGELOG", dto.changelogId.value))
    else if id in t.feedback then (t, Violates)
    else
      var row := Feedback(id, dto.content, userId, dto.productId, if Asked(dto.changelogId) then dto.changelogId else None);
      (t.(feedback := t.feedback[id := row]), FeedbackSaved(row))
  }

  function Save(t: Tables, r: Request): (Tables, Answer)
    requires t.Migrated?
  {
    match r.body
    case NewProduct(dto) => SaveProduct(t, r.id, dto, r.schema)
    case NewChangelog(dto, at) => SaveChangelog(t, r.id, dto, at)
    case NewFeedback(userId, dto) => SaveFeedback(t, r.id, userId, dto)
  }

  function Serve(w: World, r: Request): (World, Answer) {
    var (w', source) := GetDataSource(w, r.schema, r.faultInit, r.faultMigrate);
    if source.None? || source.value >= |w'.pool.sources| then (w', NoSource)
    else
      var home := w'.pool.sources[source.value].schema;
      if !HasTables(w'.schemas, home) then (w', Violates)
      else
        var (t, answer) := Save(w'.schemas[home], r);
        (w'.(schemas := w'.schemas[home := t]), answer)
  }

  function Run(w: World, rs: seq<Request>): World {
    if rs == [] then w else Serve(Run(w, rs[..|rs| - 1]), rs[|rs| - 1]).0
  }

  /** The answers given to one tenant's requests, in order. */
  function AnswersTo(w: World, rs: seq<Request>, schema: string): seq<Answer> {
    if rs == [] then []
    else
      var rest := AnswersTo(w, rs[..|rs| - 1], schema);
      if rs[|rs| - 1].schema != schema then rest
      else rest + [Serve(Run(w, rs[..|rs| - 1]), rs[|rs| - 1]).1]
  }

  function OnlyOf(rs: seq<Request>, schema: string): seq<Request> {
    if rs == [] then []
    else OnlyOf(rs[..|rs| - 1], schema) + if rs[|rs| - 1].schema == schema then [rs[|rs| - 1]] else []
  }

  // ---------------------------------------------------------------- proof

  lemma ConnectingStaysHome(w: World, r: Request, other: string)
    requires CacheSound(w.pool) && other != r.schema
    ensures SliceOf(GetDataSource(w, r.schema, r.faultInit, r.faultMigrate).0, other) == SliceOf(w, other)
  {
  }

  lemma ConnectingCases(w: World, r: Request)
    requires CacheSound(w.pool)
    ensures var (w', a) := GetDataSource(w, r.schema, r.faultInit, r.faultMigrate);
      && CacheSound(w'.pool) && w'.tenants == w.tenants
      && (a.Some? <==> r.schema in w.pool.cache || (!r.faultInit && !r.faultMigrate && r.schema in w.schemas))
      && (a.Some? ==> ConnectionOf(w'.pool, r.schema) == Some(Source(r.schema, true, true))
                      && a.value < |w'.pool.sources| && w'.pool.sources[a.value].schema == r.schema)
      && (a.None? ==> ConnectionOf(w'.pool, r.schema) == None && w'.schemas == w.schemas)
      && (r.schema in w.pool.cache ==> w'.schemas == w.schemas)
      && (a.Some? && r.schema !in w.pool.cache ==>
            w'.schemas == w.schemas[r.schema := if w.schemas[r.schema].Bare? then NO_ROWS else w.schemas[r.schema]])
  {
  }

  /** Connecting answers from the tenant's own slice, and leaves the caller with its own schema's connection. */
  lemma ConnectingIsLocal(w: World, v: World, r: Request)
    requires CacheSound(w.pool) && CacheSound(v.pool) && SliceOf(w, r.schema) == SliceOf(v, r.schema)
    ensures var (w', a) := GetDataSource(w, r.schema, r.faultInit, r.faultMigrate);
            var (v', b) := GetDataSource(v, r.schema, r.faultInit, r.faultMigrate);
      && CacheSound(w'.pool) && CacheSound(v'.pool) && SliceOf(w', r.schema) == SliceOf(v', r.schema)
      && (a.Some? <==> b.Some?)
      && (a.Some? ==> a.value < |w'.pool.sources| && w'.pool.sources[a.value].schema == r.schema
                      && b.value < |v'.pool.sources| && v'.pool.sources[b.value].schema == r.schema)
  {
    hide RowsOf;
    ConnectingCases(w, r);
    ConnectingCases(v, r);
    assert r.schema in w.pool.cache <==> r.schema in v.pool.cache by {
      assert ConnectionOf(w.pool, r.schema) == ConnectionOf(v.pool, r.schema);
    }
    assert r.schema in w.schemas <==> r.schema in v.schemas;
  }

  lemma ServeStaysHome(w: World, r: Request, other: string)
    requires CacheSound(w.pool) && other != r.schema
    ensures SliceOf(Serve(w, r).0, other) == SliceOf(w, other)
  {
    hide RowsOf, ConnectionOf, GetDataSource, Save;
    ConnectingStaysHome(w, r, other);
    ConnectingIsLocal(w, w, r);
  }

  lemma ServeIsLocal(w: World, v: World, r: Request)
    requires CacheSound(w.pool) && CacheSound(v.pool) && SliceOf(w, r.schema) == SliceOf(v, r.schema)
    ensures CacheSound(Serve(w, r).0.pool) && CacheSound(Serve(v, r).0.pool)
    ensures SliceOf(Serve(w, r).0, r.schema) == SliceOf(Serve(v, r).0, r.schema)
    ensures Serve(w, r).1 == Serve(v, r).1
  {
    hide RowsOf, ConnectionOf, GetDataSource, Save, CacheSound;
    ConnectingIsLocal(w, v, r);
    var w' := GetDataSource(w, r.schema, r.faultInit, r.faultMigrate).0;
    var v' := GetDataSource(v, r.schema, r.faultInit, r.faultMigrate).0;
    assert SliceOf(w', r.schema).tables == SliceOf(v', r.schema).tables;
    assert r.schema in w'.schemas <==> r.schema in v'.schemas;
    assert r.schema in w'.schemas ==> w'.schemas[r.schema] == v'.schemas[r.schema];
  }

  lemma {:induction false} RunIsLocal(w: World, rs: seq<Request>, schema: string)
    requires CacheSound(w.pool)
    ensures CacheSound(Run(w, rs).pool) && CacheSound(Run(w, OnlyOf(rs, schema)).pool)
    ensures SliceOf(Run(w, rs), schema) == SliceOf(Run(w, OnlyOf(rs, schema)), schema)
    ensures AnswersTo(w, rs, schema) == AnswersTo(w, OnlyOf(rs, schema), schema)
  {
    hide SliceOf, Serve, CacheSound;
    if rs != [] {
      var init, r := rs[..|rs| - 1], rs[|rs| - 1];
      RunIsLocal(w, init, schema);
      var here, there := Run(w, init), Run(w, OnlyOf(init, schema));
      if r.schema == schema {
        assert OnlyOf(rs, schema)[..|OnlyOf(rs, schema)| - 1] == OnlyOf(init, schema);
        ServeIsLocal(here, there, r);
      } else {
        ServeStaysHome(here, r, schema);
        ServeIsLocal(here, here, r);
        assert OnlyOf(rs, schema) == OnlyOf(init, schema);
      }
    }
  }

  /** Tenant isolation: whatever other tenants do, with any faults, one tenant's tables, connection and answers
      are those of the run in which it is alone. */
  lemma {:induction false} TenantsIsolated(w: World, rs: seq<Request>, schema: string)
    requires CacheSound(w.pool)
    ensures SliceOf(Run(w, rs), schema) == SliceOf(Run(w, OnlyOf(rs, schema)), schema)
    ensures AnswersTo(w, rs, schema) == AnswersTo(w, OnlyOf(rs, schema), schema)
  {
    RunIsLocal(w, rs, schema);
  }

  // ---------------------------------------------------------------- what isolation rests on

  /** References between the tables of one tenant stay closed. */
  ghost predicate Closed(t: Tables) {
    t.Migrated? ==>
      && (forall k :: k in t.changelogs ==> t.changelogs[k].productId in t.products)
      && (forall k :: k in t.feedback ==>
            && t.feedback[k].productId in t.products
            && (t.feedback[k].changelogId.Some? ==> t.feedback[k].changelogId.value in t.changelogs))
      && (forall p, q :: p in t.products && q in t.products && t.products[p].tenantSchema == t.products[q].tenantSchema ==> p == q)
  }

  /** Every request keeps every tenant's references closed, by foreign key or by createFeedback's own lookups,
      and a schema never has two products. */
  lemma SaveKeepsClosed(t: Tables, r: Request)
    requires t.Migrated? && Closed(t)
    ensures Closed(Save(t, r).0)
    ensures Save(t, r).1.FeedbackSaved? ==>
              && r.body.NewFeedback? && r.body.feedback.productId in t.products
              && (r.body.feedback.changelogId.Some? && r.body.feedback.changelogId.value != "" ==>
                    r.body.feedback.changelogId.value in t.changelogs)
  {
    match r.body
    case NewProduct(dto) => assert !TitleTaken(t.products, r.schema) ==>
      forall p :: p in t.products ==> t.products[p].tenantSchema != r.schema;
    case _ =>
  }

  // ---------------------------------------------------------------- what the tables hold after a run

  /** The row this answer speaks of is in that tenant's tables. */
  predicate Stored(schemas: map<string, Tables>, schema: string, a: Answer) {
    && HasTables(schemas, schema)
    && match a
       case ProductSaved(p) => p.id in schemas[schema].products && schemas[schema].products[p.id] == p
       case ChangelogSaved(c) => c.id in schemas[schema].changelogs && schemas[schema].changelogs[c.id] == c
       case FeedbackSaved(f) => f.id in schemas[schema].feedback && schemas[schema].feedback[f.id] == f
       case _ => false
  }

  predicate IsSaved(a: Answer) {
    a.ProductSaved? || a.ChangelogSaved? || a.FeedbackSaved?
  }

  lemma SaveStores(schemas: map<string, Tables>, r: Request, schema: string, a: Answer)
    requires HasTables(schemas, r.schema)
    ensures var (t, answer) := Save(schemas[r.schema], r);
      && t.Migrated?
      && (Stored(schemas[r.schema := t], schema, a) <==>
            Stored(schemas, schema, a) || (schema == r.schema && a == answer && IsSaved(answer)))
  {
    match r.body
    case NewProduct(dto) =>
    case NewChangelog(dto, at) =>
    case NewFeedback(userId, dto) =>
  }

  lemma ServeStores(w: World, r: Request, schema: string, a: Answer)
    requires CacheSound(w.pool)
    ensures CacheSound(Serve(w, r).0.pool)
    ensures Stored(Serve(w, r).0.schemas, schema, a)
       <==> Stored(w.schemas, schema, a) || (schema == r.schema && a == Serve(w, r).1 && IsSaved(a))
  {
    hide Save, GetDataSource, ConnectionOf, CacheSound;
    ConnectingCases(w, r);
    var (w', source) := GetDataSource(w, r.schema, r.faultInit, r.faultMigrate);
    assert Stored(w'.schemas, schema, a) <==> Stored(w.schemas, schema, a);
    if source.Some? && HasTables(w'.schemas, r.schema) { SaveStores(w'.schemas, r, schema, a); }
  }

  /** The row this answer speaks of is the one the request asks for. */
  predicate AsAsked(r: Request, a: Answer) {
    match a
    case ProductSaved(p) =>
      r.body.NewProduct? && p == Product(r.id, r.body.product.title, r.body.product.description, r.schema)
    case ChangelogSaved(c) =>
      && r.body.NewChangelog?
      && c == Changelog(r.id, r.body.changelog.productId, r.body.changelog.title, r.body.changelog.content, r.body.at)
    case FeedbackSaved(f) =>
      && r.body.NewFeedback?
      && f == Feedback(r.id, r.body.feedback.content, r.body.userId, r.body.feedback.productId,
                       if r.body.feedback.changelogId == Some("") then None else r.body.feedback.changelogId)
    case _ => false
  }

  lemma SavedAsAsked(w: World, r: Request)
    requires CacheSound(w.pool)
    ensures IsSaved(Serve(w, r).1) ==>
              AsAsked(r, Serve(w, r).1) && Stored(Serve(w, r).0.schemas, r.schema, Serve(w, r).1)
  {
    hide CacheSound, GetDataSource;
    ServeStores(w, r, r.schema, Serve(w, r).1);
  }

  /** After any run a tenant's tables hold what they held before and exactly the rows its callers were told
      had been saved, each as it was told: nothing is lost, overwritten or filed under another tenant.  And
      every new row is, column by column, what one of that tenant's own requests asked for. */
  lemma {:induction false} TablesHoldAnswers(w: World, rs: seq<Request>, schema: string, a: Answer)
    requires CacheSound(w.pool)
    ensures CacheSound(Run(w, rs).pool)
    ensures Stored(Run(w, rs).schemas, schema, a)
       <==> Stored(w.schemas, schema, a) || (IsSaved(a) && a in AnswersTo(w, rs, schema))
    ensures Stored(Run(w, rs).schemas, schema, a) && !Stored(w.schemas, schema, a) ==>
              exists r :: r in rs && r.schema == schema && AsAsked(r, a)
  {
    hide Stored, Serve, CacheSound, AsAsked;
    if rs != [] {
      var init, r := rs[..|rs| - 1], rs[|rs| - 1];
      TablesHoldAnswers(w, init, schema, a);
      ServeStores(Run(w, init), r, schema, a);
      SavedAsAsked(Run(w, init), r);
      assert forall q :: q in init ==> q in rs;
    }
  }

  /** Every row is filed under its own id, and products under their own tenant. */
  ghost predicate Named(t: Tables, schema: string)
    requires t.Migrated?
  {
    && (forall p :: p in t.products ==> t.products[p].tenantSchema == schema && t.products[p].id == p)
    && (forall c :: c in t.changelogs ==> t.changelogs[c].id == c)
    && (forall f :: f in t.feedback ==> t.feedback[f].id == f)
  }

  ghost predicate Tidy(schemas: map<string, Tables>) {
    forall s :: HasTables(schemas, s) ==> Closed(schemas[s]) && Named(schemas[s], s)
  }

  lemma NoRowsClosed()
    ensures Closed(NO_ROWS) && forall s :: Named(NO_ROWS, s)
  {
  }

  lemma SaveKeepsName(t: Tables, r: Request)
    requires t.Migrated? && Named(t, r.schema)
    ensures var t' := Save(t, r).0; t'.Migrated? && Named(t', r.schema)
  {
  }

  lemma ServeKeepsTidy(w: World, r: Request)
    requires CacheSound(w.pool) && Tidy(w.schemas)
    ensures Tidy(Serve(w, r).0.schemas)
  {
    hide Save, GetDataSource, ConnectionOf, CacheSound, Closed;
    ConnectingCases(w, r);
    var (w', source) := GetDataSource(w, r.schema, r.faultInit, r.faultMigrate);
    NoRowsClosed();
    assert Tidy(w'.schemas);
    if source.Some? && HasTables(w'.schemas, r.schema) {
      SaveKeepsClosed(w'.schemas[r.schema], r);
      SaveKeepsName(w'.schemas[r.schema], r);
    }
  }

  lemma OneProduct(schemas: map<string, Tables>, schema: string)
    requires Tidy(schemas) && HasTables(schemas, schema)
    ensures |schemas[schema].products| <= 1
    ensures forall k :: k in schemas[schema].feedback ==>
              var f := schemas[schema].feedback[k];
              f.changelogId.Some? ==>
                && f.changelogId.value in schemas[schema].changelogs
                && schemas[schema].changelogs[f.changelogId.value].productId == f.productId
  {
    var products := schemas[schema].products;
    if p :| p in products {
      assert products.Keys == {p};
      assert |products| == |products.Keys|;
    }
  }

  /** In every run every changelog and feedback row refers to rows of its own tenant's tables, and a tenant has
      at most one product: UNIQUE `tenantSchema` in a schema that only one tenant writes to.  That is why a
      feedback's changelog is always one of the feedback's own product, which createFeedback never checks. */
  lemma {:induction false} RunsStayTidy(w: World, rs: seq<Request>, schema: string)
    requires CacheSound(w.pool) && Tidy(w.schemas)
    ensures var w' := Run(w, rs);
      && CacheSound(w'.pool) && Tidy(w'.schemas)
      && (HasTables(w'.schemas, schema) ==>
            && |w'.schemas[schema].products| <= 1
            && forall k :: k in w'.schemas[schema].feedback ==>
                 var f := w'.schemas[schema].feedback[k];
                 f.changelogId.Some? ==>
                   && f.changelogId.value in w'.schemas[schema].changelogs
                   && w'.schemas[schema].changelogs[f.changelogId.value].productId == f.productId)
  {
    hide Serve, CacheSound, Closed, Tidy;
    if rs != [] {
      var init, r := rs[..|rs| - 1], rs[|rs| - 1];
      RunsStayTidy(w, init, schema);
      ServeKeepsTidy(Run(w, init), r);
      ServeStores(Run(w, init), r, schema, NoSource);
    }
    if HasTables(Run(w, rs).schemas, schema) { OneProduct(Run(w, rs).schemas, schema); }
  }

  /** The row was there before the run, or one of the tenant's callers was told it had been saved. */
  predicate Told(w: World, rs: seq<Request>, schema: string, a: Answer) {
    Stored(w.schemas, schema, a) || a in AnswersTo(w, rs, schema)
  }

  ghost predicate ProductTold(w: World, rs: seq<Request>, schema: string, id: string) {
    exists p: Product :: p.id == id && Told(w, rs, schema, ProductSaved(p))
  }

  ghost predicate ChangelogTold(w: World, rs: seq<Request>, schema: string, id: string) {
    exists c: Changelog :: c.id == id && Told(w, rs, schema, ChangelogSaved(c))
  }

  ghost predicate FeedbackTold(w: World, rs: seq<Request>, schema: string, id: string) {
    exists f: Feedback :: f.id == id && Told(w, rs, schema, FeedbackSaved(f))
  }

  /** A schema that has its tables is connected to, and they stay as they are. */
  lemma ConnectKeepsTables(w: World, r: Request)
    requires CacheSound(w.pool) && HasTables(w.schemas, r.schema) && !r.faultInit && !r.faultMigrate
    ensures var (w', a) := GetDataSource(w, r.schema, r.faultInit, r.faultMigrate);
      && a.Some? && HasTables(w'.schemas, r.schema) && w'.schemas[r.schema] == w.schemas[r.schema]
  {
    ConnectingCases(w, r);
  }

  /** After the run the caller's tables are there, tidy, and connected to as they are. */
  lemma Reached(w: World, rs: seq<Request>, r: Request)
    requires CacheSound(w.pool) && Tidy(w.schemas) && HasTables(Run(w, rs).schemas, r.schema)
    requires !r.faultInit && !r.faultMigrate
    ensures var v := Run(w, rs);
            var (v', source) := GetDataSource(v, r.schema, r.faultInit, r.faultMigrate);
      && CacheSound(v.pool) && Tidy(v.schemas)
      && source.Some? && source.value < |v'.pool.sources| && v'.pool.sources[source.value].schema == r.schema
      && HasTables(v'.schemas, r.schema) && v'.schemas[r.schema] == v.schemas[r.schema]
  {
    hide Run, CacheSound, Tidy;
    RunsStayTidy(w, rs, r.schema);
    ConnectingCases(Run(w, rs), r);
    ConnectKeepsTables(Run(w, rs), r);
  }

  lemma ToldIsStored(w: World, rs: seq<Request>, schema: string, id: string)
    requires CacheSound(w.pool) && Tidy(w.schemas) && HasTables(Run(w, rs).schemas, schema)
    ensures ProductTold(w, rs, schema, id) <==> id in Run(w, rs).schemas[schema].products
    ensures ChangelogTold(w, rs, schema, id) <==> id in Run(w, rs).schemas[schema].changelogs
    ensures FeedbackTold(w, rs, schema, id) <==> id in Run(w, rs).schemas[schema].feedback
  {
    hide Run, CacheSound, AnswersTo, Closed;
    RunsStayTidy(w, rs, schema);
    var t := Run(w, rs).schemas[schema];
    forall a | IsSaved(a) ensures Told(w, rs, schema, a) <==> Stored(Run(w, rs).schemas, schema, a) {
      TablesHoldAnswers(w, rs, schema, a);
    }
    if id in t.products { assert Told(w, rs, schema, ProductSaved(t.products[id])); }
    if id in t.changelogs { assert Told(w, rs, schema, ChangelogSaved(t.changelogs[id])); }
    if id in t.feedback { assert Told(w, rs, schema, FeedbackSaved(t.feedback[id])); }
  }

  /** What a caller of createProduct is told, after any run: the first product of a tenant is saved as asked for,
      and every further one is refused. */
  lemma ProductDecided(w: World, rs: seq<Request>, r: Request)
    requires CacheSound(w.pool) && Tidy(w.schemas) && HasTables(Run(w, rs).schemas, r.schema)
    requires r.body.NewProduct? && !r.faultInit && !r.faultMigrate
    ensures Serve(Run(w, rs), r).1
         == if exists p: Product :: Told(w, rs, r.schema, ProductSaved(p)) then Violates
            else ProductSaved(Product(r.id, r.body.product.title, r.body.product.description, r.schema))
  {
    hide Run, CacheSound, GetDataSource, Told, Closed;
    var v := Run(w, rs);
    Reached(w, rs, r);
    var products := v.schemas[r.schema].products;
    assert Named(v.schemas[r.schema], r.schema);
    if p: Product :| Told(w, rs, r.schema, ProductSaved(p)) {
      assert ProductTold(w, rs, r.schema, p.id);
      ToldIsStored(w, rs, r.schema, p.id);
      assert products[p.id].tenantSchema == r.schema;
    } else {
      forall id ensures id !in products {
        assert !ProductTold(w, rs, r.schema, id);
        ToldIsStored(w, rs, r.schema, id);
      }
    }
  }

  /** What a caller of createChangeLogs is told, after any run: it is saved exactly when its product was among
      the rows answered as saved to this tenant. */
  lemma ChangelogDecided(w: World, rs: seq<Request>, r: Request)
    requires CacheSound(w.pool) && Tidy(w.schemas) && HasTables(Run(w, rs).schemas, r.schema)
    requires r.body.NewChangelog? && !r.faultInit && !r.faultMigrate
    ensures var dto := r.body.changelog;
            var fine := ProductTold(w, rs, r.schema, dto.productId) && !ChangelogTold(w, rs, r.schema, r.id);
            var row := Changelog(r.id, dto.productId, dto.title, dto.content, r.body.at);
            Serve(Run(w, rs), r).1 == if fine then ChangelogSaved(row) else Violates
  {
    hide Run, CacheSound, GetDataSource, ProductTold, ChangelogTold, Closed;
    Reached(w, rs, r);
    ToldIsStored(w, rs, r.schema, r.body.changelog.productId);
    ToldIsStored(w, rs, r.schema, r.id);
  }

  /** What a caller of createFeedback is told, after any run, follows from what this tenant's callers were
      told before: it is accepted exactly when its product, and its changelog if it names one, were among the
      rows answered as saved, whatever was saved for other tenants under the same ids. */
  lemma FeedbackDecided(w: World, rs: seq<Request>, r: Request)
    requires CacheSound(w.pool) && Tidy(w.schemas) && HasTables(Run(w, rs).schemas, r.schema)
    requires r.body.NewFeedback? && !r.faultInit && !r.faultMigrate
    ensures var answer := Serve(Run(w, rs), r).1;
            var dto := r.body.feedback;
            var product := ProductTold(w, rs, r.schema, dto.productId);
            var changelog := dto.changelogId.Some? && dto.changelogId.value != "" ==>
                               ChangelogTold(w, rs, r.schema, dto.changelogId.value);
      && (answer == NotFound("PRODUCT", dto.productId) <==> !product)
      && (product && !changelog ==> answer == NotFound("CHANGELOG", dto.changelogId.value))
      && (answer.FeedbackSaved? <==> product && changelog && !FeedbackTold(w, rs, r.schema, r.id))
      && (product && changelog && FeedbackTold(w, rs, r.schema, r.id) ==> answer == Violates)
      && (answer.FeedbackSaved? ==>
            && answer.feedback.id == r.id && answer.feedback.content == dto.content
            && answer.feedback.userId == r.body.userId && answer.feedback.productId == dto.productId
            && answer.feedback.changelogId
               == if dto.changelogId.Some? && dto.changelogId.value != "" then Some(dto.changelogId.value) else None)
  {
    hide Run, CacheSound, ProductTold, ChangelogTold, FeedbackTold, GetDataSource, Closed;
    Reached(w, rs, r);
    var dto := r.body.feedback;
    ToldIsStored(w, rs, r.schema, dto.productId);
    if dto.changelogId.Some? { ToldIsStored(w, rs, r.schema, dto.changelogId.value); }
    ToldIsStored(w, rs, r.schema, r.id);
  }

  lemma SaveAnswers(t: Tables, r: Request)
    requires t.Migrated?
    ensures Save(t, r).1 != NoSource
  {
  }

  /** A caller gets no connection exactly when there is none cached and making one fails or has no schema to
      be made for. */
  lemma UnreachedExactly(w: World, r: Request)
    requires CacheSound(w.pool)
    ensures Serve(w, r).1 == NoSource <==>
            r.schema !in w.pool.cache && (r.faultInit || r.faultMigrate || r.schema !in w.schemas)
  {
    hide CacheSound, GetDataSource, ConnectionOf, Save;
    ConnectingCases(w, r);
    if HasTables(GetDataSource(w, r.schema, r.faultInit, r.faultMigrate).0.schemas, r.schema) {
      SaveAnswers(GetDataSource(w, r.schema, r.faultInit, r.faultMigrate).0.schemas[r.schema], r);
    }
  }
}
