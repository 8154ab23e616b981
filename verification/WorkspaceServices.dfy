/** ProductsService, ChangelogsService and FeedbackService as objects.  The creating methods do to the state, and
    answer, what Workspace.Serve gives for the same request; the listing methods answer with Paging's pages. */
module WorkspaceServices {
  import opened Tables
  import opened Provisioning
  import Connections
  import W = Workspace
  import Paging
  import Search
  import Double

  lemma SameEntry<V>(m: map<string, V>, k: string)
    requires k in m
    ensures m[k := m[k]] == m
  {
  }

  /** Connecting changes no row of any tenant. */
  lemma ConnectKeepsRows(w: World, schema: string)
    ensures Products(Connections.Connect(w, schema).0.schemas, schema) == Products(w.schemas, schema)
    ensures Changelogs(Connections.Connect(w, schema).0.schemas, schema) == Changelogs(w.schemas, schema)
  {
    Connections.ProvisionCases(w, schema, false, false);
  }

  class ProductsService {
    const provisioning: TenantProvisioningService

    constructor (provisioning: TenantProvisioningService)
      ensures this.provisioning == provisioning
    {
      this.provisioning := provisioning;
    }

    method CreateProduct(dto: W.ProductDto, tenantSchema: string, id: string, faultInit: bool, faultMigrate: bool)
      returns (answer: W.Answer)
      requires provisioning.Valid()
      modifies provisioning.Repr()
      ensures provisioning.Valid() && fresh(provisioning.Repr() - old(provisioning.Repr()))
      ensures (provisioning.State(), answer)
           == W.Serve(old(provisioning.State()), W.Request(tenantSchema, id, W.NewProduct(dto), faultInit, faultMigrate))
    {
      hide Connections.GetDataSource, TenantProvisioningService.Summarised, TenantProvisioningService.Filed,
        TenantProvisioningService.Valid;
      var found := provisioning.GetDataSource(tenantSchema, faultInit, faultMigrate);
      if found.None? {
        return W.NoSource;
      }
      var tenantDataSource := found.value;
      var tables := tenantDataSource.Query();
      if tables.None? {
        return W.Violates;
      }
      SameEntry(provisioning.database.schemas, tenantSchema);
      if id in tables.value.products || W.TitleTaken(tables.value.products, tenantSchema) {
        return W.Violates;
      }
      var product := Product(id, dto.title, dto.description, tenantSchema);
      tenantDataSource.SaveTables(tables.value.(products := tables.value.products[id := product]));
      return W.ProductSaved(product);
    }

    /** `listing` is the order in which the database lists the products of this schema.  A negative offset is
        refused by the database. */
    method GetProducts(tenantSchema: string, requestedPage: int, requestedLimit: int, search: Option<string>,
                       fold: char -> char, listing: seq<Product>)
      returns (r: Result<Paging.Paginated<Product>, W.Answer>)
      requires provisioning.Valid() && requestedLimit >= 1
      requires Search.Lists(listing, Products(provisioning.State().schemas, tenantSchema))
      requires |Search.Found(fold, listing, search)| < Double.LIMIT
      modifies provisioning.Repr()
      ensures provisioning.Valid() && fresh(provisioning.Repr() - old(provisioning.Repr()))
      ensures provisioning.State() == Connections.Connect(old(provisioning.State()), tenantSchema).0
      ensures r.Ok? <==> && Connections.Connect(old(provisioning.State()), tenantSchema).1.Some?
                         && HasTables(provisioning.State().schemas, tenantSchema) && requestedPage >= 1
      ensures r.Ok? ==>
                Some(r.value) == Paging.ProductPage(Search.Found(fold, listing, search), requestedPage, requestedLimit)
      ensures Search.Lists(listing, Products(provisioning.State().schemas, tenantSchema))
      ensures r.Ok? ==> forall p :: p in r.value.data ==>
                p in Products(provisioning.State().schemas, tenantSchema).Values
      ensures r.Ok? ==>
                && r.value.meta.page == requestedPage
                && r.value.meta.limit == (if requestedLimit > 200 then 200 else requestedLimit)
                && r.value.meta.total
                   == |set p | p in Products(provisioning.State().schemas, tenantSchema).Values
                               && (search.None? || search.value == ""
                                   || Search.ILike(fold, "%" + search.value + "%", p.title))|
    {
      hide Search.Lists, Search.ILike, Search.Found, Paging.Window, Double.Divide, Double.Ceil,
        Connections.GetDataSource,
        TenantProvisioningService.Summarised, TenantProvisioningService.Filed, TenantProvisioningService.Valid;
      ConnectKeepsRows(provisioning.State(), tenantSchema);
      var page, limit := requestedPage, requestedLimit;
      limit := Paging.Min(limit, 200);
      var offset := (page - 1) * limit;
      Paging.NegativeOffset(page, limit);
      page := Paging.Max(page, 1);

      var tenantDataSource := provisioning.GetDataSource(tenantSchema, false, false);
      if tenantDataSource.None? {
        return Err(W.NoSource);
      }
      var tables := tenantDataSource.value.Query();
      if tables.None? || offset < 0 {
        return Err(W.Violates);
      }

      var products := Search.Found(fold, listing, search);
      var data, total := Paging.Window(products, offset, limit), |products|;
      Search.TotalExact(fold, listing, Products(provisioning.State().schemas, tenantSchema), search);
      Search.SearchedPage(fold, listing, Products(provisioning.State().schemas, tenantSchema), search, offset, limit);
      var totalPages := Double.Ceil(Double.Divide(total, limit));
      var prevPage := if page > 1 then Some(page - 1) else None;
      var nextPage := if page < totalPages then Some(page + 1) else None;
      return Ok(Paging.Paginated(data, Paging.Meta(page, limit, totalPages, prevPage, nextPage, total)));
    }
  }

  class ChangelogsService {
    const provisioning: TenantProvisioningService

    constructor (provisioning: TenantProvisioningService)
      ensures this.provisioning == provisioning
    {
      this.provisioning := provisioning;
    }

    method CreateChangeLogs(schema: string, dto: W.ChangelogDto, id: string, now: Time,
                            faultInit: bool, faultMigrate: bool)
      returns (answer: W.Answer)
      requires provisioning.Valid()
      modifies provisioning.Repr()
      ensures provisioning.Valid() && fresh(provisioning.Repr() - old(provisioning.Repr()))
      ensures (provisioning.State(), answer)
           == W.Serve(old(provisioning.State()), W.Request(schema, id, W.NewChangelog(dto, now), faultInit, faultMigrate))
    {
      hide Connections.GetDataSource, TenantProvisioningService.Summarised, TenantProvisioningService.Filed,
        TenantProvisioningService.Valid;
      var found := provisioning.GetDataSource(schema, faultInit, faultMigrate);
      if found.None? {
        return W.NoSource;
      }
      var tenantDataSource := found.value;
      var tables := tenantDataSource.Query();
      if tables.None? {
        return W.Violates;
      }
      SameEntry(provisioning.database.schemas, schema);
      if id in tables.value.changelogs || dto.productId !in tables.value.products {
        return W.Violates;
      }
      var changelog := Changelog(id, dto.productId, dto.title, dto.content, now);
      tenantDataSource.SaveTables(tables.value.(changelogs := tables.value.changelogs[id := changelog]));
      return W.ChangelogSaved(changelog);
    }

    /** `listing` is the order in which the database lists the changelogs of this schema. */
    method GetChangeLogByProductId(schema: string, productId: string, requestedPage: int, requestedLimit: int,
                                   listing: seq<Changelog>)
      returns (r: Result<Paging.Paginated<Changelog>, W.Answer>)
      requires provisioning.Valid()
      requires Paging.Lists(listing, Changelogs(provisioning.State().schemas, schema))
      requires |Paging.OfProduct(listing, productId)| < Double.LIMIT
      modifies provisioning.Repr()
      ensures provisioning.Valid() && fresh(provisioning.Repr() - old(provisioning.Repr()))
      ensures provisioning.State() == Connections.Connect(old(provisioning.State()), schema).0
      ensures r.Ok? <==> && Connections.Connect(old(provisioning.State()), schema).1.Some?
                         && HasTables(provisioning.State().schemas, schema)
                         && productId in provisioning.State().schemas[schema].products
      ensures r.Ok? ==> r.value == Paging.ListPage(Paging.OfProduct(listing, productId), requestedPage, requestedLimit)
      ensures r.Err? && HasTables(provisioning.State().schemas, schema)
                && Connections.Connect(old(provisioning.State()), schema).1.Some? ==>
                r.error == W.NotFound("PRODUCT", productId)
      ensures Paging.Lists(listing, Changelogs(provisioning.State().schemas, schema))
      ensures r.Ok? ==> forall c :: c in r.value.data ==>
                c in Changelogs(provisioning.State().schemas, schema).Values && c.productId == productId
      ensures r.Ok? ==>
                && r.value.meta.page == (if requestedPage < 1 then 1 else requestedPage)
                && r.value.meta.limit == (if requestedLimit < 1 then 1 else if requestedLimit > 200 then 200
                                          else requestedLimit)
                && r.value.meta.total == |set c | c in Changelogs(provisioning.State().schemas, schema).Values
                                                  && c.productId == productId|
    {
      hide Paging.Lists, Paging.OfProduct, Paging.Window, Double.Divide, Double.Ceil, Connections.GetDataSource,
        TenantProvisioningService.Summarised, TenantProvisioningService.Filed, TenantProvisioningService.Valid;
      ConnectKeepsRows(provisioning.State(), schema);
      var page, limit := requestedPage, requestedLimit;
      page := Paging.Max(1, page);
      limit := Paging.Min(200, Paging.Max(1, limit));
      var offset := (page - 1) * limit;

      var tenantDataSource := provisioning.GetDataSource(schema, false, false);
      if tenantDataSource.None? {
        return Err(W.NoSource);
      }
      var tables := tenantDataSource.value.Query();
      if tables.None? {
        return Err(W.Violates);
      }
      if productId !in tables.value.products {
        return Err(W.NotFound("PRODUCT", productId));
      }

      var changelogs := Paging.OfProduct(listing, productId);
      var data, total := Paging.Window(changelogs, offset, limit), |changelogs|;
      Paging.TotalExact(listing, Changelogs(provisioning.State().schemas, schema), productId);
      Paging.ChangelogPage(listing, Changelogs(provisioning.State().schemas, schema), productId, offset, limit);
      var totalPages := Double.Ceil(Double.Divide(total, limit));
      var prevPage := if page > 1 then Some(page - 1) else None;
      var nextPage := if page < totalPages then Some(page + 1) else None;
      return Ok(Paging.Paginated(data, Paging.Meta(page, limit, totalPages, prevPage, nextPage, total)));
    }
  }

  class FeedbackService {
    const provisioning: TenantProvisioningService

    constructor (provisioning: TenantProvisioningService)
      ensures this.provisioning == provisioning
    {
      this.provisioning := provisioning;
    }

    method CreateFeedback(schema: string, userId: string, dto: W.FeedbackDto, id: string,
                          faultInit: bool, faultMigrate: bool)
      returns (answer: W.Answer)
      requires provisioning.Valid()
      modifies provisioning.Repr()
      ensures provisioning.Valid() && fresh(provisioning.Repr() - old(provisioning.Repr()))
      ensures (provisioning.State(), answer)
           == W.Serve(old(provisioning.State()), W.Request(schema, id, W.NewFeedback(userId, dto), faultInit, faultMigrate))
    {
      hide Connections.GetDataSource, TenantProvisioningService.Summarised, TenantProvisioningService.Filed,
        TenantProvisioningService.Valid;
      var found := provisioning.GetDataSource(schema, faultInit, faultMigrate);
      if found.None? {
        return W.NoSource;
      }
      var tenantDataSource := found.value;
      var tables := tenantDataSource.Query();
      if tables.None? {
        return W.Violates;
      }
      SameEntry(provisioning.database.schemas, schema);
      if dto.productId !in tables.value.products {
        return W.NotFound("PRODUCT", dto.productId);
      }
      var changelogId := None;
      if W.Asked(dto.changelogId) {
        if dto.changelogId.value !in tables.value.changelogs {
          return W.NotFound("CHANGELOG", dto.changelogId.value);
        }
        changelogId := dto.changelogId;
      }
      if id in tables.value.feedback {
        return W.Violates;
      }
      var feedback := Feedback(id, dto.content, userId, dto.productId, changelogId);
      tenantDataSource.SaveTables(tables.value.(feedback := tables.value.feedback[id := feedback]));
      return W.FeedbackSaved(feedback);
    }
  }
}
