/** What holds of signups that do not contend for a free slug, in every interleaving, with any faults. */
module SignupSafety {
  import opened Tables
  import opened Connections
  import opened SignupSteps

  // ---------------------------------------------------------------- the part of the world under one slug

  /** Tenant rows, schema contents and cache entry of one slug. */
  datatype Slice = Slice(rows: map<nat, Tenant>, tables: Option<Tables>, connection: Option<Source>)

  const CLEAR: Slice := Slice(map[], None, None)

  function RowsOf(tenants: map<nat, Tenant>, slug: string): map<nat, Tenant> {
    map id | id in tenants && tenants[id].slug == slug :: tenants[id]
  }

  function ConnectionOf(pool: Pool, slug: string): Option<Source> {
    if slug in pool.cache && pool.cache[slug] < |pool.sources| then Some(pool.sources[pool.cache[slug]]) else None
  }

  function SliceOf(w: World, slug: string): Slice {
    Slice(RowsOf(w.tenants, slug), if slug in w.schemas then Some(w.schemas[slug]) else None,
          ConnectionOf(w.pool, slug))
  }

  /** Cache keys name real DataSources of their own schema. */
  ghost predicate Filed(pool: Pool) {
    forall k :: k in pool.cache ==> pool.cache[k] < |pool.sources| && pool.sources[pool.cache[k]].schema == k
  }

  ghost predicate IdsBelow(w: World) {
    forall id :: id in w.tenants ==> id < w.nextTenantId
  }

  /** A world no signup is in the middle of: row and schema come together, and only then a connection. */
  ghost predicate Settled(w: World) {
    && IdsBelow(w) && CacheSound(w.pool)
    && (forall s :: s in w.schemas ==> SlugTaken(w.tenants, s) && w.schemas[s].Migrated?)
    && (forall id :: id in w.tenants ==> w.tenants[id].slug in w.schemas && w.tenants[id].schemaName == w.tenants[id].slug)
    && (forall i, j :: i in w.tenants && j in w.tenants && w.tenants[i].slug == w.tenants[j].slug ==> i == j)
    && (forall k :: k in w.pool.cache ==> k in w.schemas)
  }

  /** What a signup leaves behind when it succeeds. */
  predicate Complete(slice: Slice, r: SignupReq, owner: User) {
    && slice.rows.Values == {TenantRow(r)} && |slice.rows| == 1
    && slice.tables == Some(NO_ROWS.(users := map[r.ownerEmail := owner]))
    && slice.connection == Some(Source(r.slug, true, true))
    && owner.email == r.ownerEmail && owner.role == OwnerRole && owner.activatedAt.Some?
    && owner.passwordHash == HashPassword(r.password)
  }

  // ---------------------------------------------------------------- the slice tells the program counter

  predicate LiveOrNone(connection: Option<Source>, slug: string) {
    connection.Some? ==> connection.value == Source(slug, true, true)
  }

  predicate SourceIs(pool: Pool, source: nat, s: Source) {
    source < |pool.sources| && pool.sources[source] == s
  }

  predicate CallOk(before: Slice, w: World, call: Signup) {
    var r, now := call.req, SliceOf(w, call.req.slug);
    match call.pc
    case Check => now == before
    case Refused => now == before
    case Hash => now == CLEAR == before
    case SaveRow => now == CLEAR == before
    case RolledBack => now == CLEAR == before
    case CreateSchema(row) => before == CLEAR && now == Slice(map[row := TenantRow(r)], None, None)
    case InitSource(row) => before == CLEAR && now == Slice(map[row := TenantRow(r)], Some(Bare), None)
    case Migrate(row, source) =>
      && before == CLEAR && now == Slice(map[row := TenantRow(r)], Some(Bare), None)
      && SourceIs(w.pool, source, Source(r.slug, true, false))
    case InsertOwner(row, source) =>
      && before == CLEAR
      && now == Slice(map[row := TenantRow(r)], Some(NO_ROWS), Some(Source(r.slug, true, true)))
    case Created(owner) => before == CLEAR && Complete(now, r, owner)
    case Drop(undo) =>
      && before == CLEAR && LiveOrNone(now.connection, r.slug)
      && now.rows == if undo.Some? then map[undo.value := TenantRow(r)] else map[]
    case DeleteRow(row) =>
      before == CLEAR && LiveOrNone(now.connection, r.slug) && now.rows == map[row := TenantRow(r)] && now.tables == None
    case Disconnect =>
      before == CLEAR && LiveOrNone(now.connection, r.slug) && now.rows == map[] && now.tables == None
    case ForgetConnection => before == CLEAR && now.rows == map[] && now.tables == None
  }

  /** Nothing in the tenants table stands in the way of this signup. */
  predicate Free(w: World, r: SignupReq) {
    !SlugTaken(w.tenants, r.slug) && !Conflicts(w.tenants, TenantRow(r))
  }

  /** No signup that could succeed shares its slug with another one. */
  ghost predicate Uncontended(before: World, reqs: seq<SignupReq>) {
    forall i, j :: 0 <= i < |reqs| && 0 <= j < |reqs| && i != j && reqs[i].slug == reqs[j].slug ==> !Free(before, reqs[i])
  }

  ghost predicate Apart(before: World, calls: seq<Signup>) {
    forall c, d :: 0 <= c < |calls| && 0 <= d < |calls| && c != d && calls[c].req.slug == calls[d].req.slug ==>
      !Free(before, calls[c].req)
  }

  /** Where a signup can be that a stored row stands in the way of: refused at the lookup, or at the insert. */
  predicate Waits(before: Slice, pc: Pc) {
    || pc.Check? || pc.Refused?
    || (before == CLEAR && (pc.Hash? || pc.SaveRow? || pc == Drop(None) || pc.Disconnect? || pc.RolledBack?))
  }

  /** Such a signup never changes its slug. */
  predicate HopelessOk(before: Slice, w: World, call: Signup) {
    SliceOf(w, call.req.slug) == before && Waits(before, call.pc)
  }

  lemma HopelessIsOk(before: Slice, w: World, call: Signup)
    requires HopelessOk(before, w, call)
    ensures CallOk(before, w, call)
  {
  }

  ghost predicate Mentions(calls: seq<Signup>, slug: string) {
    exists c :: 0 <= c < |calls| && calls[c].req.slug == slug
  }

  ghost predicate Safe(before: World, s: Sys) {
    && IdsBelow(s.w) && Filed(s.w.pool) && Apart(before, s.calls)
    && (forall c :: 0 <= c < |s.calls| ==> CallOk(SliceOf(before, s.calls[c].req.slug), s.w, s.calls[c]))
    && (forall c :: 0 <= c < |s.calls| && !Free(before, s.calls[c].req) ==>
          HopelessOk(SliceOf(before, s.calls[c].req.slug), s.w, s.calls[c]))
    && (forall slug :: !Mentions(s.calls, slug) ==> SliceOf(s.w, slug) == SliceOf(before, slug))
  }

  // ---------------------------------------------------------------- one step stays within its own slug

  lemma RowsElsewhere(before: Slice, w: World, now: Time, call: Signup, fault: bool, other: string)
    requires IdsBelow(w) && CallOk(before, w, call) && other != call.req.slug
    ensures RowsOf(Next(w, now, call.req, call.pc, fault).0.tenants, other) == RowsOf(w.tenants, other)
  {
    if call.pc.DeleteRow? {
      assert call.pc.row in RowsOf(w.tenants, call.req.slug);
    }
  }

  /** No step of a signup, compensation included, touches a row, schema or cache entry of another slug. */
  lemma NextStaysHome(before: Slice, w: World, now: Time, call: Signup, fault: bool, other: string)
    requires IdsBelow(w) && Filed(w.pool) && CallOk(before, w, call) && other != call.req.slug
    ensures SliceOf(Next(w, now, call.req, call.pc, fault).0, other) == SliceOf(w, other)
  {
    var w' := Next(w, now, call.req, call.pc, fault).0;
    RowsElsewhere(before, w, now, call, fault, other);
    assert other in w'.schemas <==> other in w.schemas;
    assert other in w.schemas ==> w'.schemas[other] == w.schemas[other];
    assert ConnectionOf(w'.pool, other) == ConnectionOf(w.pool, other);
  }

  lemma SourcesElsewhere(before: Slice, w: World, now: Time, call: Signup, fault: bool, source: nat, other: Source)
    requires Filed(w.pool) && CallOk(before, w, call) && other.schema != call.req.slug
    requires SourceIs(w.pool, source, other)
    ensures SourceIs(Next(w, now, call.req, call.pc, fault).0.pool, source, other)
  {
  }

  lemma NextKeepsFiled(before: Slice, w: World, now: Time, call: Signup, fault: bool)
    requires IdsBelow(w) && Filed(w.pool) && CallOk(before, w, call)
    ensures IdsBelow(Next(w, now, call.req, call.pc, fault).0) && Filed(Next(w, now, call.req, call.pc, fault).0.pool)
  {
  }

  // ---------------------------------------------------------------- and keeps its own slug consistent

  lemma InsertedRow(w: World, row: Tenant)
    requires IdsBelow(w) && RowsOf(w.tenants, row.slug) == map[]
    ensures RowsOf(InsertRow(w, row).tenants, row.slug) == map[w.nextTenantId := row]
  {
  }

  lemma TryKeepsCall(before: Slice, w: World, now: Time, call: Signup, fault: bool)
    requires IdsBelow(w) && Filed(w.pool) && CallOk(before, w, call)
    requires call.pc.Check? || call.pc.Hash? || call.pc.SaveRow? || call.pc.CreateSchema? || call.pc.InitSource?
    requires before.rows == map[] ==> before == CLEAR
    ensures var (w', pc') := Next(w, now, call.req, call.pc, fault); CallOk(before, w', call.(pc := pc'))
  {
    var r := call.req;
    var (w', pc') := Next(w, now, r, call.pc, fault);
    match call.pc
    case Check =>
      if !SlugTaken(w.tenants, r.slug) { assert RowsOf(w.tenants, r.slug) == map[]; }
    case SaveRow => InsertedRow(w, TenantRow(r));
    case _ =>
  }

  lemma ProvisionKeepsCall(before: Slice, w: World, now: Time, call: Signup, fault: bool)
    requires IdsBelow(w) && Filed(w.pool) && CallOk(before, w, call)
    requires call.pc.Migrate? || call.pc.InsertOwner?
    ensures var (w', pc') := Next(w, now, call.req, call.pc, fault); CallOk(before, w', call.(pc := pc'))
  {
    var r := call.req;
    if call.pc.InsertOwner? {
      var row := call.pc.row;
      assert (map[row := TenantRow(r)]).Values == {TenantRow(r)} by {
        assert (map[row := TenantRow(r)])[row] == TenantRow(r);
      }
    }
  }

  lemma CatchKeepsCall(before: Slice, w: World, now: Time, call: Signup, fault: bool)
    requires IdsBelow(w) && Filed(w.pool) && CallOk(before, w, call)
    requires call.pc.Drop? || call.pc.DeleteRow? || call.pc.Disconnect? || call.pc.ForgetConnection? || Over(call.pc)
    ensures var (w', pc') := Next(w, now, call.req, call.pc, fault); CallOk(before, w', call.(pc := pc'))
  {
    if call.pc.DeleteRow? {
      var w' := RemoveRow(w, call.pc.row);
      assert forall id :: id in w.tenants && w.tenants[id].slug == call.req.slug ==>
        id in RowsOf(w.tenants, call.req.slug);
      assert RowsOf(w'.tenants, call.req.slug) == map[];
    }
  }

  /** Rows that were there before the batch are there still: their slugs are refused at the first lookup. */
  lemma StoredRowsStay(before: World, s: Sys, id: nat)
    requires Safe(before, s) && Settled(before) && id in before.tenants
    ensures id in s.w.tenants && s.w.tenants[id] == before.tenants[id]
  {
    hide Settled, Filed, IdsBelow, HopelessOk, ConnectionOf, Free;
    var slug := before.tenants[id].slug;
    assert id in SliceOf(before, slug).rows;
    assert SliceOf(s.w, slug) == SliceOf(before, slug) by {
      if Mentions(s.calls, slug) {
        var c :| 0 <= c < |s.calls| && s.calls[c].req.slug == slug;
        assert CallOk(SliceOf(before, slug), s.w, s.calls[c]);
      }
    }
    assert id in RowsOf(s.w.tenants, slug);
  }

  lemma ClearOrTaken(before: World, slug: string)
    requires Settled(before)
    ensures if SlugTaken(before.tenants, slug) then SliceOf(before, slug).rows != map[]
            else SliceOf(before, slug) == CLEAR
  {
    if SlugTaken(before.tenants, slug) {
      var id :| id in before.tenants && before.tenants[id].slug == slug;
      assert id in SliceOf(before, slug).rows;
    } else {
      assert RowsOf(before.tenants, slug) == map[];
    }
  }

  lemma StillInTheWay(before: World, s: Sys, r: SignupReq)
    requires Safe(before, s) && Settled(before) && !Free(before, r)
    ensures Conflicts(s.w.tenants, TenantRow(r))
  {
    hide Safe, Settled;
    var id :| id in before.tenants
              && (before.tenants[id].slug == r.slug || before.tenants[id].tenantOwnerEmail == r.ownerEmail
                  || before.tenants[id].schemaName == r.slug);
    StoredRowsStay(before, s, id);
    assert id in s.w.tenants;
  }

  lemma HopelessNext(home: Slice, w: World, now: Time, call: Signup, fault: bool)
    requires HopelessOk(home, w, call) && Conflicts(w.tenants, TenantRow(call.req))
    requires home == CLEAR || home.rows != map[]
    ensures var (w', pc') := Next(w, now, call.req, call.pc, fault); HopelessOk(home, w', call.(pc := pc'))
  {
    var slug := call.req.slug;
    if call.pc.Check? && home != CLEAR {
      var id :| id in home.rows;
      assert id in w.tenants && w.tenants[id].slug == slug;
    }
    if call.pc.Drop? {
      assert slug !in w.schemas;
      assert w.schemas - {slug} == w.schemas;
    }
  }

  lemma HopelessStays(before: World, s: Sys, c: nat, fault: bool)
    requires Safe(before, s) && Settled(before) && c < |s.calls| && !Free(before, s.calls[c].req)
    ensures var (w', pc') := Next(s.w, s.now, s.calls[c].req, s.calls[c].pc, fault);
            HopelessOk(SliceOf(before, s.calls[c].req.slug), w', s.calls[c].(pc := pc'))
  {
    var call := s.calls[c];
    var home := SliceOf(before, call.req.slug);
    assert HopelessOk(home, s.w, call);
    ClearOrTaken(before, call.req.slug);
    StillInTheWay(before, s, call.req);
    HopelessNext(home, s.w, s.now, call, fault);
  }

  lemma OtherCallKept(mine: Slice, theirs: Slice, w: World, now: Time, call: Signup, fault: bool, other: Signup)
    requires IdsBelow(w) && Filed(w.pool) && CallOk(mine, w, call) && CallOk(theirs, w, other)
    requires other.req.slug != call.req.slug
    ensures CallOk(theirs, Next(w, now, call.req, call.pc, fault).0, other)
  {
    hide Next, SliceOf;
    NextStaysHome(mine, w, now, call, fault, other.req.slug);
    if other.pc.Migrate? {
      SourcesElsewhere(mine, w, now, call, fault, other.pc.source, Source(other.req.slug, true, false));
    }
  }

  /** A call that is not the one advanced: either its slug is another one, or both are hopeless. */
  lemma BystanderKept(before: World, s: Sys, c: nat, fault: bool, d: nat)
    requires Safe(before, s) && Settled(before) && c < |s.calls| && d < |s.calls| && d != c
    ensures var w' := Next(s.w, s.now, s.calls[c].req, s.calls[c].pc, fault).0;
            var home := SliceOf(before, s.calls[d].req.slug);
      && CallOk(home, w', s.calls[d]) && (!Free(before, s.calls[d].req) ==> HopelessOk(home, w', s.calls[d]))
  {
    hide CallOk, Next, SliceOf, Filed, IdsBelow, Settled, Free;
    var call, other := s.calls[c], s.calls[d];
    var mine, theirs := SliceOf(before, call.req.slug), SliceOf(before, other.req.slug);
    var w' := Next(s.w, s.now, call.req, call.pc, fault).0;
    if call.req.slug == other.req.slug {
      HopelessStays(before, s, c, fault);
      assert HopelessOk(theirs, s.w, other);
      HopelessIsOk(theirs, w', other);
    } else {
      OtherCallKept(mine, theirs, s.w, s.now, call, fault, other);
      NextStaysHome(mine, s.w, s.now, call, fault, other.req.slug);
    }
  }

  lemma OwnCallKept(before: World, w: World, now: Time, call: Signup, fault: bool)
    requires Settled(before) && IdsBelow(w) && Filed(w.pool) && CallOk(SliceOf(before, call.req.slug), w, call)
    ensures var (w', pc') := Next(w, now, call.req, call.pc, fault);
            CallOk(SliceOf(before, call.req.slug), w', call.(pc := pc'))
  {
    hide CallOk, Next, Filed, IdsBelow;
    var home := SliceOf(before, call.req.slug);
    assert home.rows == map[] ==> home == CLEAR by {
      if SlugTaken(before.tenants, call.req.slug) {
        var id :| id in before.tenants && before.tenants[id].slug == call.req.slug;
        assert id in home.rows;
      }
    }
    if call.pc.Check? || call.pc.Hash? || call.pc.SaveRow? || call.pc.CreateSchema? || call.pc.InitSource? {
      TryKeepsCall(home, w, now, call, fault);
    } else if call.pc.Migrate? || call.pc.InsertOwner? {
      ProvisionKeepsCall(home, w, now, call, fault);
    } else {
      CatchKeepsCall(home, w, now, call, fault);
    }
  }

  lemma AdvanceKeeps(before: World, s: Sys, c: nat, fault: bool)
    requires Safe(before, s) && Settled(before) && c < |s.calls|
    ensures Safe(before, Step(s, Advance(c, fault)))
  {
    hide CallOk, HopelessOk, SliceOf, Next, Filed, IdsBelow, Settled, Free;
    var call := s.calls[c];
    var home := SliceOf(before, call.req.slug);
    var (w', pc') := Next(s.w, s.now, call.req, call.pc, fault);
    var s' := Step(s, Advance(c, fault));
    NextKeepsFiled(home, s.w, s.now, call, fault);
    OwnCallKept(before, s.w, s.now, call, fault);
    if !Free(before, call.req) { HopelessStays(before, s, c, fault); }
    forall slug | slug != call.req.slug ensures SliceOf(w', slug) == SliceOf(s.w, slug) {
      NextStaysHome(home, s.w, s.now, call, fault, slug);
    }
    forall d | 0 <= d < |s.calls| && d != c
      ensures CallOk(SliceOf(before, s.calls[d].req.slug), w', s.calls[d])
      ensures !Free(before, s.calls[d].req) ==> HopelessOk(SliceOf(before, s.calls[d].req.slug), w', s.calls[d])
    {
      BystanderKept(before, s, c, fault, d);
    }
    assert forall slug :: Mentions(s.calls, slug) ==> Mentions(s'.calls, slug) by {
      forall slug | Mentions(s.calls, slug) ensures Mentions(s'.calls, slug) {
        var d :| 0 <= d < |s.calls| && s.calls[d].req.slug == slug;
        assert s'.calls[d].req.slug == slug;
      }
    }
    assert s'.calls[c].req == call.req;
  }

  lemma BeginSafe(before: World, reqs: seq<SignupReq>, now: Time)
    requires Settled(before)
    requires Uncontended(before, reqs)
    ensures Safe(before, Begin(before, reqs, now))
  {
  }

  lemma {:induction false} SafeAlways(before: World, reqs: seq<SignupReq>, now: Time, events: seq<Event>)
    requires Settled(before)
    requires Uncontended(before, reqs)
    ensures Safe(before, Run(Begin(before, reqs, now), events))
  {
    hide CallOk, HopelessOk, SliceOf, Next, Free;
    if events == [] {
      BeginSafe(before, reqs, now);
    } else {
      SafeAlways(before, reqs, now, events[..|events| - 1]);
      var s := Run(Begin(before, reqs, now), events[..|events| - 1]);
      match events[|events| - 1]
      case Advance(c, fault) => if c < |s.calls| { AdvanceKeeps(before, s, c, fault); }
      case Tick(_) =>
    }
  }

  // ---------------------------------------------------------------- the theorems

  /** Without contention for a free slug, in every interleaving, with any faults and any clashes of owner emails:
      a signup that has thrown has left its slug exactly as it was, one that has returned has left the row,
      the schema with its owner and the connection, and no other slug was ever touched. */
  lemma SignupAllOrNothing(before: World, reqs: seq<SignupReq>, now: Time, events: seq<Event>)
    requires Settled(before)
    requires Uncontended(before, reqs)
    ensures var s := Run(Begin(before, reqs, now), events);
      && (forall c :: 0 <= c < |s.calls| && Over(s.calls[c].pc) ==>
            var slug := s.calls[c].req.slug;
            if s.calls[c].pc.Created? then
              && SliceOf(before, slug) == CLEAR
              && Complete(SliceOf(s.w, slug), s.calls[c].req, s.calls[c].pc.owner)
            else
              SliceOf(s.w, slug) == SliceOf(before, slug))
      && (forall slug :: !Mentions(s.calls, slug) ==> SliceOf(s.w, slug) == SliceOf(before, slug))
  {
    hide SliceOf, Complete, Next;
    SafeAlways(before, reqs, now, events);
    var s := Run(Begin(before, reqs, now), events);
    assert forall c :: 0 <= c < |s.calls| ==> CallOk(SliceOf(before, s.calls[c].req.slug), s.w, s.calls[c]);
  }

  /** Every slug of a settled world is either clear or fully there; and that makes a world settled. */
  ghost predicate SettledSlice(slice: Slice, slug: string) {
    if slice.rows == map[] then
      slice.tables == None && slice.connection == None
    else
      && (exists id :: slice.rows.Keys == {id} && slice.rows[id].schemaName == slug)
      && slice.tables.Some? && slice.tables.value.Migrated? && LiveOrNone(slice.connection, slug)
  }

  lemma SettledSlices(w: World, slug: string)
    requires Settled(w)
    ensures SettledSlice(SliceOf(w, slug), slug)
  {
    var rows := RowsOf(w.tenants, slug);
    if SlugTaken(w.tenants, slug) {
      var id :| id in w.tenants && w.tenants[id].slug == slug;
      assert id in rows;
      assert rows.Keys == {id};
    } else {
      assert rows == map[];
    }
  }

  lemma SlicesSettle(w: World)
    requires IdsBelow(w) && Filed(w.pool)
    requires forall slug :: SettledSlice(SliceOf(w, slug), slug)
    ensures Settled(w)
  {
    forall k | k in w.pool.cache
      ensures w.pool.sources[w.pool.cache[k]] == Source(k, true, true) && k in w.schemas
    {
      assert SettledSlice(SliceOf(w, k), k);
    }
    forall s | s in w.schemas ensures SlugTaken(w.tenants, s) && w.schemas[s].Migrated? {
      assert SettledSlice(SliceOf(w, s), s);
      var id :| id in RowsOf(w.tenants, s);
      assert id in w.tenants && w.tenants[id].slug == s;
    }
    forall id | id in w.tenants
      ensures w.tenants[id].slug in w.schemas && w.tenants[id].schemaName == w.tenants[id].slug
      ensures forall j :: j in w.tenants && w.tenants[j].slug == w.tenants[id].slug ==> j == id
    {
      var slug := w.tenants[id].slug;
      assert SettledSlice(SliceOf(w, slug), slug);
      assert id in RowsOf(w.tenants, slug);
      var only :| RowsOf(w.tenants, slug).Keys == {only};
      forall j | j in w.tenants && w.tenants[j].slug == slug ensures j == id {
        assert j in RowsOf(w.tenants, slug).Keys;
        assert id in RowsOf(w.tenants, slug).Keys;
      }
    }
  }

  lemma CompleteSettled(slice: Slice, r: SignupReq, owner: User)
    requires Complete(slice, r, owner)
    ensures SettledSlice(slice, r.slug)
  {
    var id :| id in slice.rows;
    assert slice.rows[id] in slice.rows.Values;
    assert slice.rows.Keys == {id} by {
      assert |slice.rows.Keys - {id}| == 0;
    }
  }

  /** When every signup of the batch is over, tenant rows and tenant schemas correspond one to one again. */
  lemma SignupsSettle(before: World, reqs: seq<SignupReq>, now: Time, events: seq<Event>)
    requires Settled(before)
    requires Uncontended(before, reqs)
    requires AllOver(Run(Begin(before, reqs, now), events))
    ensures Settled(Run(Begin(before, reqs, now), events).w)
  {
    hide SliceOf, Complete, Next, Settled, SettledSlice, CallOk, IdsBelow, Filed, Run;
    SafeAlways(before, reqs, now, events);
    SignupAllOrNothing(before, reqs, now, events);
    var s := Run(Begin(before, reqs, now), events);
    forall slug ensures SettledSlice(SliceOf(s.w, slug), slug) {
      SettledSlices(before, slug);
      if Mentions(s.calls, slug) {
        var c :| 0 <= c < |s.calls| && s.calls[c].req.slug == slug;
        assert Over(s.calls[c].pc);
        if s.calls[c].pc.Created? { CompleteSettled(SliceOf(s.w, slug), s.calls[c].req, s.calls[c].pc.owner); }
      }
    }
    SlicesSettle(s.w);
  }

  // ---------------------------------------------------------------- the UNIQUE columns

  /** Two tenants share no slug, no owner's address and no schema name. */
  ghost predicate RowsUnique(tenants: map<nat, Tenant>) {
    forall i, j :: i in tenants && j in tenants && i != j ==>
      && tenants[i].slug != tenants[j].slug && tenants[i].tenantOwnerEmail != tenants[j].tenantOwnerEmail
      && tenants[i].schemaName != tenants[j].schemaName
  }

  lemma NextKeepsUnique(w: World, now: Time, r: SignupReq, pc: Pc, fault: bool)
    requires RowsUnique(w.tenants)
    ensures RowsUnique(Next(w, now, r, pc, fault).0.tenants)
  {
  }

  lemma {:induction false} UniqueAlways(s: Sys, events: seq<Event>)
    requires RowsUnique(s.w.tenants)
    ensures RowsUnique(Run(s, events).w.tenants)
  {
    hide Next, RowsUnique;
    if events != [] {
      UniqueAlways(s, events[..|events| - 1]);
      var v := Run(s, events[..|events| - 1]);
      match events[|events| - 1]
      case Advance(c, fault) =>
        if c < |v.calls| { NextKeepsUnique(v.w, v.now, v.calls[c].req, v.calls[c].pc, fault); }
      case Tick(_) =>
    }
  }

  /** In every interleaving of any signups at all, contended or not, two tenant rows never share a slug, an
      owner's address or a schema name, if they did not before. */
  lemma {:induction false} TenantsStayUnique(before: World, reqs: seq<SignupReq>, now: Time, events: seq<Event>)
    requires RowsUnique(before.tenants)
    ensures var tenants := Run(Begin(before, reqs, now), events).w.tenants;
      forall i, j :: i in tenants && j in tenants && i != j ==>
        && tenants[i].slug != tenants[j].slug && tenants[i].tenantOwnerEmail != tenants[j].tenantOwnerEmail
        && tenants[i].schemaName != tenants[j].schemaName
  {
    hide Run;
    UniqueAlways(Begin(before, reqs, now), events);
  }
}
