# Verified model of the multi-tenant workspace backend

The backend keeps one PostgreSQL schema per tenant. This project models its stateful protocols and its two
pieces of real computation, and proves what they keep.

- **Invitations** (`InvitationSteps`, `InvitationSafety`, `InvitationRace`, `InvitationClash`,
  `InvitationSerial`, `Lifecycle`, `InvitationAnswers`, `Expiry`). Invite, accept, revoke and the nightly expiry
  share one invitations table and the tenants' users tables. They are modelled twice. In `InvitationSteps` every
  awaited call is a step of its own and any number of requests interleave; what survives there is about
  `acceptedAt`, and rests on inserting the user before marking the row and on UNIQUE `email`. In `Lifecycle` a
  call runs alone, and much stronger laws hold. `WholeCallsInterleave` proves that every run of the second
  machine is one of the first. Overlapping calls can leave a row with another status's date on it;
  `StampedIffClashFree` says exactly when.
- **Signup** (`SignupSteps`, `SignupSafety`, `SignupRace`, `Accounts`). A tenant row, a schema, a migrated
  DataSource, a cache entry and an owner are made one await at a time; any of them may fail, and a `catch`
  takes back what was done. The saga is all-or-nothing, alone and interleaved with signups for other slugs. Two
  signups for one slug can leave a tenant row without a schema; `SettlesIffUncontended` says exactly when.
- **Login** (`Logins`). After any run of whole calls, faults included, who can log in is who was told to have
  been signed up or accepted, with the password they gave.
- **Connections** (`Connections`). The cache of DataSources by schema name: what an entry is, that it cannot be
  noticed, and that no initialised DataSource goes unaccounted for.
- **Workspace** (`Workspace`). Products, changelogs and feedback of many tenants over that one cache: isolation,
  what the tables hold after a run, and which references stay closed.
- **Cursors** (`IsoDate`, `Json`, `Utf8`, `Base64Url`, `Cursor`). Each layer is written out from its standard:
  sections 21.4.1 and 25.5 of ECMA-262, section 7 of RFC 8259, section 3 of RFC 3629, section 5 of RFC 4648.
- **Pages** (`Double`, `Paging`, `Search`). Offsets, page counts by double-precision division (section 4.3.1 of
  IEEE 754-2008), prev/next links, and the ILIKE filter (section 8.5 of ISO/IEC 9075-2).
- **Response cache** (`CacheWrapper`, `ResponseCache`).

`Tables` holds the data model. The service classes are in `Provisioning`, `TenantService`, `AuthService`,
`WorkspaceServices`, `CacheWrapper` and `ResponseCache`: their methods update objects step by step as the
source does, and each is proved to do to the state, and to answer, what the function of the value model gives,
so every theorem about that function is about the method.

Clocks, generated uuids, which matching row an unordered `findOne` returns, the order in which the database
lists rows, and which call fails are parameters. A fault means the call has no effect; the `catch` of signup
does not fail.

Where code and documentation disagree the model follows the code: the repository's README says that tenant
migrations are commented out, but `provision` runs them.

## Model

| member | source | states |
|---|---|---|
| InvitationSafety.SafeAlways | src/tenant/tenant.service.ts:29-130 | The inductive invariant of every interleaving of invite, accept, revoke and cleanup steps: rows, in-flight calls, distinctness, counts and the trace of every user |
| InvitationSafety.AcceptedOnce | src/tenant/tenant.service.ts:92-113 | In every interleaving an invitation with `acceptedAt` set has a user in its tenant with its email and role, and two of them in one tenant never share an email |
| InvitationSafety.UsersConserved | src/tenant/tenant.service.ts:102-113 | At every interleaved step a tenant's users number one owner, plus its accepted invitations, plus the accepts between insert and status update |
| InvitationSafety.EveryUserInvited | src/tenant/tenant.service.ts:57-108 | In every interleaving each user but the owner was inserted by an accept that carried the token of an invitation in the table, for that address, role and tenant, with that accept's password, checked within 24 hours of the invite |
| InvitationSafety.StatusIsDated | src/tenant/tenant.service.ts:80-128 | In every interleaving an ACCEPTED row has `acceptedAt` and a REVOKED row has `revokedAt` |
| InvitationRace.OverlapRevokesAccepted | src/tenant/tenant.service.ts:110-128 | The converse fails when calls overlap: a reachable state has a REVOKED invitation with both dates set whose invitee is a user |
| InvitationClash.StampedIffClashFree | src/tenant/tenant.service.ts:71-128 | For any batch of accepts, revokes and cleanups begun in a lawful state, every interleaving keeps `acceptedAt` set exactly when ACCEPTED and `revokedAt` exactly when REVOKED if and only if no PENDING invitation is claimed by an accept and a revoke nor, unless already expired, by two accepts |
| InvitationClash.KeptAlways | src/tenant/tenant.service.ts:71-128 | The invariant behind it: in a batch without clashes each row and each call keeps to its claim |
| InvitationSteps.FindOne | src/tenant/tenant.service.ts:71-73 | An unordered `findOne` returns some row meeting the `where`, and nothing only when no row does |
| Lifecycle.InviteIsSolo | src/tenant/tenant.service.ts:29-69 | The whole-call invite is the interleaved machine's invite with its four awaits run back to back |
| Lifecycle.AcceptIsSolo | src/tenant/tenant.service.ts:70-116 | The whole-call accept is the interleaved machine's accept with its six awaits run back to back |
| InvitationSerial.RevokeIsSolo | src/tenant/tenant.service.ts:118-130 | Same, for revoke and its two awaits |
| InvitationSerial.CleanupIsSolo | src/tenant/tenant-invitation-cleanup.service.ts:17-25 | Same, for the cleanup |
| InvitationSerial.WholeCallsInterleave | src/tenant/tenant.service.ts:29-130 | Every run of whole calls in time order is an interleaving with the same tables at the end, so what holds of every interleaving holds of it |
| Lifecycle.LawfulAlways | src/tenant/tenant.service.ts:29-130 | The inductive invariant of every run of whole calls |
| Lifecycle.AtomicLaws | src/tenant/tenant.service.ts:34-55 | At most one PENDING invitation per email and tenant, none for a user of that tenant; `acceptedAt` set exactly when ACCEPTED, `revokedAt` exactly when REVOKED; users = 1 + ACCEPTED invitations |
| Lifecycle.AcceptDecided | src/tenant/tenant.service.ts:71-98 | In every run the "User already exists" branch is unreachable: an accept is not found, expired, or succeeds, by the token's status and the clock alone |
| Lifecycle.LeavesPendingOnce | src/tenant/tenant.service.ts:80-128 | Each invitation leaves PENDING at most once and never changes after; its identifying columns never change |
| InvitationAnswers.InviteDecided | src/tenant/tenant.service.ts:34-67 | In every run the answers to an invite exclude one another and say what stood in the way: no such tenant, PENDING invitation, existing user, used token, or nothing; and the one row it may add, column by column |
| InvitationAnswers.AcceptEffect | src/tenant/tenant.service.ts:71-114 | In every run what an accept does to the tables, column by column: nothing, or its PENDING invitation becomes EXPIRED, or the invited user is inserted and the invitation becomes ACCEPTED with that instant as its date |
| InvitationAnswers.AcceptRefusals | src/tenant/tenant.service.ts:87-98 | In any state an accept of an unexpired invitation answers by the tenant's schema first and its users next, and a refusal changes no table |
| InvitationAnswers.InviteThenAccept | src/tenant/tenant.service.ts:57-85 | An invitation is good up to and including 24 hours after the invite, then and only then the accept creates the user in the invited role, and expired from the next millisecond |
| InvitationAnswers.RevokeThenAccept | src/tenant/tenant.service.ts:118-130 | A revoke succeeds exactly when some PENDING invitation has that email, changes one such row, and its token is then refused at any later time |
| InvitationAnswers.TokenSpent | src/tenant/tenant.service.ts:71-79 | Once an invitation is accepted, revoked or expired, then whatever whole calls follow, an accept with its token is not found |
| Expiry.CleanupsErasable | src/tenant/tenant-invitation-cleanup.service.ts:17-25 | Over any run of accepts and cleanups in time order, erasing the cleanups changes no user created and no welcome, and one last cleanup makes the rows equal |
| Expiry.StaysAhead | src/tenant/tenant-invitation-cleanup.service.ts:17-25 | The simulation behind it: the run with cleanups stays ahead of the run without by stale rows only |
| Expiry.AcceptStaysAhead | src/tenant/tenant.service.ts:80-85 | One accept answers the same in both, except that a row the cleanup expired is not found rather than expired |
| Expiry.InviteFeelsCleanup | src/tenant/tenant.service.ts:34-43 | An invite does notice: in any state, a cleanup changes its answer if and only if PENDING invitations are in its way and all of them are stale |
| Expiry.ReinviteNeedsCleanup | src/tenant/tenant.service.ts:34-67 | The run that shows it: inviting somebody again 24 hours and a millisecond later is a duplicate without a cleanup and is saved after one |
| TenantServices.TenantService.InviteUserToTenant | src/tenant/tenant.service.ts:29-69 | The method does to the state, and answers, what Lifecycle.Invite gives, and keeps the connection cache sound |
| TenantServices.TenantService.AcceptTenantInvitation | src/tenant/tenant.service.ts:70-116 | Same, for Lifecycle.Accept |
| TenantServices.TenantService.RevokeInvitation | src/tenant/tenant.service.ts:118-130 | Same, for Lifecycle.Revoke |
| TenantServices.TenantInvitationCleanupService.ExpireStaleInvitations | src/tenant/tenant-invitation-cleanup.service.ts:17-25 | Exactly the PENDING rows whose expiry is strictly past become EXPIRED, and no other column or row changes |
| SignupSafety.SafeAlways | src/auth/auth.service.ts:37-80 | The inductive invariant of every interleaving of signups of which none that could succeed shares its slug: what each in-flight call may assume of its own slug |
| SignupSafety.NextStaysHome | src/auth/auth.service.ts:48-80 | One step of a signup, compensation included, leaves the rows, schema and connection of every other slug as they were |
| SignupSafety.SignupAllOrNothing | src/auth/auth.service.ts:48-80 | In every such interleaving, contended owner emails and faults included, a finished signup has all of ACTIVE row, migrated schema, activated owner and cached connection, or has left its slug as before; slugs nobody signs up for are untouched |
| SignupSafety.SignupsSettle | src/auth/auth.service.ts:37-80 | When all have finished, tenant rows and tenant schemas correspond one to one |
| SignupRace.RaceUnsettles | src/auth/auth.service.ts:69-75 | A signup for a free slug and any other for the same slug can end with a tenant row and no schema, because the `catch` drops by slug |
| SignupRace.SettlesIffUncontended | src/auth/auth.service.ts:37-80 | For every batch of signups, every finished interleaving is settled if and only if no signup that nothing stored stands in the way of shares its slug with another |
| SignupRace.SettlesIffDistinct | src/auth/auth.service.ts:37-80 | In particular, when nothing stored stands in the way of any of them, if and only if the slugs are distinct |
| Accounts.SignUpIsSolo | src/auth/auth.service.ts:34-81 | The whole-call signup is the interleaved machine's signup with its awaits run back to back, for every combination of faults |
| Accounts.SignUpAtomic | src/auth/auth.service.ts:48-80 | For every combination of faults: tenants, schemas and cache exactly as before, or the ACTIVE row, migrated schema with its activated owner and cached connection all there and nothing else changed |
| Accounts.SignUpDecided | src/auth/auth.service.ts:37-68 | A signup succeeds if and only if no await fails and no stored tenant has its slug, its owner's address or its schema name; the owner is then the user described, column by column |
| Accounts.RefusedEarly | src/auth/auth.service.ts:37-46 | In any state, a signup that fails before the `try` leaves everything as it was: nothing is compensated for |
| Accounts.ExistingRowsKept | src/auth/auth.service.ts:57-68 | In any state, the `try` loses no row of a schema that was already there |
| SignupSafety.TenantsStayUnique | src/tenant/entities/tenant.entity.ts:10-17 | In every interleaving of any signups, contended or not, two tenant rows never share a slug, an owner's address or a schema name |
| Logins.SignUpExact | src/auth/auth.service.ts:37-68 | After any run of whole calls the same condition decides a signup without faults, and the three columns stay unique |
| AuthServices.AuthService.SignUp | src/auth/auth.service.ts:34-81 | The method does to the state, and answers, what Accounts.SignUp gives |
| AuthServices.AuthService.TryToCreate | src/auth/auth.service.ts:48-68 | The `try` block, against Accounts.Attempt |
| AuthServices.AuthService.RollBack | src/auth/auth.service.ts:69-80 | The `catch` block, against Accounts.Compensate |
| AuthServices.AuthService.Login | src/auth/auth.service.ts:83-135 | The method does to the state, and answers, what Logins.Login gives |
| Logins.LoginExact | src/auth/auth.service.ts:83-135 | After any run of signups with faults, invites, accepts, revokes, cleanups and logins, login succeeds exactly for a tenant, address and password that a successful signup or accept set, and the token carries that user and that tenant's schema; every stored user logs in, with exactly one password |
| Logins.GoodAlways | src/auth/auth.service.ts:49-68 | The invariant behind it: every tenant ACTIVE, every stored user activated with the hash of a password that a successful signup or accept set |
| Logins.LoginAnswers | src/auth/auth.service.ts:84-115 | On any state whose tenant has its tables, each of login's answers if and only if its case applies, in the order of the checks, for either form of the schema name |
| Logins.RefusalsAlike | src/auth/auth.service.ts:84-115 | After any run a refused login says that there is no such tenant or that the credentials are invalid, never which of the two was wrong |
| Connections.PoolConserved | src/database/tenant-datasource.service.ts:37-54 | After any run of getDataSource and deleteConnection with faults, cached entries are initialised, migrated DataSources of their own schema, and initialisations = cached + destroyed + those whose migration failed |
| Connections.CacheTransparent | src/database/tenant-datasource.service.ts:44-47 | After any such run getDataSource succeeds exactly when provisioning from scratch would, with a DataSource of the schema asked for and the same tables |
| Connections.ConnectToTables | src/database/tenant-datasource.service.ts:44-47 | A schema that has its tables always connects, and connecting changes nothing but the pool |
| Connections.ProvisionCases | src/database/tenant-datasource.service.ts:17-42 | Provisioning comes to nothing, to one uncached DataSource, or to one cached connection and a migrated schema |
| Provisioning.TenantProvisioningService.Provision | src/database/tenant-datasource.service.ts:17-42 | The method against Connections.Provision, keeping every cached object initialised, migrated and filed under its own schema |
| Provisioning.TenantProvisioningService.GetDataSource | src/database/tenant-datasource.service.ts:44-47 | The method against Connections.GetDataSource; the object handed out works in the schema asked for |
| Provisioning.TenantProvisioningService.DeleteConnection | src/database/tenant-datasource.service.ts:48-54 | The method against Connections.DeleteConnection |
| Workspace.TenantsIsolated | src/database/tenant-datasource.service.ts:44-47 | For any sequence of createProduct, createChangeLogs and createFeedback calls with faults, each tenant's tables, connection and answers are those of the run in which it is alone |
| Workspace.TablesHoldAnswers | src/changelogs/changelogs.service.ts:15-20 | After any run a tenant's tables hold what they held before and exactly the rows its callers were told were saved, and each new row is, column by column, what one of that tenant's own requests asked for |
| Workspace.RunsStayTidy | src/products/products.service.ts:12-25 | In every run references stay within one tenant, a tenant has at most one product, and a feedback's changelog belongs to the feedback's product |
| Workspace.SaveKeepsClosed | src/feedback/feedback.service.ts:26-46 | One save keeps the references of a tenant's tables closed |
| Workspace.ProductDecided | src/products/products.service.ts:12-25 | After any run createProduct saves the product asked for if and only if no product was stored for the tenant at the start or answered as saved to it, and is refused by UNIQUE otherwise |
| Workspace.ChangelogDecided | src/changelogs/changelogs.service.ts:15-20 | After any run createChangeLogs saves the changelog asked for if and only if its product was stored at the start or answered as saved to that tenant, and no changelog under its id was |
| Workspace.FeedbackDecided | src/feedback/feedback.service.ts:26-56 | After any run createFeedback's answer follows from the earlier answers to that tenant alone: it is saved exactly when its product, and its changelog if it names one other than the empty string, were stored at the start or answered as saved; the saved row is the one asked for |
| Workspace.UnreachedExactly | src/database/tenant-datasource.service.ts:44-47 | A caller gets no connection exactly when none is cached and provisioning fails or has no schema |
| WorkspaceServices.ProductsService.CreateProduct | src/products/products.service.ts:12-25 | The method against Workspace.Serve |
| WorkspaceServices.ProductsService.GetProducts | src/products/products.service.ts:27-66 | The page is Paging.ProductPage of the rows of this schema's products table that the search keeps, and shows only such rows; its meta has the page, the limit capped at 200 and the number of rows kept; it fails exactly without connection or tables, or for page < 1, whose offset is negative |
| WorkspaceServices.ChangelogsService.CreateChangeLogs | src/changelogs/changelogs.service.ts:15-20 | The method against Workspace.Serve |
| WorkspaceServices.ChangelogsService.GetChangeLogByProductId | src/changelogs/changelogs.service.ts:22-66 | The page is Paging.ListPage of the product's rows of this schema's changelog table for any page and limit, and shows only such rows; its meta has the clamped page and limit and the number of stored changelogs of the product; it fails exactly without connection, tables or product |
| WorkspaceServices.FeedbackService.CreateFeedback | src/feedback/feedback.service.ts:15-56 | The method against Workspace.Serve |
| Cursor.CursorRoundTrip | src/common/utils/index.utils.ts:22-29 | For every id, lone surrogates included, and every valid Date, decoding gives back the id and the ISO string, and that string reads back as the Date |
| Cursor.CursorText | src/common/utils/index.utils.ts:22-25 | For an id without controls, quotes, backslashes and lone surrogates, the text inside the cursor, character by character |
| Cursor.CursorInjective | src/common/utils/index.utils.ts:22-25 | Distinct (id, instant) pairs have distinct cursors |
| Cursor.CursorAlphabet | src/common/utils/index.utils.ts:22-25 | A cursor uses only the unpadded URL-safe alphabet, and there is one unless the Date is invalid |
| Cursor.PayloadParses | src/common/utils/index.utils.ts:23-28 | The JSON text of the record parses to exactly that record |
| Json.QuoteRoundTrip | src/common/utils/index.utils.ts:24 | Reading a quoted string gives the string back and leaves what follows |
| Json.QuoteWellFormed | src/common/utils/index.utils.ts:24 | Quoting leaves no lone surrogate for the UTF-8 step to lose |
| Json.QuoteKeepsIffPlain | src/common/utils/index.utils.ts:24 | Quoting leaves a string as it is if and only if it has no control character, quote, backslash or lone surrogate |
| Json.EscapesExact | src/common/utils/index.utils.ts:24 | Which units are escaped, and in which of the two forms |
| Utf8.Utf8RoundTrip | src/common/utils/index.utils.ts:24-28 | UTF-8 decoding inverts encoding on well-formed strings |
| Base64Url.Base64RoundTrip | src/common/utils/index.utils.ts:24-28 | Unpadded base64url inverts on every byte string |
| Base64Url.SpareBitsZero | src/common/utils/index.utils.ts:24 | The unused bits of the last sextet are zero |
| IsoDate.ISOFormat | src/common/utils/index.utils.ts:23 | The ISO string's format: four-digit years from 0 to 9999, a sign and six digits otherwise, then digits and separators each in its place |
| IsoDate.ISORoundTrip | src/common/utils/index.utils.ts:23 | The ISO string of every time value reads back as that value, expanded years included, by a reader that accepts nothing but the format |
| IsoDate.ISOInjective | src/common/utils/index.utils.ts:23 | Distinct time values have distinct ISO strings |
| IsoDate.CivilRoundTrip | src/common/utils/index.utils.ts:23 | Calendar fields of a time value give the value back |
| IsoDate.CalendarAdvances | src/common/utils/index.utils.ts:23 | The date arithmetic is the Gregorian calendar: day 0 is 1 January 1970 and each day's date follows the day before's by month lengths and leap years |
| Paging.WalkShowsAll | src/changelogs/changelogs.service.ts:28-53 | For any limit asked for, following `nextPage` from page 1 ends after max(1, totalPages) fetches and shows the whole list once, in order |
| Paging.BackRetraces | src/changelogs/changelogs.service.ts:52 | Following `prevPage` from the last page gives the walk's pages, last to first |
| Paging.ChangelogWalk | src/changelogs/changelogs.service.ts:43-53 | A client that walks a product's changelog sees every changelog of that product, no other, none twice, newest first |
| Paging.PagersAgree | src/products/products.service.ts:33-65 | The product pager gives the changelog pager's page if and only if page >= 1 |
| Paging.PageExact | src/changelogs/changelogs.service.ts:28-65 | For any page and limit asked for, without naming the pager's parts: the page, limit, total and links in the meta, and exactly which rows the page holds |
| Paging.PageCount | src/changelogs/changelogs.service.ts:51 | The page count is the number of pages of that size that the rows fill, the last perhaps in part |
| Paging.TotalExact | src/changelogs/changelogs.service.ts:43-51 | The total is the number of changelogs stored for the product |
| Paging.ProductPageExact | src/products/products.service.ts:33-65 | The product pager answers exactly for pages from 1 on, and then the same holds of its answer |
| Double.CeilExact | src/changelogs/changelogs.service.ts:51 | `Math.ceil` of any nearest double of a quotient is the integer ceiling, however ties are broken, for totals and limits up to 2^53 |
| Double.DivideRounds | src/changelogs/changelogs.service.ts:51 | The division written out is correctly rounded: no double is nearer to the quotient |
| Double.PageCountExact | src/changelogs/changelogs.service.ts:51 | The computed page count is the exact integer ceiling for every total below 2^53 |
| Search.PlainSearchExact | src/products/products.service.ts:43-45 | A search without `%`, `_` and `\` finds exactly the titles that contain it, up to case |
| Search.SearchExactIffPlain | src/products/products.service.ts:43-45 | The filter means "contains, up to case" for every title if and only if the search has none of the three |
| Search.FoundIsFilter | src/products/products.service.ts:43-47 | The rows kept are those the pattern %search% matches, and all rows without a search or with an empty one |
| Search.TotalExact | src/products/products.service.ts:43-48 | The total is the number of stored products that the filter lets through |
| Search.SearchWalk | src/products/products.service.ts:33-65 | Following `nextPage` through a plain search shows every product of the table whose title contains it, no other, and none twice |
| ResponseCache.EarliestAnswerServed | src/common/interceptors/cache.interceptor.ts:8-24 | Every request is answered by the handler's answer to the earliest successful request for its URL, or by its own handler when there was none |
| ResponseCache.HandlersSeeMisses | src/common/interceptors/cache.interceptor.ts:12-23 | The application ends as if only the requests the cache could not answer had been made, without a cache |
| ResponseCache.CacheIsEarliest | src/common/cache/index.cache.ts:1-23 | After any run there is an entry for a URL exactly when it was answered with success, and it is the first such answer |
| ResponseCache.UnnoticedIffIdle | src/common/interceptors/cache.interceptor.ts:8-24 | For every handler and every run, writes included: answers and states are those of the bare handlers if and only if a URL that has succeeded neither changes its answer nor has an effect when asked again |
| ResponseCache.UnnoticedIffConstant | src/common/interceptors/cache.interceptor.ts:8-24 | Agreement of the answers always means that no URL changes its answer after succeeding, and is equivalent to it whenever asking such a URL again has no effect, whatever other requests write |
| ResponseCache.CacheInterceptor.Intercept | src/common/interceptors/cache.interceptor.ts:8-24 | The method against ResponseCache.Serve |

## Left out

- Modules, controllers, decorators, DTO validation, Swagger, CORS, logging, timeouts and response envelopes: no state of their own.
- Argon2, SHA-256, JWT signing and Redis: a hash is an abstract value that verifies exactly its own password, a token its claims.
- TypeORM and PostgreSQL: a table with a UNIQUE or primary key is a map, a repository call one atomic step; uuid columns take any string, so a malformed id is "not found" rather than a query error.
- The SQL of the tenant migrations: `runMigrations` creates the tenant tables in the DataSource's schema, or fails; it fails when the schema does not exist.
- Columns that no branch of a modelled service reads or writes.
- TenantMiddleware's reserved slugs: login is stated for the tenant row of the slug given.
- Logins.LoginExact: runs in which some signup has an empty slug are excluded, as the signup DTO excludes them.
- The last-login update of `login`: not awaited, its errors are swallowed, nothing depends on it.
- `updateFeedback`: its update is not awaited and its DTO has fields that are not columns, so its result is not determined by the code.
- WorkspaceServices.ProductsService.GetProducts: limit < 1 is left out, because the source has no lower clamp and its behaviour is then the database's.
- Paging.ListPage: `(page - 1) * limit` is an exact integer, as it is in doubles for every page below 2^45.
- Paging.ChangelogWalk: the database must list rows of equal `createdAt` in one fixed order and the table must not change during the walk.
- Search.PlainSearchExact: case folding is any idempotent map on single characters that neither makes nor loses a pattern character; foldings that change a string's length are not modelled.
- SignupSafety.SignupAllOrNothing: batches in which no signup that could succeed shares its slug, and no slug naming a schema outside the tenants table; for the rest see SignupRace.SettlesIffUncontended.
- Overlapping cache misses for one schema, and the window between `destroy` and `cache.delete`: connections are modelled in sequence outside signup.
- Faults inside invitation calls: in the interleaved model a call whose request died is one that is never advanced again; whole calls do not fault.
- InvitationClash.StampedIffClashFree: the batch holds no invites, so no row joins the table while it runs.
- Whole calls happen at one instant: the clock does not move between the awaits of one call.
- InvitationAnswers.RevokeThenAccept: no claim about which tenant's invitation is revoked, because the source looks it up by email alone.
- Buffer's reading of malformed base64url and its replacement characters: written as Node does them, but only the round trip is claimed.
- Double.DivideRounds: which of two equally near doubles is taken is not stated; Double.CeilExact holds for either.
- Cursor.DecodeCursor: the JSON reader follows the grammar, but of texts that no cursor holds nothing is proved; numbers keep their text.
- The commented-out cursor pager: not live code.
- ResponseCache.CacheInterceptor.Intercept: requests are served one at a time, and a handler's answer is a single value.
