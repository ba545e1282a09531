# Collectively API gateway: request gatekeeping, in-memory cache and filter resolution

A Dafny model of three pieces of the Collectively API gateway (a Nancy web application
in C#). Each piece is proved against its contract.

- **`ModuleBase`** is the base class of every Nancy module. Given the caller's principal
  and the current request, a route either gets a command handler or a fetch handler, or
  is refused.
  - `For`, `ForModerator`, `ForAdministrator` and `ForOwner` bind a command and authorise
    the caller.
  - `Fetch` and `FetchCollection` do the same for queries.
  - An authenticated command or query gets the caller's id written into its `UserId`.
    The binder is never allowed to fill `UserId` from client input.
  - The helpers are covered too: request binding, the memoised current user id, the
    culture taken from `Accept-Language`, and `FromStream`'s 404.
- **`InMemoryCache`** is the key/value store behind the cache-aside reads. It supports
  add with an optional relative expiry, get and delete. Expiry is lazy: an expired entry
  stays stored, but every read treats it as absent.
- **`FilterResolver`** looks up the post-fetch filter registered for a (result type,
  query type) pair. When nothing is registered, it falls back to the empty filter.

Files:

- `wrappers.dfy` has `Option` (the source's `Maybe<T>`, and C#'s null), `Outcome` and
  `Result`.
- `strings.dfy` has the string helpers the request pipeline uses: `char.IsWhiteSpace`, the
  `Empty()` extension (`string.IsNullOrWhiteSpace`), `Trim()`, `ToLowerInvariant()` and
  the `TrimToLower()` extension.
- `module_base.dfy` holds module `Modules`: the request context, the command and query
  types, the pure decision functions, and class `ModuleBase`.
- `in_memory_cache.dfy` holds module `Storages`: class `InMemoryCache`.
- `filter_resolver.dfy` holds module `Filters`: `Resolve`.

How the model is built:

- Nancy's ambient `Context` is an explicit `NancyContext` value. It holds the principal
  (`None` when nobody is authenticated) and the request.
- Each command or query type is a `MessageType`. It lists its bindable properties and
  the marker interfaces it implements (`IAuthenticatedCommand`, `IAuthenticatedQuery`,
  `IAuthenticatedPagedQuery`). The source's `as` casts become membership tests on that
  set.
- The source has two exceptions. Nancy's `RequiresAuthentication` early exit becomes the
  error value `Unauthenticated`. The `UnauthorizedAccessException` thrown on a role
  mismatch becomes `Forbidden`.
- `_currentUserId` is a mutable field of class `ModuleBase`. The cache's entries are a
  mutable `map` field of class `InMemoryCache`.
- `ModuleBase.Valid()` is the module invariant: the memo is null, blank, or the name of
  the context's identity. The constructor establishes it and every method keeps it.
- Two inputs are parameters. The request id that `Guid.NewGuid()` would produce is a
  `requestId` argument. The cache's clock is a `now` argument, in ticks.

Facts about the code that the model keeps:

- The `roles` argument of `ForModerator`, `ForAdministrator` and `ForOwner` is ignored.
  Each tier uses a fixed list (ModuleBase.cs:43-50).
- On a forced-auth route the code authenticates the caller whatever the command type is.
  Such a route therefore refuses an unauthenticated caller even for a command that is
  not an `IAuthenticatedCommand`. That command's `UserId` is still not set.
- `For` on a command that is not an `IAuthenticatedCommand` performs no check at all.

## Model

| member | source | states |
|---|---|---|
| `Modules.AnyEquals` | src/Collectively.Api/Modules/ModuleBase.cs:80 | the front-to-back scan for an equal role is true exactly when the role is in the list |
| `Modules.RequiresAuthentication` | src/Collectively.Api/Modules/ModuleBase.cs:74 | authentication passes exactly when there is a principal; otherwise the error is Unauthenticated |
| `Modules.AuthenticateAndValidateRoles` | src/Collectively.Api/Modules/ModuleBase.cs:72-84 | no principal gives Unauthenticated; a null or empty role list needs only a principal; a non-empty list accepts exactly the callers whose role is one of its entries, and rejects the others as Forbidden |
| `Modules.TierAcceptance` | src/Collectively.Api/Modules/ModuleBase.cs:43-50 | the moderator tier accepts exactly {moderator, administrator, owner}, the administrator tier exactly {administrator, owner}, the owner tier exactly {owner}; passing a higher tier implies passing every lower one |
| `Modules.RoleIgnoredWithoutRoleList` | src/Collectively.Api/Modules/ModuleBase.cs:74-78 | with a null or empty role list the caller's role is never looked at: any authenticated caller passes |
| `Modules.BindRequest` | src/Collectively.Api/Modules/ModuleBase.cs:142-145 | an empty body with no query collection gives the default instance; otherwise exactly the supplied values of the type's properties are bound, with their values; `UserId` is never bound and stays null |
| `Modules.DefaultInstance` | src/Collectively.Api/Modules/ModuleBase.cs:144 | `new T()`: an instance of the type with every property at its default and `UserId` null |
| `Modules.UserIdNotBoundFromClient` | src/Collectively.Api/Modules/ModuleBase.cs:145 | whatever value a client sends under `UserId`, the bound command or query is the same as without it |
| `Modules.IdentityName` | src/Collectively.Api/Modules/ModuleBase.cs:153 | the identity's name when there is a principal, null when there is none |
| `Modules.NextUserId` | src/Collectively.Api/Modules/ModuleBase.cs:151-154 | a non-blank memo is kept; a null or blank memo is replaced by the identity's name |
| `Modules.MemoIsStable` | src/Collectively.Api/Modules/ModuleBase.cs:147-157 | reading the current user id a second time yields the same memo as the first read |
| `Modules.Culture` | src/Collectively.Api/Modules/ModuleBase.cs:173-180 | "en-gb" when the first Accept-Language entry is missing or blank, otherwise that entry trimmed and with A-Z lowered; the culture is never blank, is trimmed and has no A-Z letter |
| `Modules.CultureIsStable` | src/Collectively.Api/Modules/ModuleBase.cs:177-179 | a culture the gateway produced, sent back as the only Accept-Language entry, yields itself |
| `Modules.CreateRequest` | src/Collectively.Api/Modules/ModuleBase.cs:183-184 | the envelope carries the given request id, the request's URL path as its origin and the request's culture, which is never blank, trimmed and has no A-Z letter |
| `Modules.FromStream` | src/Collectively.Api/Modules/ModuleBase.cs:160-171 | an absent stream is answered 404 Not Found; a present stream becomes an attachment with the given file name and content type |
| `Modules.ModuleBase.constructor` | src/Collectively.Api/Modules/ModuleBase.cs:29-38 | a new module keeps its request context, and its user-id memo starts out null, so the module invariant holds |
| `Modules.ModuleBase.CurrentUserId` | src/Collectively.Api/Modules/ModuleBase.cs:147-158 | fills the memo from the identity's name when it is null or blank, keeps it otherwise, and returns the memo; the memo is the only state changed; the module invariant (the memo is blank or the identity's name) is kept, so the returned id is always the identity's name |
| `Modules.ModuleBase.HandleRequest` | src/Collectively.Api/Modules/ModuleBase.cs:52-70 | a handler is produced exactly when the caller passes the role check, or when the route does not force authentication and the command is not authenticated; a refusal carries the check's error and leaves the memo alone; a handler on a forced-auth route or for an authenticated command implies a principal; an authenticated command's `UserId` is the memoised current user id; any other command is handed over exactly as bound; the envelope carries the request id, the path and the culture; the module invariant is kept, and a granted authenticated command's `UserId` is the name of the caller's identity |
| `Modules.ModuleBase.For` | src/Collectively.Api/Modules/ModuleBase.cs:40-41 | a command that is not authenticated gets its handler with no check and no state change; an authenticated command gets one exactly when there is a principal (else Unauthenticated, memo untouched); a granted handler carries the request id, path and culture, and an authenticated command's `UserId` is the memoised current user id; the module invariant is kept, and a granted authenticated command's `UserId` is the name of the caller's identity |
| `Modules.ModuleBase.ForModerator` | src/Collectively.Api/Modules/ModuleBase.cs:43-44 | whatever roles are passed, a handler exactly when the caller's role is moderator, administrator or owner; Unauthenticated without a principal, Forbidden otherwise, memo untouched; a granted handler carries the bound command (with the memoised current user id as `UserId` when the command is authenticated) and the request id, path and culture; the module invariant is kept, and a granted authenticated command's `UserId` is the name of the caller's identity |
| `Modules.ModuleBase.ForAdministrator` | src/Collectively.Api/Modules/ModuleBase.cs:46-47 | whatever roles are passed, a handler exactly when the caller's role is administrator or owner; Unauthenticated without a principal, Forbidden otherwise, memo untouched; a granted handler carries the bound command (with the memoised current user id as `UserId` when the command is authenticated) and the request id, path and culture; the module invariant is kept, and a granted authenticated command's `UserId` is the name of the caller's identity |
| `Modules.ModuleBase.ForOwner` | src/Collectively.Api/Modules/ModuleBase.cs:49-50 | whatever roles are passed, a handler exactly when the caller's role is owner; Unauthenticated without a principal, Forbidden otherwise, memo untouched; a granted handler carries the bound command (with the memoised current user id as `UserId` when the command is authenticated) and the request id, path and culture; the module invariant is kept, and a granted authenticated command's `UserId` is the name of the caller's identity |
| `Modules.ModuleBase.Fetch` | src/Collectively.Api/Modules/ModuleBase.cs:109-121 | a query that is not an authenticated query is handed over as bound, with no check and no state change; an authenticated query is refused as Unauthenticated without a principal, and otherwise gets the memoised current user id as its `UserId`; the module invariant is kept, and a granted authenticated query's `UserId` is the name of the caller's identity |
| `Modules.ModuleBase.FetchCollection` | src/Collectively.Api/Modules/ModuleBase.cs:127-140 | the same for paged queries, with `IAuthenticatedPagedQuery` as the capability that demands authentication; the module invariant is kept, and a granted authenticated query's `UserId` is the name of the caller's identity |
| `Strings.IsWhiteSpace` | src/Collectively.Api/Modules/ModuleBase.cs:151 | `char.IsWhiteSpace`: true exactly for space, U+0009..U+000D, U+0085, U+00A0, U+1680, U+2000..U+200A, U+2028, U+2029, U+202F, U+205F and U+3000; the space is white space and no ASCII letter or digit is |
| `Strings.IsNullOrWhiteSpace` | src/Collectively.Api/Modules/ModuleBase.cs:151 | `Empty()` holds exactly for null and for a string that trimming empties; the empty string is empty |
| `Strings.TrimStart` | src/Collectively.Api/Modules/ModuleBase.cs:179 | the result is a suffix of the input; everything dropped is white space; the result does not start with white space |
| `Strings.TrimEnd` | src/Collectively.Api/Modules/ModuleBase.cs:179 | the result is a prefix of the input; everything dropped is white space; the result does not end with white space |
| `Strings.Trim` | src/Collectively.Api/Modules/ModuleBase.cs:179 | the input is white space, then the result, then white space, and the result neither starts nor ends with white space — so exactly the outer white space is removed; empty exactly when the input is blank |
| `Strings.ToLowerChar` | src/Collectively.Api/Modules/ModuleBase.cs:179 | a letter A-Z becomes its lower-case letter (code point + 32); every other character, including a non-ASCII upper-case letter, is kept |
| `Strings.ToLowerInvariant` | src/Collectively.Api/Modules/ModuleBase.cs:179 | keeps the length; each letter A-Z becomes its lower-case letter and every other character is kept; so no A-Z letter is left and white space stays where it was |
| `Strings.TrimToLower` | src/Collectively.Api/Modules/ModuleBase.cs:179 | the result is the input without its outer white space, with A-Z lowered character by character; it is trimmed and has no A-Z letter, and empty exactly when the input is blank |
| `Strings.TrimOfTrimmed` | src/Collectively.Api/Modules/ModuleBase.cs:179 | trimming a string that is already trimmed gives the same string |
| `Strings.TrimToLowerIdempotent` | src/Collectively.Api/Modules/ModuleBase.cs:179 | normalising a normalised culture string changes nothing |
| `Storages.ExpiryIsFinal` | src/Collectively.Api/Storages/InMemoryCache.cs:34 | with the store left alone, a key that reads as absent at one instant reads as absent at every later one, and a value read at one instant was read the same at every earlier one |
| `Storages.InMemoryCache.constructor` | src/Collectively.Api/Storages/InMemoryCache.cs:15-18 | the wrapper starts from the entries the wrapped cache already holds |
| `Storages.InMemoryCache.GetAsync` | src/Collectively.Api/Storages/InMemoryCache.cs:20-21 | returns the live value stored under the key; an absent or expired key gives an empty `Maybe`, not an error; the store is not changed |
| `Storages.InMemoryCache.AddAsync` | src/Collectively.Api/Storages/InMemoryCache.cs:23-36 | stores the value under the key, replacing any earlier entry; without expiry every later read returns it, and with expiry e it is returned before now + e and absent from then on; a non-positive expiry is refused and changes nothing; other keys read as before |
| `Storages.InMemoryCache.DeleteAsync` | src/Collectively.Api/Storages/InMemoryCache.cs:38-43 | afterwards the key reads as absent at every instant; other keys read as before |
| `Filters.Resolve` | src/Collectively.Api/Filters/FilterResolver.cs:16-21 | total over every (result, query) pair: the filter registered for the pair, or the empty filter of that pair when none is registered |
| `Filters.UnregisteredPairIsIdentity` | src/Collectively.Api/Filters/FilterResolver.cs:20 | filtering through a pair with no registration returns the fetched values unchanged |
| `Filters.Apply` | src/Collectively.Api/Filters/FilterResolver.cs:20 | the empty filter returns the fetched values unchanged; a registered filter returns what its component computes |

## Left out

- `ToFile` (ModuleBase.cs:86-107) copies an uploaded stream and Base64-encodes it (section 4 of RFC 4648) with a library call. This is I/O plus a foreign call.
- Content negotiation (`Negotiate`), `StreamResponse` and `AsAttachment` are not modelled. `FromStream` returns a value that names the attachment instead of a Nancy response.
- Serilog logging and the `Task`/`async` plumbing are left out. They do not change any outcome.
- `CreateRequest` takes the request id as a parameter in place of `Guid.NewGuid()`. The envelope carries only the id, the origin path and the culture. `Request.Create<T>` is not part of this model, so any other field it fills is not covered.
- The private `Identity` property (ModuleBase.cs:123-125) is not modelled. No modelled member reads it.
- `CommandRequestHandler`, `FetchRequestHandler`, the command dispatcher and the validator resolver are not part of this model. The model only records what a handler is built from: the command or query, the envelope, the fetch delegate and the URL.
- Nancy's model binder is foreign. Its gathering of body, form, query-string and route values becomes the `values` map of the request. Its type conversion and binding errors are not modelled.
- `Modules.RequiresAuthentication`: Nancy's test of `Identity.IsAuthenticated` is modelled as whether a principal is present.
- `Modules.AuthenticateAndValidateRoles`: the source casts `Context.CurrentUser` to `CollectivelyIdentity`. A principal of another type would make that cast null and throw `NullReferenceException`. The model does not cover this, because every principal here carries a role.
- `Strings.IsNullOrWhiteSpace`: the `Empty()` extension is taken to be `string.IsNullOrWhiteSpace`, and `TrimToLower()` to be `Trim().ToLowerInvariant()`. Those extensions are not part of this model.
- `Modules.Culture`: its input is the list of language names as Nancy's `Headers.AcceptLanguage` enumerates them. Nancy orders the header's entries by quality value, so the first entry is not always the first one written in the header. The model does not parse the header or recompute that order.
- `Strings.ToLowerChar`: only A-Z are lowered. Unicode case mapping is out of scope, so a non-ASCII upper-case letter such as 'Ä' is kept where `char.ToLowerInvariant` gives 'ä'.
- `Strings.ToLowerInvariant`: only A-Z are lowered, because it lowers each character with `Strings.ToLowerChar`.
- `Strings.TrimToLower` and `Modules.Culture`: for the same reason, "has no upper-case letter" holds only for A-Z. A culture such as "Ä" is kept as "Ä", where the source gives "ä".
- The generic constraint `TQuery : IPagedQuery` of `FetchCollection` is checked by the C# compiler. The model does not represent it.
- The interface relation between `IAuthenticatedPagedQuery` and `IAuthenticatedQuery` is not visible in the source. A type's capability set is therefore taken as given.
- `Storages.InMemoryCache.constructor`: the wrapped `IMemoryCache` may be shared with other holders. The model gives each wrapper its own copy of the entries it started from. Writes made through another holder after construction are therefore not seen, and aliasing between wrappers is not modelled.
- `Storages.InMemoryCache.GetAsync`: `MemoryCache` may evict entries at any time under memory pressure or compaction. The model never evicts, so "a read after an add returns the value" holds only when nothing was evicted.
- Several `Microsoft.Extensions.Caching.Memory` behaviours are left out:
  - sliding expiration and eviction callbacks;
  - removal of expired entries during a read, which is not observable through reads;
  - the `Get<T>` cast failing on a value of another type, since the model has one value type;
  - stored null values;
  - overflow of `now + expiry`.
- Refusing a non-positive relative expiry is the caching library's behaviour, not the wrapper's own code. It is kept because it is observable through `AddAsync`. The library throws `ArgumentOutOfRangeException` out of `AddAsync` (InMemoryCache.cs:34); the model returns the error value `Fail(NonPositiveExpiry)` instead, with the store unchanged.
- `Filters.Resolve`: Autofac's resolution rules are not modelled. The registry holds one filter per pair. The behaviour of registered filter components is a parameter of `Filters.Apply`. `EmptyFilter` is not part of this model; it is taken to return its input unchanged.
- The end-to-end HTTP specs, the route tables (`RemarkModule`), `StatisticsStorage`, the storage interfaces and the service bootstrap are not part of this model.
