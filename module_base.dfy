/** The gatekeeping half of the request pipeline: how a route of a Nancy module turns
    the current HTTP request and the caller's principal into a command handler or a
    fetch handler, or into an authentication error.

    The Nancy context (the caller's principal and the request) is an explicit value.
    A command or query type is described by the properties the binder may set and by
    the marker interfaces it implements (its capabilities); a bound command or query is
    a value of that type. */
module Modules {
  import opened Wrappers
  import opened Strings

  /** The authenticated identity: its `Identity.Name` (the user id) and its role. */
  datatype Principal = Principal(name: string, role: string)

  datatype Url = Url(siteBase: string, path: string, query: string)

  /** What the gatekeeping reads of a request: the length of the body, whether a query
      collection is present, the values the model binder finds (body, form, query string
      and route parameters, by property name), the URL, and the language names of
      Nancy's `Headers.AcceptLanguage` in the order that property enumerates them
      (Nancy orders the header's entries by quality value, which this model does not
      recompute). */
  datatype HttpRequest = HttpRequest(
    bodyLength: nat,
    hasQuery: bool,
    values: map<string, string>,
    url: Url,
    acceptLanguage: seq<string>)

  /** `Context.CurrentUser` (None when nobody is authenticated) and `Request`. */
  datatype NancyContext = NancyContext(currentUser: Option<Principal>, request: HttpRequest)

  /** `RequiresAuthentication` fails with Unauthenticated; the
      `UnauthorizedAccessException` of a role mismatch becomes Forbidden. */
  datatype AuthError = Unauthenticated | Forbidden

  /** The marker interfaces `IAuthenticatedCommand`, `IAuthenticatedQuery` and
      `IAuthenticatedPagedQuery`. */
  datatype Capability = AuthenticatedCommand | AuthenticatedQuery | AuthenticatedPagedQuery

  /** A command or query type: its name, its bindable properties and the marker
      interfaces it can be cast to. */
  datatype MessageType = MessageType(name: string, properties: set<string>, capabilities: set<Capability>)

  /** An instance of a command or query type. `fields` holds the properties that differ
      from the type's defaults; `userId` is the `UserId` property of the authenticated
      variants (None is C#'s null). */
  datatype Message = Message(typ: MessageType, fields: map<string, string>, userId: Option<string>)

  /** A request id as produced by `Guid.NewGuid()`. */
  newtype Guid = x: int | 0 <= x < 0x1_0000_0000_0000_0000_0000_0000_0000_0000

  /** The `Request` envelope a command carries: its id, the originating path and the culture. */
  datatype RequestEnvelope = RequestEnvelope(id: Guid, origin: string, culture: string)

  /** What a `CommandRequestHandler<T>` is built from (besides the dispatcher, the
      validator resolver and the negotiator, which are passed through untouched). */
  datatype CommandHandler = CommandHandler(command: Message, request: RequestEnvelope)

  /** What a `FetchRequestHandler<TQuery, TResult>` is built from; `fetch` is the route's
      fetch delegate, carried along unchanged. */
  datatype FetchHandler<F> = FetchHandler(query: Message, fetch: F, url: Url)

  /** The response of `FromStream`: 404 Not Found, or the stream as a file attachment. */
  datatype StreamResponse<S> = NotFound | Attachment(stream: S, fileName: string, contentType: string)

  /** The property the binder never fills from the client. */
  const UserIdProperty: string := "UserId"

  const DefaultCulture: string := "en-gb"

  /** The role lists of the three privileged route tiers. */
  const ModeratorRoles: seq<string> := ["moderator", "administrator", "owner"]
  const AdministratorRoles: seq<string> := ["administrator", "owner"]
  const OwnerRoles: seq<string> := ["owner"]

  /** `roles.Any(x => x == role)`: scans the list from the front for an exact match. */
  function AnyEquals(roles: seq<string>, role: string): (r: bool)
    ensures r <==> role in roles
  {
    |roles| > 0 && (roles[0] == role || AnyEquals(roles[1..], role))
  }

  /** Nancy's `RequiresAuthentication`: passes exactly when someone is authenticated. */
  function RequiresAuthentication(user: Option<Principal>): (r: Outcome<AuthError>)
    ensures r.Pass? <==> user.Some?
    ensures r.Fail? ==> r.error == Unauthenticated
  {
    if user.Some? then Pass else Fail(Unauthenticated)
  }

  /** `AuthenticateAndValidateRoles`: the caller must be authenticated; a null or empty
      role list asks for nothing more, any other list asks for the caller's role to be
      one of its entries, compared as exact strings. */
  function AuthenticateAndValidateRoles(user: Option<Principal>, roles: Option<seq<string>>): (r: Outcome<AuthError>)
    ensures user.None? ==> r == Fail(Unauthenticated)
    ensures roles.None? || |roles.value| == 0 ==> (r.Pass? <==> user.Some?)
    ensures user.Some? && roles.Some? && |roles.value| > 0 ==>
              (r.Pass? <==> user.value.role in roles.value) && (r.Fail? ==> r.error == Forbidden)
  {
    match RequiresAuthentication(user)
    case Fail(e) => Fail(e)
    case Pass =>
      if roles.None? || |roles.value| == 0 then Pass
      else if !AnyEquals(roles.value, user.value.role) then Fail(Forbidden)
      else Pass
  }

  /** Each tier accepts exactly its listed roles, by exact string membership, and the
      lists are nested: whoever passes a higher tier passes every lower one. */
  lemma TierAcceptance(user: Option<Principal>)
    ensures AuthenticateAndValidateRoles(user, Some(ModeratorRoles)).Pass? <==>
              user.Some? && user.value.role in {"moderator", "administrator", "owner"}
    ensures AuthenticateAndValidateRoles(user, Some(AdministratorRoles)).Pass? <==>
              user.Some? && user.value.role in {"administrator", "owner"}
    ensures AuthenticateAndValidateRoles(user, Some(OwnerRoles)).Pass? <==>
              user.Some? && user.value.role == "owner"
    ensures AuthenticateAndValidateRoles(user, Some(OwnerRoles)).Pass? ==>
              AuthenticateAndValidateRoles(user, Some(AdministratorRoles)).Pass?
    ensures AuthenticateAndValidateRoles(user, Some(AdministratorRoles)).Pass? ==>
              AuthenticateAndValidateRoles(user, Some(ModeratorRoles)).Pass?
  {
  }

  /** With no required roles only authentication matters: two callers who differ only
      in their role get the same answer. */
  lemma RoleIgnoredWithoutRoleList(name: string, role1: string, role2: string, roles: Option<seq<string>>)
    requires roles.None? || |roles.value| == 0
    ensures AuthenticateAndValidateRoles(Some(Principal(name, role1)), roles)
         == AuthenticateAndValidateRoles(Some(Principal(name, role2)), roles)
         == Pass
  {
  }

  /** `new T()`: every property at its default, `UserId` null. */
  function DefaultInstance(typ: MessageType): (m: Message)
    ensures m.typ == typ && m.userId.None?
    ensures forall k :: k !in m.fields
  {
    Message(typ, map[], None)
  }

  /** `BindRequest<T>`: an empty body with no query collection gives the default
      instance; otherwise the binder copies every property value the request supplies,
      except the blacklisted `UserId`. */
  function BindRequest(typ: MessageType, request: HttpRequest): (m: Message)
    ensures m.typ == typ && m.userId.None? && UserIdProperty !in m.fields
    ensures request.bodyLength == 0 && !request.hasQuery ==> m == DefaultInstance(typ)
    ensures !(request.bodyLength == 0 && !request.hasQuery) ==>
              forall k :: k in m.fields <==> k in request.values && k in typ.properties && k != UserIdProperty
    ensures forall k :: k in m.fields ==> k in request.values && m.fields[k] == request.values[k]
  {
    if request.bodyLength == 0 && !request.hasQuery then DefaultInstance(typ)
    else Message(typ, map k | k in request.values && k in typ.properties && k != UserIdProperty :: request.values[k], None)
  }

  /** A client cannot choose the bound `UserId`: whatever it sends under that name, the
      bound command or query is the same. */
  lemma {:induction false} UserIdNotBoundFromClient(typ: MessageType, request: HttpRequest, sent: string)
    ensures BindRequest(typ, request.(values := request.values[UserIdProperty := sent]))
         == BindRequest(typ, request)
  {
  }

  /** The id of the authenticated identity, `Context.CurrentUser?.Identity?.Name`. */
  function IdentityName(user: Option<Principal>): (r: Option<string>)
    ensures r.Some? <==> user.Some?
    ensures user.Some? ==> r.value == user.value.name
  {
    if user.Some? then Some(user.value.name) else None
  }

  /** The memoised user id after one read of `CurrentUserId`: an empty memo is refilled
      from the identity, a non-empty one is kept. */
  function NextUserId(memo: Option<string>, user: Option<Principal>): (r: Option<string>)
    ensures !IsNullOrWhiteSpace(memo) ==> r == memo
    ensures IsNullOrWhiteSpace(memo) ==> r == IdentityName(user)
  {
    if IsNullOrWhiteSpace(memo) then IdentityName(user) else memo
  }

  /** Reading `CurrentUserId` again changes nothing: the memo is stable. */
  lemma MemoIsStable(memo: Option<string>, user: Option<Principal>)
    ensures NextUserId(NextUserId(memo, user), user) == NextUserId(memo, user)
  {
  }

  /** `Culture`: the first `Accept-Language` entry, trimmed and with A-Z lowered, or "en-gb"
      when there is none or it is blank. The result is never blank and is normalised. */
  function Culture(acceptLanguage: seq<string>): (r: string)
    ensures |acceptLanguage| == 0 || IsBlank(acceptLanguage[0]) ==> r == DefaultCulture
    ensures |acceptLanguage| > 0 && !IsBlank(acceptLanguage[0]) ==> r == TrimToLower(acceptLanguage[0])
    ensures !IsBlank(r) && IsTrimmed(r) && IsLowerCase(r)
  {
    var culture := if |acceptLanguage| == 0 then None else Some(acceptLanguage[0]);
    if IsNullOrWhiteSpace(culture) then
      assert !IsWhiteSpace(DefaultCulture[0]);
      DefaultCulture
    else
      TrimToLower(culture.value)
  }

  /** A culture the gateway produced is a fixed point: sent back as the only
      `Accept-Language` entry, it yields itself. */
  lemma {:induction false} CultureIsStable(acceptLanguage: seq<string>)
    ensures Culture([Culture(acceptLanguage)]) == Culture(acceptLanguage)
  {
    var c := Culture(acceptLanguage);
    TrimOfTrimmed(c);
    assert TrimToLower(c) == c;
  }

  /** The `Request` envelope of `CreateRequest<T>`, for a request id supplied by the caller. */
  function CreateRequest(requestId: Guid, request: HttpRequest): (e: RequestEnvelope)
    ensures e.id == requestId && e.origin == request.url.path && e.culture == Culture(request.acceptLanguage)
    ensures !IsBlank(e.culture) && IsTrimmed(e.culture) && IsLowerCase(e.culture)
  {
    RequestEnvelope(requestId, request.url.path, Culture(request.acceptLanguage))
  }

  /** `FromStream`: an absent stream is 404 Not Found, a present one is returned as an
      attachment with the given file name and content type. */
  function FromStream<S>(stream: Option<S>, fileName: string, contentType: string): (r: StreamResponse<S>)
    ensures r.NotFound? <==> stream.None?
    ensures r.Attachment? ==> r == Attachment(stream.value, fileName, contentType)
  {
    match stream
    case None => NotFound
    case Some(s) => Attachment(s, fileName, contentType)
  }

  /** A Nancy module: a request-scoped context and the memoised `_currentUserId`. */
  class ModuleBase {
    const context: NancyContext
    var currentUserId: Option<string>

    /** The memo is empty or holds the id of this context's identity: it is only ever
        filled from `Context.CurrentUser`. */
    ghost predicate Valid()
      reads this
    {
      IsNullOrWhiteSpace(currentUserId) || currentUserId == IdentityName(context.currentUser)
    }

    constructor (context: NancyContext)
      ensures this.context == context && currentUserId == None
      ensures Valid()
    {
      this.context := context;
      currentUserId := None;
    }

    /** `CurrentUserId`: fills the memo from the identity when it is null or blank, then
        returns it. */
    method CurrentUserId() returns (id: Option<string>)
      requires Valid()
      modifies this`currentUserId
      ensures Valid()
      ensures currentUserId == NextUserId(old(currentUserId), context.currentUser)
      ensures id == currentUserId
      ensures id == IdentityName(context.currentUser)
    {
      if IsNullOrWhiteSpace(currentUserId) {
        currentUserId := IdentityName(context.currentUser);
      }
      id := currentUserId;
    }

    /** The handler `h` is what a granted command route hands over, given the memo
        `memo` before the call: the envelope carries the request id, the path and the
        culture; an authenticated command carries the memoised current user id (the memo
        now being `NextUserId` of the old one); any other command is exactly as bound and
        the memo is untouched. */
    ghost predicate HandedOver(h: CommandHandler, typ: MessageType, requestId: Guid, memo: Option<string>)
      reads this
    {
      && h.request == CreateRequest(requestId, context.request)
      && if AuthenticatedCommand in typ.capabilities then
           && currentUserId == NextUserId(memo, context.currentUser)
           && h.command == BindRequest(typ, context.request).(userId := currentUserId)
         else
           && currentUserId == memo
           && h.command == BindRequest(typ, context.request)
    }

    /** `HandleRequest<T>`: binds the command; a forced-auth route checks the caller
        first; an authenticated command is checked (again) and gets the caller's id as
        its `UserId`; any other command is handed over as bound. */
    method HandleRequest(typ: MessageType, forceAuth: bool, roles: Option<seq<string>>, requestId: Guid)
      returns (r: Result<CommandHandler, AuthError>)
      requires Valid()
      modifies this`currentUserId
      ensures Valid()
      ensures var auth := AuthenticateAndValidateRoles(context.currentUser, roles);
              && (r.Success? <==> auth.Pass? || (!forceAuth && AuthenticatedCommand !in typ.capabilities))
              && (r.Failure? ==> auth.Fail? && r.error == auth.error && currentUserId == old(currentUserId))
      ensures r.Success? && (forceAuth || AuthenticatedCommand in typ.capabilities) ==> context.currentUser.Some?
      ensures r.Success? ==> HandedOver(r.value, typ, requestId, old(currentUserId))
      ensures r.Success? && AuthenticatedCommand in typ.capabilities ==>
                r.value.command.userId == IdentityName(context.currentUser)
    {
      var command := BindRequest(typ, context.request);
      if forceAuth {
        var auth := AuthenticateAndValidateRoles(context.currentUser, roles);
        if auth.Fail? {
          return Failure(auth.error);
        }
      }
      if AuthenticatedCommand !in typ.capabilities {
        return Success(CommandHandler(command, CreateRequest(requestId, context.request)));
      }
      var auth := AuthenticateAndValidateRoles(context.currentUser, roles);
      if auth.Fail? {
        return Failure(auth.error);
      }
      var userId := CurrentUserId();
      command := command.(userId := userId);
      return Success(CommandHandler(command, CreateRequest(requestId, context.request)));
    }

    /** `For<T>`: no forced authentication and an empty role list, so a plain command is
        handed over without any check and an authenticated one only needs a caller. */
    method For(typ: MessageType, requestId: Guid) returns (r: Result<CommandHandler, AuthError>)
      requires Valid()
      modifies this`currentUserId
      ensures Valid()
      ensures AuthenticatedCommand !in typ.capabilities ==>
                && r == Success(CommandHandler(BindRequest(typ, context.request), CreateRequest(requestId, context.request)))
                && currentUserId == old(currentUserId)
      ensures AuthenticatedCommand in typ.capabilities ==>
                && (r.Success? <==> context.currentUser.Some?)
                && (r.Failure? ==> r.error == Unauthenticated)
      ensures r.Failure? ==> currentUserId == old(currentUserId)
      ensures r.Success? ==> HandedOver(r.value, typ, requestId, old(currentUserId))
      ensures r.Success? && AuthenticatedCommand in typ.capabilities ==>
                r.value.command.userId == IdentityName(context.currentUser)
    {
      r := HandleRequest(typ, false, Some([]), requestId);
    }

    /** `ForModerator<T>`: the `roles` argument is ignored; the caller's role must be
        moderator, administrator or owner. */
    method ForModerator(typ: MessageType, roles: Option<seq<string>>, requestId: Guid)
      returns (r: Result<CommandHandler, AuthError>)
      requires Valid()
      modifies this`currentUserId
      ensures Valid()
      ensures r.Success? <==> context.currentUser.Some? && context.currentUser.value.role in {"moderator", "administrator", "owner"}
      ensures r.Failure? ==> r.error == (if context.currentUser.None? then Unauthenticated else Forbidden)
      ensures r.Failure? ==> currentUserId == old(currentUserId)
      ensures r.Success? ==> HandedOver(r.value, typ, requestId, old(currentUserId))
      ensures r.Success? && AuthenticatedCommand in typ.capabilities ==>
                r.value.command.userId == IdentityName(context.currentUser)
    {
      r := HandleRequest(typ, true, Some(ModeratorRoles), requestId);
    }

    /** `ForAdministrator<T>`: the `roles` argument is ignored; the caller's role must be
        administrator or owner. */
    method ForAdministrator(typ: MessageType, roles: Option<seq<string>>, requestId: Guid)
      returns (r: Result<CommandHandler, AuthError>)
      requires Valid()
      modifies this`currentUserId
      ensures Valid()
      ensures r.Success? <==> context.currentUser.Some? && context.currentUser.value.role in {"administrator", "owner"}
      ensures r.Failure? ==> r.error == (if context.currentUser.None? then Unauthenticated else Forbidden)
      ensures r.Failure? ==> currentUserId == old(currentUserId)
      ensures r.Success? ==> HandedOver(r.value, typ, requestId, old(currentUserId))
      ensures r.Success? && AuthenticatedCommand in typ.capabilities ==>
                r.value.command.userId == IdentityName(context.currentUser)
    {
      r := HandleRequest(typ, true, Some(AdministratorRoles), requestId);
    }

    /** `ForOwner<T>`: the `roles` argument is ignored; the caller's role must be owner. */
    method ForOwner(typ: MessageType, roles: Option<seq<string>>, requestId: Guid)
      returns (r: Result<CommandHandler, AuthError>)
      requires Valid()
      modifies this`currentUserId
      ensures Valid()
      ensures r.Success? <==> context.currentUser.Some? && context.currentUser.value.role == "owner"
      ensures r.Failure? ==> r.error == (if context.currentUser.None? then Unauthenticated else Forbidden)
      ensures r.Failure? ==> currentUserId == old(currentUserId)
      ensures r.Success? ==> HandedOver(r.value, typ, requestId, old(currentUserId))
      ensures r.Success? && AuthenticatedCommand in typ.capabilities ==>
                r.value.command.userId == IdentityName(context.currentUser)
    {
      r := HandleRequest(typ, true, Some(OwnerRoles), requestId);
    }

    /** `Fetch<TQuery, TResult>`: a query that is not an `IAuthenticatedQuery` is handed
        over as bound, without any check; an authenticated query needs a caller and gets
        the caller's id as its `UserId`. */
    method Fetch<F>(typ: MessageType, fetch: F) returns (r: Result<FetchHandler<F>, AuthError>)
      requires Valid()
      modifies this`currentUserId
      ensures Valid()
      ensures AuthenticatedQuery !in typ.capabilities ==>
                && r == Success(FetchHandler(BindRequest(typ, context.request), fetch, context.request.url))
                && currentUserId == old(currentUserId)
      ensures AuthenticatedQuery in typ.capabilities && context.currentUser.None? ==>
                r == Failure(Unauthenticated) && currentUserId == old(currentUserId)
      ensures AuthenticatedQuery in typ.capabilities && context.currentUser.Some? ==>
                && currentUserId == NextUserId(old(currentUserId), context.currentUser)
                && r == Success(FetchHandler(BindRequest(typ, context.request).(userId := currentUserId), fetch, context.request.url))
      ensures r.Success? && AuthenticatedQuery in typ.capabilities ==>
                r.value.query.userId == IdentityName(context.currentUser)
    {
      var query := BindRequest(typ, context.request);
      if AuthenticatedQuery !in typ.capabilities {
        return Success(FetchHandler(query, fetch, context.request.url));
      }
      var auth := RequiresAuthentication(context.currentUser);
      if auth.Fail? {
        return Failure(auth.error);
      }
      var userId := CurrentUserId();
      query := query.(userId := userId);
      return Success(FetchHandler(query, fetch, context.request.url));
    }

    /** `FetchCollection<TQuery, TResult>`: as `Fetch`, but the capability that asks for
        authentication is `IAuthenticatedPagedQuery`. */
    method FetchCollection<F>(typ: MessageType, fetch: F) returns (r: Result<FetchHandler<F>, AuthError>)
      requires Valid()
      modifies this`currentUserId
      ensures Valid()
      ensures AuthenticatedPagedQuery !in typ.capabilities ==>
                && r == Success(FetchHandler(BindRequest(typ, context.request), fetch, context.request.url))
                && currentUserId == old(currentUserId)
      ensures AuthenticatedPagedQuery in typ.capabilities && context.currentUser.None? ==>
                r == Failure(Unauthenticated) && currentUserId == old(currentUserId)
      ensures AuthenticatedPagedQuery in typ.capabilities && context.currentUser.Some? ==>
                && currentUserId == NextUserId(old(currentUserId), context.currentUser)
                && r == Success(FetchHandler(BindRequest(typ, context.request).(userId := currentUserId), fetch, context.request.url))
      ensures r.Success? && AuthenticatedPagedQuery in typ.capabilities ==>
                r.value.query.userId == IdentityName(context.currentUser)
    {
      var query := BindRequest(typ, context.request);
      if AuthenticatedPagedQuery !in typ.capabilities {
        return Success(FetchHandler(query, fetch, context.request.url));
      }
      var auth := RequiresAuthentication(context.currentUser);
      if auth.Fail? {
        return Failure(auth.error);
      }
      var userId := CurrentUserId();
      query := query.(userId := userId);
      return Success(FetchHandler(query, fetch, context.request.url));
    }
  }
}
