/**
 * The server's bearer-token filter: which requests it lets through without
 * looking at them, and for the others how the `Authorization` header decides
 * the request's security context before the request continues down the
 * filter chain. Token validation, reading the user name out of a token and
 * loading the user are collaborators whose answers are parameters.
 */
module Jwt {
  import opened Wrappers
  import opened Text

  /** The scheme prefix of a bearer credential, matched case-sensitively. */
  const BEARER_PREFIX: string := "Bearer "

  /** `shouldNotFilter`: preflight requests, uploads, the login endpoints, the API docs, the root and the health check. */
  predicate ShouldNotFilter(httpMethod: string, path: string)
  {
    || EqualsIgnoreCase(httpMethod, "OPTIONS")
    || StartsWith(path, "/uploads/")
    || StartsWith(path, "/api/auth/")
    || StartsWith(path, "/swagger-ui")
    || StartsWith(path, "/v3/api-docs")
    || path == "/"
    || path == "/health"
  }

  /** A preflight request is skipped whatever its path, the method spelled in any letter case. */
  lemma PreflightSkipped(httpMethod: string, path: string)
    requires |httpMethod| == 7 && forall i :: 0 <= i < 7 ==> UpperAscii(httpMethod[i]) == "OPTIONS"[i]
    ensures ShouldNotFilter(httpMethod, path)
  {
    assert forall i :: 0 <= i < 7 ==> UpperAscii("OPTIONS"[i]) == "OPTIONS"[i];
  }

  /** Every request under `/uploads/`, `/api/auth/`, `/swagger-ui` or `/v3/api-docs` is skipped. */
  lemma PublicPrefixesSkipped(httpMethod: string, rest: string)
    ensures ShouldNotFilter(httpMethod, "/uploads/" + rest)
    ensures ShouldNotFilter(httpMethod, "/api/auth/" + rest)
    ensures ShouldNotFilter(httpMethod, "/swagger-ui" + rest)
    ensures ShouldNotFilter(httpMethod, "/v3/api-docs" + rest)
  {
    assert ("/uploads/" + rest)[..9] == "/uploads/";
    assert ("/api/auth/" + rest)[..10] == "/api/auth/";
    assert ("/swagger-ui" + rest)[..11] == "/swagger-ui";
    assert ("/v3/api-docs" + rest)[..12] == "/v3/api-docs";
  }

  /** The root and the health check are matched exactly: both are skipped, a path below the health check is not. */
  lemma ExactPathsSkipped(httpMethod: string, rest: string)
    requires !EqualsIgnoreCase(httpMethod, "OPTIONS") && rest != ""
    ensures ShouldNotFilter(httpMethod, "/") && ShouldNotFilter(httpMethod, "/health")
    ensures !ShouldNotFilter(httpMethod, "/health/" + rest)
  {
    var p := "/health/" + rest;
    assert p[1] == 'h' && |p| > 8;
    assert !StartsWith(p, "/api/auth/") by {
      assert p[1] != "/api/auth/"[1];
    }
    assert !StartsWith(p, "/uploads/") by {
      assert p[1] != "/uploads/"[1];
    }
    assert !StartsWith(p, "/swagger-ui") by {
      assert p[1] != "/swagger-ui"[1];
    }
    assert !StartsWith(p, "/v3/api-docs") by {
      assert p[1] != "/v3/api-docs"[1];
    }
  }

  /** A path `/api/` + rest lies under `/api/auth/` only when rest starts with `auth/`. */
  lemma AuthPrefixOfRest(rest: string)
    ensures StartsWith("/api/" + rest, "/api/auth/") ==> StartsWith(rest, "auth/")
  {
    var p := "/api/" + rest;
    if StartsWith(p, "/api/auth/") {
      assert forall i :: 0 <= i < 5 ==> rest[i] == p[5 + i] == "/api/auth/"[5 + i];
      assert rest[..5] == "auth/";
    }
  }

  /**
   * Any request under `/api/` outside `/api/auth/`, with a method other than
   * OPTIONS, goes through the filter; the PDF export is one of them.
   */
  lemma ApiPathsFiltered(httpMethod: string, rest: string)
    requires !EqualsIgnoreCase(httpMethod, "OPTIONS") && !StartsWith(rest, "auth/")
    ensures !ShouldNotFilter(httpMethod, "/api/" + rest)
  {
    var p := "/api/" + rest;
    assert p[1] == 'a' && |p| >= 5;
    AuthPrefixOfRest(rest);
    assert !StartsWith(p, "/uploads/") by {
      assert p[1] != "/uploads/"[1];
    }
    assert !StartsWith(p, "/swagger-ui") by {
      assert p[1] != "/swagger-ui"[1];
    }
    assert !StartsWith(p, "/v3/api-docs") by {
      assert p[1] != "/v3/api-docs"[1];
    }
    assert p != "/health" by {
      assert p[1] != "/health"[1];
    }
  }

  /** The credential of an `Authorization` header: what follows `Bearer `, when the header is there and starts with it. */
  function BearerToken(header: Option<string>): (token: Option<string>)
    ensures token.Some? <==> header.Some? && StartsWith(header.value, BEARER_PREFIX)
    ensures token.Some? ==> header.value == BEARER_PREFIX + token.value
  {
    if header.Some? && StartsWith(header.value, BEARER_PREFIX) then
      assert header.value == header.value[..7] + header.value[7..];
      Some(header.value[7..])
    else None
  }

  /** A header built from the prefix and a token gives that token back. */
  lemma BearerTokenRoundTrip(token: string)
    ensures BearerToken(Some(BEARER_PREFIX + token)) == Some(token)
  {
    assert (BEARER_PREFIX + token)[..7] == BEARER_PREFIX;
    assert (BEARER_PREFIX + token)[7..] == token;
  }

  /** The scheme is matched case-sensitively: a lower-case `bearer` is not a bearer header. */
  lemma LowerCaseSchemeIgnored(token: string)
    ensures BearerToken(Some("bearer " + token)).None?
  {
    assert ("bearer " + token)[0] != BEARER_PREFIX[0];
  }

  /** The answer of a collaborator: a value, or an exception. */
  datatype Outcome<T> = Returns(value: T) | Throws

  /** A loaded user: the name and the granted authorities. */
  datatype UserDetails = UserDetails(username: string, authorities: seq<string>)

  /** `UsernamePasswordAuthenticationToken(userDetails, null, authorities)`; the credentials are always null. */
  datatype Authentication = Authentication(principal: UserDetails, authorities: seq<string>)

  /** What a request does to the security context. */
  datatype ContextChange = Untouched | SetAuth(auth: Authentication) | Clear

  /** The collaborators: `validateToken`, `getUsernameFromToken` and `loadUserByUsername`. */
  datatype Collaborators = Collaborators(
    validate: string -> Outcome<bool>,
    usernameOf: string -> Outcome<string>,
    loadUser: string -> Outcome<UserDetails>)

  /** The user a token authenticates: the token validates, names a user, and that user loads. */
  function AuthenticatedUser(token: string, c: Collaborators): Option<UserDetails>
  {
    match (c.validate(token), c.usernameOf(token))
    case (Returns(true), Returns(name)) =>
      (match c.loadUser(name)
       case Returns(user) => Some(user)
       case Throws => None)
    case _ => None
  }

  /**
   * The decision `doFilterInternal` makes: no bearer header leaves the
   * context alone; a token that authenticates a user sets an authentication
   * for that user with the user's authorities; a token that fails to
   * validate, or any exception on the way, clears the context.
   */
  function Decide(header: Option<string>, c: Collaborators): (change: ContextChange)
    ensures BearerToken(header).None? <==> change == Untouched
    ensures change.SetAuth? <==>
      BearerToken(header).Some? && AuthenticatedUser(BearerToken(header).value, c).Some?
    ensures change.SetAuth? ==>
      var user := AuthenticatedUser(BearerToken(header).value, c).value;
      change.auth.principal == user && change.auth.authorities == user.authorities
    ensures change == Clear <==>
      BearerToken(header).Some? && AuthenticatedUser(BearerToken(header).value, c).None?
  {
    match BearerToken(header)
    case None => Untouched
    case Some(token) =>
      match c.validate(token)
      case Returns(true) =>
        (match c.usernameOf(token)
         case Returns(name) =>
           (match c.loadUser(name)
            case Returns(user) => SetAuth(Authentication(user, user.authorities))
            case Throws => Clear)
         case Throws => Clear)
      case Returns(false) => Clear
      case Throws => Clear
  }

  /** A token that does not validate clears the context whoever it names. */
  lemma InvalidTokenClears(token: string, c: Collaborators)
    requires c.validate(token) == Returns(false)
    ensures Decide(Some(BEARER_PREFIX + token), c) == Clear
  {
    BearerTokenRoundTrip(token);
  }

  /** A request as the filter sees it. */
  datatype Request = Request(httpMethod: string, servletPath: string, authorization: Option<string>)

  /** The holder's security context for the current request. */
  class SecurityContext {
    var authentication: Option<Authentication>

    constructor (authentication: Option<Authentication>)
      ensures this.authentication == authentication
    {
      this.authentication := authentication;
    }

    /** `setAuthentication`. */
    method SetAuthentication(auth: Authentication)
      modifies this
      ensures authentication == Some(auth)
    {
      authentication := Some(auth);
    }

    /** `SecurityContextHolder.clearContext()`: the request is left unauthenticated. */
    method ClearContext()
      modifies this
      ensures authentication.None?
    {
      authentication := None;
    }
  }

  /** The rest of the filter chain; it records the requests handed on to it. */
  class FilterChain {
    var forwarded: seq<Request>

    constructor ()
      ensures forwarded == []
    {
      forwarded := [];
    }

    /** `filterChain.doFilter(request, response)`. */
    method DoFilter(request: Request)
      modifies this
      ensures forwarded == old(forwarded) + [request]
    {
      forwarded := forwarded + [request];
    }
  }

  /** The context after a change is applied. */
  function Apply(change: ContextChange, before: Option<Authentication>): (after: Option<Authentication>)
    ensures change == Untouched ==> after == before
    ensures change.SetAuth? ==> after == Some(change.auth)
    ensures change == Clear ==> after.None?
  {
    match change
    case Untouched => before
    case SetAuth(auth) => Some(auth)
    case Clear => None
  }

  class JwtAuthenticationFilter {
    const collaborators: Collaborators

    constructor (collaborators: Collaborators)
      ensures this.collaborators == collaborators
    {
      this.collaborators := collaborators;
    }

    /**
     * `doFilterInternal`: settle the context from the `Authorization` header,
     * then hand the request on to the chain exactly once, on every path.
     */
    method DoFilterInternal(request: Request, chain: FilterChain, context: SecurityContext)
      modifies chain, context
      ensures chain.forwarded == old(chain.forwarded) + [request]
      ensures context.authentication == Apply(Decide(request.authorization, collaborators), old(context.authentication))
    {
      var header := request.authorization;
      if header.None? || !StartsWith(header.value, BEARER_PREFIX) {
        chain.DoFilter(request);
        return;
      }
      var token := header.value[7..];
      var valid := collaborators.validate(token);
      if valid == Returns(true) {
        var name := collaborators.usernameOf(token);
        if name.Throws? {
          context.ClearContext();
        } else {
          var user := collaborators.loadUser(name.value);
          if user.Throws? {
            context.ClearContext();
          } else {
            context.SetAuthentication(Authentication(user.value, user.value.authorities));
          }
        }
      } else {
        context.ClearContext();
      }
      chain.DoFilter(request);
    }

    /**
     * The request's trip through the filter: a request `shouldNotFilter`
     * picks out goes straight on with its context untouched, any other goes
     * through `doFilterInternal`.
     */
    method Handle(request: Request, chain: FilterChain, context: SecurityContext)
      modifies chain, context
      ensures chain.forwarded == old(chain.forwarded) + [request]
      ensures ShouldNotFilter(request.httpMethod, request.servletPath) ==>
        context.authentication == old(context.authentication)
      ensures !ShouldNotFilter(request.httpMethod, request.servletPath) ==>
        context.authentication == Apply(Decide(request.authorization, collaborators), old(context.authentication))
    {
      if ShouldNotFilter(request.httpMethod, request.servletPath) {
        chain.DoFilter(request);
      } else {
        DoFilterInternal(request, chain, context);
      }
    }
  }
}
