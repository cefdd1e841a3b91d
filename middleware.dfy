/**
 * internal/middleware/middleware.go: the HTTP middleware chain of the admin
 * API. CORS answers preflight requests itself, authentication demands a
 * Bearer token, the admin gate demands the admin role, and a per-IP sliding
 * window limits the request rate.
 */
module Middleware {
  import opened Common
  import opened Http

  // ---------------------------------------------------------------------
  // CORS

  const AllowOrigin := "*"
  const AllowMethods := "GET, POST, PUT, DELETE, OPTIONS"
  const AllowHeaders := "Content-Type, Authorization"
  const MaxAge := "86400"

  /** The four CORS headers every response carries. */
  function CorsHeaders(h: Header): (r: Header)
    ensures r.Keys == h.Keys + {"Access-Control-Allow-Origin", "Access-Control-Allow-Methods",
                               "Access-Control-Allow-Headers", "Access-Control-Max-Age"}
    ensures r["Access-Control-Allow-Origin"] == [AllowOrigin] && r["Access-Control-Max-Age"] == [MaxAge]
    ensures r["Access-Control-Allow-Methods"] == [AllowMethods] && r["Access-Control-Allow-Headers"] == [AllowHeaders]
    ensures forall k :: (k in h && k !in {"Access-Control-Allow-Origin", "Access-Control-Allow-Methods",
                                          "Access-Control-Allow-Headers", "Access-Control-Max-Age"}) ==> r[k] == h[k]
  {
    h["Access-Control-Allow-Origin" := [AllowOrigin]]["Access-Control-Allow-Methods" := [AllowMethods]]
     ["Access-Control-Allow-Headers" := [AllowHeaders]]["Access-Control-Max-Age" := [MaxAge]]
  }

  /**
   * CORSMiddleware: set the CORS headers; a preflight OPTIONS request is
   * answered with 200 and goes no further, every other request is handed on.
   */
  method CORSMiddleware(w: ResponseWriter, r: InboundRequest) returns (callNext: bool)
    modifies w
    ensures w.header == CorsHeaders(old(w.header)) && w.body == old(w.body)
    ensures callNext <==> r.httpMethod != "OPTIONS"
    ensures w.status == (if !callNext && old(w.status) == 0 then 200 else old(w.status))
  {
    w.SetHeader("Access-Control-Allow-Origin", AllowOrigin);
    w.SetHeader("Access-Control-Allow-Methods", AllowMethods);
    w.SetHeader("Access-Control-Allow-Headers", AllowHeaders);
    w.SetHeader("Access-Control-Max-Age", MaxAge);
    if r.httpMethod == "OPTIONS" {
      w.WriteHeader(200);
      return false;
    }
    callNext := true;
  }

  // ---------------------------------------------------------------------
  // Authentication and the admin gate

  /** What a token check yields: the identity that goes into the request context. */
  datatype Claims = Claims(userId: Uuid, username: string, role: string)

  /** JWT verification belongs to internal/auth; the model takes it as given. */
  type TokenValidator = string -> Option<Claims>

  /** A middleware either hands the request on or answers it with a status and an http.Error message. */
  datatype Outcome<T> = Proceed(value: T) | Respond(status: StatusCode, message: string)

  /**
   * strings.SplitN(header, " ", 2) followed by the check that there are two
   * parts and the first is exactly "Bearer": the token is what follows the
   * first space.
   */
  function BearerToken(authHeader: string): (token: Option<string>)
    ensures token.Some? <==> StartsWith(authHeader, "Bearer ")
    ensures token.Some? ==> authHeader == "Bearer " + token.value
  {
    BearerPrefixSpace(authHeader);
    var space := IndexOfChar(authHeader, ' ');
    if space == -1 then None
    else if authHeader[..space] != "Bearer" then None
    else Some(authHeader[space + 1..])
  }

  /** A header starting with "Bearer " has its first space right after the word. */
  lemma BearerPrefixSpace(authHeader: string)
    ensures StartsWith(authHeader, "Bearer ") ==> IndexOfChar(authHeader, ' ') == 6 && authHeader[..6] == "Bearer"
  {
    if StartsWith(authHeader, "Bearer ") {
      var b := "Bearer ";
      assert forall j :: 0 <= j < 6 ==> authHeader[j] == b[j];
      assert b[0] != ' ' && b[1] != ' ' && b[2] != ' ' && b[3] != ' ' && b[4] != ' ' && b[5] != ' ';
      assert authHeader[6] == ' ';
      assert authHeader[..6] == b[..6];
    }
  }

  /** The prefix is case-sensitive: "bearer" with a lower-case b is refused. */
  lemma BearerIsCaseSensitive(token: string)
    ensures BearerToken("bearer " + token).None?
  {
    var h := "bearer " + token;
    assert h[0] == 'b';
  }

  /**
   * AuthMiddleware: a missing header, a header not of the form "Bearer
   * <token>" and a token that fails validation are each answered with 401;
   * a valid token hands its claims on.
   */
  function Authenticate(r: InboundRequest, validate: TokenValidator): (o: Outcome<Claims>)
    ensures Get(r.header, AuthorizationKey) == "" ==> o == Respond(401, "Authorization header required")
    ensures Get(r.header, AuthorizationKey) != "" && !StartsWith(Get(r.header, AuthorizationKey), "Bearer ") ==>
      o == Respond(401, "Invalid authorization header format")
    ensures o.Proceed? <==> exists token :: Get(r.header, AuthorizationKey) == "Bearer " + token && validate(token).Some?
    ensures o.Proceed? ==> validate(Get(r.header, AuthorizationKey)[7..]) == Some(o.value)
    ensures o.Respond? ==> o.status == 401
  {
    var authHeader := Get(r.header, AuthorizationKey);
    if authHeader == "" then Respond(401, "Authorization header required")
    else
      match BearerToken(authHeader)
      case None =>
        assert forall token :: authHeader != "Bearer " + token by {
          forall token ensures authHeader != "Bearer " + token {
            if authHeader == "Bearer " + token { assert StartsWith(authHeader, "Bearer "); }
          }
        }
        Respond(401, "Invalid authorization header format")
      case Some(token) =>
        assert forall t :: authHeader == "Bearer " + t ==> t == token by {
          forall t | authHeader == "Bearer " + t ensures t == token { assert t == authHeader[7..]; }
        }
        match validate(token)
        case None => Respond(401, "Invalid token")
        case Some(claims) => Proceed(claims)
  }

  /**
   * AdminMiddleware: the context's role, when it is set and is a string, must
   * be exactly "admin"; anything else is answered with 403.
   */
  function AdminGate(role: Option<string>): (o: Outcome<()>)
    ensures o.Proceed? <==> role == Some("admin")
    ensures o.Respond? ==> o == Respond(403, "Admin access required")
  {
    if role.Some? && role.value == "admin" then Proceed(()) else Respond(403, "Admin access required")
  }

  // ---------------------------------------------------------------------
  // Client address

  /**
   * The middleware's GetClientIP: the first X-Forwarded-For entry without
   * surrounding space, else X-Real-IP, else RemoteAddr up to its FIRST colon.
   */
  function GetClientIP(r: InboundRequest): (ip: string)
    ensures Get(r.header, ForwardedForKey) != "" ==> ip == TrimSpace(FirstField(Get(r.header, ForwardedForKey), ','))
    ensures Get(r.header, ForwardedForKey) == "" && Get(r.header, RealIpKey) != "" ==> ip == Get(r.header, RealIpKey)
    ensures Get(r.header, ForwardedForKey) == "" && Get(r.header, RealIpKey) == "" ==>
      StartsWith(r.remoteAddr, ip) && Free(ip, ':') && (Free(r.remoteAddr, ':') <==> ip == r.remoteAddr)
  {
    var xff := Get(r.header, ForwardedForKey);
    if xff != "" then TrimSpace(FirstField(xff, ','))
    else
      var xri := Get(r.header, RealIpKey);
      if xri != "" then xri
      else FirstField(r.remoteAddr, ':')
  }

  /**
   * With no forwarding headers, "host:port" yields the host when the host
   * has no colon of its own; an IPv6 literal such as "[::1]:8080" is cut
   * inside the brackets, to "[".
   */
  lemma ClientIPCutsAtFirstColon(r: InboundRequest, host: string, port: string)
    requires Get(r.header, ForwardedForKey) == "" && Get(r.header, RealIpKey) == ""
    requires r.remoteAddr == host + ":" + port
    ensures Free(host, ':') ==> GetClientIP(r) == host
    ensures !Free(host, ':') ==> |GetClientIP(r)| < |host|
  {
    var a := r.remoteAddr;
    var i := IndexOfChar(a, ':');
    assert a[|host|] == ':';
    assert forall k :: 0 <= k < |host| ==> a[k] == host[k];
    assert 0 <= i <= |host|;
    assert GetClientIP(r) == a[..i];
    if Free(host, ':') {
      assert i == |host|;
      assert a[..|host|] == host;
    }
  }

  // ---------------------------------------------------------------------
  // Rate limiting

  /** time.Minute in nanoseconds; timestamps are nanosecond instants. */
  const Minute: int := 60_000_000_000

  /** The requests of one client still inside the window ending at now. */
  function Recent(times: seq<int>, now: int): (r: seq<int>)
    ensures forall i :: 0 <= i < |r| ==> now - r[i] < Minute
    ensures forall t :: t in r <==> t in times && now - t < Minute
    ensures |r| <= |times|
    decreases |times|
  {
    if |times| == 0 then []
    else Recent(times[..|times| - 1], now) + (if now - times[|times| - 1] < Minute then [times[|times| - 1]] else [])
  }

  /** The pruning loop: validRequests collects the timestamps younger than a minute, in order. */
  method Prune(requests: seq<int>, now: int) returns (validRequests: seq<int>)
    ensures validRequests == Recent(requests, now)
  {
    validRequests := [];
    var i := 0;
    while i < |requests|
      invariant 0 <= i <= |requests|
      invariant validRequests == Recent(requests[..i], now)
    {
      assert requests[..i + 1][..i] == requests[..i];
      if now - requests[i] < Minute {
        validRequests := validRequests + [requests[i]];
      }
      i := i + 1;
    }
    assert requests[..i] == requests;
  }

  /** Dropping old requests twice at the same instant drops nothing more. */
  lemma {:induction false} RecentIdempotent(times: seq<int>, now: int)
    ensures Recent(Recent(times, now), now) == Recent(times, now)
    decreases |times|
  {
    if |times| > 0 {
      var front := times[..|times| - 1];
      var t := times[|times| - 1];
      RecentIdempotent(front, now);
      var r := Recent(times, now);
      if now - t < Minute {
        assert r[..|r| - 1] == Recent(front, now);
      } else {
        assert r == Recent(front, now);
      }
    }
  }

  /** The window of requests per client, shared by all requests through the middleware. */
  class RateLimiter {
    const requestsPerMinute: int
    var clients: map<string, seq<int>>

    constructor (requestsPerMinute: int)
      ensures this.requestsPerMinute == requestsPerMinute && clients == map[]
    {
      this.requestsPerMinute := requestsPerMinute;
      clients := map[];
    }

    /** `len(clients[ip])`: a client never seen counts zero requests. */
    function Count(ip: string): nat
      reads this
    {
      if ip in clients then |clients[ip]| else 0
    }

    /**
     * One request from ip at now: a known client's old requests are dropped
     * first; then a client with requestsPerMinute or more requests left is
     * refused with 429 and not recorded, and any other has now appended.
     * Other clients' windows are never touched.
     */
    method Admit(ip: string, now: int) returns (allowed: bool)
      modifies this
      ensures var pruned := if ip in old(clients) then old(clients)[ip := Recent(old(clients)[ip], now)] else old(clients);
        var count := if ip in pruned then |pruned[ip]| else 0;
        (allowed <==> count < requestsPerMinute)
        && (allowed ==> clients == pruned[ip := (if ip in pruned then pruned[ip] else []) + [now]])
        && (!allowed ==> clients == pruned)
      ensures forall other :: other != ip ==> (other in clients <==> other in old(clients))
      ensures forall other :: other != ip && other in clients ==> clients[other] == old(clients)[other]
      ensures allowed ==> ip in clients && |clients[ip]| <= requestsPerMinute && clients[ip][|clients[ip]| - 1] == now
      ensures requestsPerMinute <= 0 ==> !allowed
    {
      if ip in clients {
        var valid := Prune(clients[ip], now);
        clients := clients[ip := valid];
      }
      if Count(ip) >= requestsPerMinute {
        return false;
      }
      var previous := if ip in clients then clients[ip] else [];
      clients := clients[ip := previous + [now]];
      allowed := true;
    }
  }
}
