/**
 * internal/proxy/proxy_server.go: the reverse proxy's request handler. It
 * picks the configuration for the request's Host, forwards the request, runs
 * the response through the HTML pipeline, answers the client and records an
 * access-log entry.
 */
module ProxyServer {
  import opened Common
  import opened Models
  import opened Http
  import opened UrlRewriter
  import opened RequestProcessor
  import HtmlInjector

  // ---------------------------------------------------------------------
  // The HTTP client

  /** The client timeout NewProxyServer sets, in seconds. */
  const ClientTimeoutSeconds := 30

  /** The redirect limit of NewProxyServer's CheckRedirect. */
  const MaxRedirects := 10

  /**
   * CheckRedirect: called with the number of requests already made in the
   * chain; refuses once that number reaches ten.
   */
  function CheckRedirect(viaLen: nat): (r: Option<string>)
    ensures r.Some? <==> viaLen >= MaxRedirects
  {
    if viaLen >= MaxRedirects then Some("stopped after 10 redirects") else None
  }

  /**
   * The client following a chain whose next `n` responses are redirects, with
   * `via` requests made so far: the number of requests made, or the refusal.
   */
  function FollowChain(n: nat, via: nat): Result<nat>
    decreases n
  {
    if n == 0 then Ok(via)
    else
      match CheckRedirect(via)
      case Some(e) => Err(e)
      case None => FollowChain(n - 1, via + 1)
  }

  /** Starting from `via` requests, `n` more redirects are followed exactly when the total stays within ten. */
  lemma {:induction false} FollowChainSpec(n: nat, via: nat)
    requires via <= MaxRedirects
    ensures FollowChain(n, via).Ok? <==> via + n <= MaxRedirects
    ensures FollowChain(n, via).Ok? ==> FollowChain(n, via).value == via + n
    decreases n
  {
    if n > 0 {
      if via < MaxRedirects {
        FollowChainSpec(n - 1, via + 1);
      } else {
        assert FollowChain(n, via).Err?;
      }
    }
  }

  /**
   * From the first request, nine redirects are followed and the tenth is
   * refused, so at most ten requests are made.
   */
  lemma RedirectCap(n: nat)
    ensures FollowChain(n, 1).Ok? <==> n <= 9
    ensures FollowChain(n, 1).Ok? ==> FollowChain(n, 1).value == n + 1 <= 10
  {
    FollowChainSpec(n, 1);
  }

  // ---------------------------------------------------------------------
  // Choosing the configuration

  /** The index of the first row that is active for `host`, or -1 (gorm's First in primary-key order). */
  function FirstActiveFor(rows: seq<ProxyConfig>, host: string): (i: int)
    ensures -1 <= i < |rows|
    ensures i >= 0 ==> rows[i].proxyDomain == host && rows[i].isActive
    ensures forall k :: 0 <= k < (if i < 0 then |rows| else i) ==> !(rows[k].proxyDomain == host && rows[k].isActive)
  {
    if |rows| == 0 then -1
    else if rows[0].proxyDomain == host && rows[0].isActive then 0
    else
      var j := FirstActiveFor(rows[1..], host);
      if j < 0 then -1 else j + 1
  }

  /** The configuration used when there is no database (the id stands for uuid.New()). */
  function DefaultConfig(host: string, newId: Uuid): ProxyConfig {
    ProxyConfig(newId, "", "https://www.baidu.com", host, true, "", 0, 0)
  }

  /**
   * getProxyConfig: without a database an active default for the host; with
   * one, the first active row whose proxy_domain is exactly the host, or an
   * error when there is none. `db` holds the live proxy_configs rows in
   * primary-key order.
   */
  function GetProxyConfig(db: Option<seq<ProxyConfig>>, host: string, newId: Uuid): Result<ProxyConfig> {
    match db
    case None => Ok(DefaultConfig(host, newId))
    case Some(rows) =>
      var i := FirstActiveFor(rows, host);
      if i < 0 then Err("record not found") else Ok(rows[i])
  }

  lemma GetProxyConfigSpec(db: Option<seq<ProxyConfig>>, host: string, newId: Uuid)
    ensures db.None? ==>
      GetProxyConfig(db, host, newId).Ok?
      && var c := GetProxyConfig(db, host, newId).value;
      c.proxyDomain == host && c.targetUrl == "https://www.baidu.com" && c.isActive && c.id == newId
    ensures db.Some? ==>
      (GetProxyConfig(db, host, newId).Err? <==> forall c :: c in db.value ==> !(c.proxyDomain == host && c.isActive))
    ensures db.Some? && GetProxyConfig(db, host, newId).Ok? ==>
      var c := GetProxyConfig(db, host, newId).value;
      c in db.value && c.proxyDomain == host && c.isActive
  {
    if db.Some? && GetProxyConfig(db, host, newId).Ok? {
      var i := FirstActiveFor(db.value, host);
      assert db.value[i] in db.value;
    }
  }

  /** An inactive row, or one for another host, is never chosen. */
  lemma GetProxyConfigNeverInactive(db: Option<seq<ProxyConfig>>, host: string, newId: Uuid)
    ensures GetProxyConfig(db, host, newId).Ok? ==>
      GetProxyConfig(db, host, newId).value.isActive
      && GetProxyConfig(db, host, newId).value.proxyDomain == host
  {
  }

  // ---------------------------------------------------------------------
  // The access log

  /** The record logProxyRequest builds; Milliseconds truncates the elapsed nanoseconds. */
  function LogRecord(r: InboundRequest, status: StatusCode, configId: Uuid, elapsedNs: nat): (l: ProxyLog)
    ensures l.proxyConfigId == configId && l.httpMethod == r.httpMethod && l.url == r.urlText
    ensures l.userAgent == Get(r.header, UserAgentKey) && l.userIp == GetClientIP(r)
    ensures l.statusCode == status
    ensures l.responseTimeMs * 1000000 <= elapsedNs < (l.responseTimeMs + 1) * 1000000
  {
    ProxyLog(configId, r.httpMethod, r.urlText, Get(r.header, UserAgentKey), GetClientIP(r), status, elapsedNs / 1000000)
  }

  // ---------------------------------------------------------------------
  // Serving one request

  /**
   * What ServeHTTP cannot compute itself: the id uuid.New() would give, the
   * library parsers and renderer, the upstream round trip (redirects and all),
   * and the time the request took.
   */
  datatype Environment = Environment(
    newId: Uuid,
    parseUrl: UrlParser,
    parseHtml: HtmlInjector.HtmlParse,
    render: HtmlInjector.HtmlRender,
    roundTrip: OutboundRequest -> Option<UpstreamResponse>,
    elapsedNs: nat)

  /** How one request ends, as the client and the log see it. */
  datatype Reply = Reply(
    status: int,
    header: Header,
    body: seq<Byte>,
    sent: Option<OutboundRequest>,  // the request sent upstream, if any
    log: Option<ProxyLog>)          // the access-log record, if one is made

  /** The headers http.Error leaves on a fresh writer. */
  function ErrorHeader(): Header {
    (map[] - {ContentLengthKey})[ContentTypeKey := ["text/plain; charset=utf-8"]]["X-Content-Type-Options" := ["nosniff"]]
  }

  const NotFoundMessage := "Proxy configuration not found"
  const BuildFailedMessage := "Failed to create proxy request"
  const ConnectFailedMessage := "Failed to connect to target server"

  /** The three messages are plain ASCII, so http.Error writes them byte for byte. */
  lemma MessagesAscii()
    ensures IsAscii(NotFoundMessage) && IsAscii(BuildFailedMessage) && IsAscii(ConnectFailedMessage)
  {
  }

  function ErrorReply(msg: string, code: int, sent: Option<OutboundRequest>): Reply
    requires IsAscii(msg)
  {
    AsciiLine(msg);
    Reply(code, ErrorHeader(), AsciiBytes(msg + "\n"), sent, None)
  }

  /** The popups injected into a page: none without a database, else the rows the query yields. */
  function PopupsFor(db: Option<seq<ProxyConfig>>, popupQuery: Uuid -> seq<Popup>, cfg: ProxyConfig): Option<seq<Popup>> {
    if db.None? then None else Some(popupQuery(cfg.id))
  }

  /** ServeHTTP as a function of the request, the database and the environment. */
  function Serve(db: Option<seq<ProxyConfig>>, popupQuery: Uuid -> seq<Popup>, r: InboundRequest, env: Environment): Reply {
    MessagesAscii();
    match GetProxyConfig(db, r.host, env.newId)
    case Err(_) => ErrorReply(NotFoundMessage, 404, None)
    case Ok(cfg) =>
      var targetUrl := BuildTargetURL(cfg.targetUrl, r.path, r.rawQuery);
      match ProxyRequest(r, targetUrl, env.parseUrl)
      case Err(_) => ErrorReply(BuildFailedMessage, 500, None)
      case Ok(req) =>
        match env.roundTrip(req)
        case None => ErrorReply(ConnectFailedMessage, 502, Some(req))
        case Some(resp) =>
          var (body, ok) := ProcessOutcome(resp, cfg, PopupsFor(db, popupQuery, cfg), env.parseUrl, env.parseHtml, env.render);
          if !ok then Reply(resp.status, Filtered(resp.header, _ => false), [], Some(req), None)
          else Reply(resp.status, ResponseHeaders(resp.header, |body|), body, Some(req),
                     Some(LogRecord(r, resp.status, cfg.id, env.elapsedNs)))
  }

  /**
   * The status mapping: 404 without a configuration (and nothing is sent
   * upstream), 500 when the request cannot be built (nothing sent), 502 when
   * the round trip fails, and otherwise the upstream status.
   */
  lemma ServeStatus(db: Option<seq<ProxyConfig>>, popupQuery: Uuid -> seq<Popup>, r: InboundRequest, env: Environment)
    ensures var cfg := GetProxyConfig(db, r.host, env.newId);
      var reply := Serve(db, popupQuery, r, env);
      (cfg.Err? ==> reply.status == 404 && reply.sent.None? && reply.log.None?)
      && (cfg.Ok? ==>
        var req := ProxyRequest(r, BuildTargetURL(cfg.value.targetUrl, r.path, r.rawQuery), env.parseUrl);
        (req.Err? ==> reply.status == 500 && reply.sent.None? && reply.log.None?)
        && (req.Ok? ==>
          reply.sent == Some(req.value)
          && (env.roundTrip(req.value).None? ==> reply.status == 502 && reply.log.None?)
          && (env.roundTrip(req.value).Some? ==> reply.status == env.roundTrip(req.value).value.status)))
  {
    var cfg := GetProxyConfig(db, r.host, env.newId);
    if cfg.Ok? {
      var req := ProxyRequest(r, BuildTargetURL(cfg.value.targetUrl, r.path, r.rawQuery), env.parseUrl);
      if req.Ok? && env.roundTrip(req.value).Some? {
        ServeAfterRoundTrip(db, popupQuery, r, env, cfg.value, req.value, env.roundTrip(req.value).value);
      }
    }
  }

  /** Once the round trip has answered, Serve's reply depends only on how processing went. */
  lemma ServeAfterRoundTrip(db: Option<seq<ProxyConfig>>, popupQuery: Uuid -> seq<Popup>, r: InboundRequest, env: Environment,
                            cfg: ProxyConfig, req: OutboundRequest, resp: UpstreamResponse)
    requires GetProxyConfig(db, r.host, env.newId) == Ok(cfg)
    requires ProxyRequest(r, BuildTargetURL(cfg.targetUrl, r.path, r.rawQuery), env.parseUrl) == Ok(req)
    requires env.roundTrip(req) == Some(resp)
    ensures var outcome := ProcessOutcome(resp, cfg, PopupsFor(db, popupQuery, cfg), env.parseUrl, env.parseHtml, env.render);
      var reply := Serve(db, popupQuery, r, env);
      reply.status == resp.status && reply.sent == Some(req)
      && (outcome.1 ==>
        reply.body == outcome.0 && reply.header == ResponseHeaders(resp.header, |outcome.0|)
        && reply.log == Some(LogRecord(r, resp.status, cfg.id, env.elapsedNs)))
      && (!outcome.1 ==> reply.body == [] && reply.log.None? && reply.header == Filtered(resp.header, _ => false))
  {
  }

  /**
   * The two ways an upstream answer reaches the client: after successful
   * processing, the filtered headers with the new length, the processed body
   * and a log record; after a processing failure, every upstream header
   * unfiltered (Content-Security-Policy included), an already drained body
   * and no log record.
   */
  lemma ServeUpstreamAnswer(db: Option<seq<ProxyConfig>>, popupQuery: Uuid -> seq<Popup>, r: InboundRequest, env: Environment)
    ensures var cfg := GetProxyConfig(db, r.host, env.newId);
      cfg.Ok? ==>
      var req := ProxyRequest(r, BuildTargetURL(cfg.value.targetUrl, r.path, r.rawQuery), env.parseUrl);
      req.Ok? && env.roundTrip(req.value).Some? ==>
      var resp := env.roundTrip(req.value).value;
      var outcome := ProcessOutcome(resp, cfg.value, PopupsFor(db, popupQuery, cfg.value), env.parseUrl, env.parseHtml, env.render);
      var reply := Serve(db, popupQuery, r, env);
      (outcome.1 ==>
        reply.body == outcome.0
        && reply.header == ResponseHeaders(resp.header, |outcome.0|)
        && reply.log == Some(LogRecord(r, resp.status, cfg.value.id, env.elapsedNs)))
      && (!outcome.1 ==>
        reply.body == [] && reply.log.None?
        && (forall k :: k in reply.header <==> k in resp.header && |resp.header[k]| > 0)
        && (forall k :: k in reply.header ==> reply.header[k] == resp.header[k]))
  {
    var cfg := GetProxyConfig(db, r.host, env.newId);
    if cfg.Ok? {
      var req := ProxyRequest(r, BuildTargetURL(cfg.value.targetUrl, r.path, r.rawQuery), env.parseUrl);
      if req.Ok? && env.roundTrip(req.value).Some? {
        ServeAfterRoundTrip(db, popupQuery, r, env, cfg.value, req.value, env.roundTrip(req.value).value);
      }
    }
  }

  /** Only a successfully processed answer is logged. */
  lemma LogOnlyOnSuccess(db: Option<seq<ProxyConfig>>, popupQuery: Uuid -> seq<Popup>, r: InboundRequest, env: Environment)
    ensures var reply := Serve(db, popupQuery, r, env);
      reply.log.Some? ==>
        var cfg := GetProxyConfig(db, r.host, env.newId);
        cfg.Ok? && reply.log.value.proxyConfigId == cfg.value.id
        && reply.sent.Some? && env.roundTrip(reply.sent.value).Some?
        && reply.log.value.statusCode == reply.status
        && reply.log.value.userIp == GetClientIP(r)
  {
    var cfg := GetProxyConfig(db, r.host, env.newId);
    if cfg.Ok? {
      var req := ProxyRequest(r, BuildTargetURL(cfg.value.targetUrl, r.path, r.rawQuery), env.parseUrl);
      if req.Ok? && env.roundTrip(req.value).Some? {
        ServeAfterRoundTrip(db, popupQuery, r, env, cfg.value, req.value, env.roundTrip(req.value).value);
      }
    }
  }

  /**
   * A non-HTML upstream answer is passed to the client byte for byte, with
   * the filtered headers and its own length.
   */
  lemma NonHtmlPassesThrough(db: Option<seq<ProxyConfig>>, popupQuery: Uuid -> seq<Popup>, r: InboundRequest, env: Environment)
    ensures var cfg := GetProxyConfig(db, r.host, env.newId);
      cfg.Ok? ==>
      var req := ProxyRequest(r, BuildTargetURL(cfg.value.targetUrl, r.path, r.rawQuery), env.parseUrl);
      req.Ok? && env.roundTrip(req.value).Some? ==>
      var resp := env.roundTrip(req.value).value;
      resp.body.Some? && !IsHtml(Get(resp.header, ContentTypeKey)) ==>
        var reply := Serve(db, popupQuery, r, env);
        reply.body == resp.body.value && reply.status == resp.status
        && reply.header == ResponseHeaders(resp.header, |resp.body.value|)
  {
    var cfg := GetProxyConfig(db, r.host, env.newId);
    if cfg.Ok? {
      var req := ProxyRequest(r, BuildTargetURL(cfg.value.targetUrl, r.path, r.rawQuery), env.parseUrl);
      if req.Ok? && env.roundTrip(req.value).Some? {
        ServeAfterRoundTrip(db, popupQuery, r, env, cfg.value, req.value, env.roundTrip(req.value).value);
      }
    }
  }

  /**
   * The proxy server: its database (None when it runs without one), the
   * popup query it injects from, and the access-log records it has saved.
   */
  class Server {
    const db: Option<seq<ProxyConfig>>
    const popupQuery: Uuid -> seq<Popup>
    const timeoutSeconds: int
    var savedLogs: seq<ProxyLog>

    /** NewProxyServer. */
    constructor (db: Option<seq<ProxyConfig>>, popupQuery: Uuid -> seq<Popup>)
      ensures this.db == db && this.popupQuery == popupQuery
      ensures timeoutSeconds == ClientTimeoutSeconds && savedLogs == []
    {
      this.db := db;
      this.popupQuery := popupQuery;
      timeoutSeconds := ClientTimeoutSeconds;
      savedLogs := [];
    }

    /**
     * ServeHTTP on a fresh ResponseWriter: the writer ends up holding the
     * reply Serve describes, and the log record is saved when there is a
     * database (without one it goes to the log file only).
     */
    method ServeHTTP(w: ResponseWriter, r: InboundRequest, env: Environment)
      requires w.header == map[] && w.status == 0 && w.body == []
      modifies w, this
      ensures var reply := Serve(db, popupQuery, r, env);
        w.status == reply.status && w.header == reply.header && w.body == reply.body
        && savedLogs == old(savedLogs) + (if db.Some? && reply.log.Some? then [reply.log.value] else [])
    {
      MessagesAscii();
      var proxyConfig := GetProxyConfig(db, r.host, env.newId);
      if proxyConfig.Err? {
        Error(w, NotFoundMessage, 404);
        return;
      }
      var cfg := proxyConfig.value;
      var targetUrl := BuildTargetURL(cfg.targetUrl, r.path, r.rawQuery);
      var proxyReq := CreateProxyRequest(r, targetUrl, env.parseUrl);
      if proxyReq.Err? {
        Error(w, BuildFailedMessage, 500);
        return;
      }
      var resp := env.roundTrip(proxyReq.value);
      if resp.None? {
        Error(w, ConnectFailedMessage, 502);
        return;
      }
      var processedBody, ok := ProcessResponse(resp.value, cfg, PopupsFor(db, popupQuery, cfg),
                                               env.parseUrl, env.parseHtml, env.render);
      if !ok {
        CopyResponse(w, resp.value, []);
        return;
      }
      CopyResponseHeaders(w, resp.value, |processedBody|);
      w.WriteHeader(resp.value.status);
      w.Write(processedBody);
      LogProxyRequest(r, resp.value, cfg.id, env.elapsedNs);
    }

    /** logProxyRequest: with a database the record is saved; without one it is only written to the log file. */
    method LogProxyRequest(r: InboundRequest, resp: UpstreamResponse, configId: Uuid, elapsedNs: nat)
      modifies this
      ensures savedLogs == old(savedLogs) + (if db.Some? then [LogRecord(r, resp.status, configId, elapsedNs)] else [])
    {
      if db.None? {
        return;
      }
      savedLogs := savedLogs + [LogRecord(r, resp.status, configId, elapsedNs)];
    }
  }
}
