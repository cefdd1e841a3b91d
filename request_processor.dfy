/**
 * internal/proxy/request_processor.go: building the upstream request from the
 * client's request, deciding whether a response is transformed, and copying
 * upstream headers to the client.
 */
module RequestProcessor {
  import opened Common
  import opened Models
  import opened Http
  import HtmlInjector

  // ---------------------------------------------------------------------
  // Header filters

  /** The hop-by-hop request headers shouldSkipHeader lists. */
  const SkipHeaders := ["Connection", "Proxy-Connection", "Proxy-Authenticate", "Proxy-Authorization",
                        "Te", "Trailers", "Transfer-Encoding", "Upgrade"]

  /** The response headers shouldSkipResponseHeader lists: dropped, or recomputed by the proxy. */
  const SkipResponseHeaders := ["Connection", "Transfer-Encoding", "Content-Length", "Content-Security-Policy"]

  /** Some name of the list equals the key under strings.EqualFold. */
  predicate Listed(key: string, names: seq<string>) {
    |names| > 0 && (EqualFold(key, names[0]) || Listed(key, names[1..]))
  }

  /** The `for _, h := range names { if strings.EqualFold(key, h) { return true } }` search, in list order. */
  method SearchList(key: string, names: seq<string>) returns (found: bool)
    ensures found == Listed(key, names)
  {
    var i := 0;
    while i < |names|
      invariant 0 <= i <= |names|
      invariant Listed(key, names) == Listed(key, names[i..])
    {
      assert names[i..][1..] == names[i + 1..];
      if EqualFold(key, names[i]) {
        return true;
      }
      i := i + 1;
    }
    return false;
  }

  /** shouldSkipHeader: hop-by-hop request headers, compared case-insensitively. */
  predicate ShouldSkipHeader(key: string) {
    Listed(key, SkipHeaders)
  }

  /** shouldSkipResponseHeader: headers the proxy drops or recomputes. */
  predicate ShouldSkipResponseHeader(key: string) {
    Listed(key, SkipResponseHeaders)
  }

  /** On an ASCII key, the search finds a name exactly when the key and that name agree once lower-cased. */
  lemma {:induction false} ListedAscii(key: string, names: seq<string>)
    requires IsAscii(key)
    ensures Listed(key, names) <==> exists i :: 0 <= i < |names| && ToLowerAscii(key) == ToLowerAscii(names[i])
    decreases |names|
  {
    if |names| > 0 {
      EqualFoldAscii(key, names[0]);
      ListedAscii(key, names[1..]);
      var rest := names[1..];
      if exists i :: 0 <= i < |rest| && ToLowerAscii(key) == ToLowerAscii(rest[i]) {
        var i :| 0 <= i < |rest| && ToLowerAscii(key) == ToLowerAscii(rest[i]);
        assert names[i + 1] == rest[i];
      }
      if exists i :: 0 <= i < |names| && ToLowerAscii(key) == ToLowerAscii(names[i]) {
        var i :| 0 <= i < |names| && ToLowerAscii(key) == ToLowerAscii(names[i]);
        if i > 0 {
          assert rest[i - 1] == names[i];
        }
      }
    }
  }

  /** On ASCII names, the request filter skips exactly the eight listed names, letter case ignored. */
  lemma SkipHeaderExactly(key: string)
    requires IsAscii(key)
    ensures ShouldSkipHeader(key) <==>
      exists i :: 0 <= i < |SkipHeaders| && ToLowerAscii(key) == ToLowerAscii(SkipHeaders[i])
  {
    ListedAscii(key, SkipHeaders);
  }

  /** On ASCII names, the response filter skips exactly the four listed names, letter case ignored. */
  lemma SkipResponseHeaderExactly(key: string)
    requires IsAscii(key)
    ensures ShouldSkipResponseHeader(key) <==>
      exists i :: 0 <= i < |SkipResponseHeaders| && ToLowerAscii(key) == ToLowerAscii(SkipResponseHeaders[i])
  {
    ListedAscii(key, SkipResponseHeaders);
  }

  /** A name that matches anywhere in the list makes the search succeed. */
  lemma {:induction false} ListedAt(key: string, names: seq<string>, i: int)
    requires 0 <= i < |names| && EqualFold(key, names[i])
    ensures Listed(key, names)
    decreases i
  {
    if i > 0 {
      assert names[1..][i - 1] == names[i];
      ListedAt(key, names[1..], i - 1);
    }
  }

  /**
   * Beyond ASCII, strings.EqualFold also folds LATIN SMALL LETTER LONG S onto
   * s, so a spelling of Transfer-Encoding with that letter is skipped too.
   */
  lemma SkipFoldsLongS()
    ensures ShouldSkipHeader("Tran\U{017F}fer-Encoding")
  {
    assert EqualFold("Tran\U{017F}fer-Encoding", SkipHeaders[6]);
    ListedAt("Tran\U{017F}fer-Encoding", SkipHeaders, 6);
  }

  /** The comparison ignores letter case: any spelling of Transfer-Encoding is skipped by both filters. */
  lemma SkipIgnoresCase(key: string)
    requires ToLowerAscii(key) == "transfer-encoding"
    ensures ShouldSkipHeader(key) && ShouldSkipResponseHeader(key)
  {
    var t := "Transfer-Encoding";
    forall k | 0 <= k < |key| ensures FoldsTo(key[k], t[k]) {
      assert LowerChar(key[k]) == ToLowerAscii(key)[k];
    }
    ListedAt(key, SkipHeaders, 6);
    ListedAt(key, SkipResponseHeaders, 1);
  }

  /** A key that differs from every name in length or in its first letter is not listed. */
  lemma {:induction false} Unlisted(key: string, names: seq<string>)
    requires |key| > 0
    requires forall i :: 0 <= i < |names| ==> |names[i]| != |key| || !FoldsTo(key[0], names[i][0])
    ensures !Listed(key, names)
    decreases |names|
  {
    if |names| > 0 {
      assert |names[0]| != |key| || !FoldsTo(key[0], names[0][0]);
      Unlisted(key, names[1..]);
    }
  }

  /** Every hop-by-hop name begins with C, P, T or U. */
  lemma SkipHeaderInitials()
    ensures forall i :: 0 <= i < |SkipHeaders| ==> |SkipHeaders[i]| > 0 && SkipHeaders[i][0] in "CPTU"
  {
    forall i | 0 <= i < |SkipHeaders|
      ensures |SkipHeaders[i]| > 0 && SkipHeaders[i][0] in "CPTU"
    {
      assert i == 0 || i == 1 || i == 2 || i == 3 || i == 4 || i == 5 || i == 6 || i == 7;
    }
  }

  /** No response name is twelve letters long. */
  lemma SkipResponseHeaderLengths()
    ensures forall i :: 0 <= i < |SkipResponseHeaders| ==> |SkipResponseHeaders[i]| != 12
  {
    forall i | 0 <= i < |SkipResponseHeaders|
      ensures |SkipResponseHeaders[i]| != 12
    {
      assert i == 0 || i == 1 || i == 2 || i == 3;
    }
  }

  /** The headers the proxy sets itself are never filtered away by the request filter. */
  lemma ProxyHeadersNotSkipped()
    ensures !ShouldSkipHeader(HostKey) && !ShouldSkipHeader(ForwardedForKey)
    ensures !ShouldSkipHeader(ForwardedProtoKey) && !ShouldSkipHeader(RealIpKey)
    ensures !ShouldSkipResponseHeader(ContentTypeKey)
  {
    SkipHeaderInitials();
    Unlisted(HostKey, SkipHeaders);
    Unlisted(ForwardedForKey, SkipHeaders);
    Unlisted(ForwardedProtoKey, SkipHeaders);
    Unlisted(RealIpKey, SkipHeaders);
    SkipResponseHeaderLengths();
    Unlisted(ContentTypeKey, SkipResponseHeaders);
  }

  // ---------------------------------------------------------------------
  // Client address and scheme

  /**
   * GetClientIP: the first X-Forwarded-For entry without surrounding space,
   * else X-Real-IP, else RemoteAddr cut at its last colon (the port).
   */
  function GetClientIP(r: InboundRequest): (ip: string)
    ensures Get(r.header, ForwardedForKey) != "" ==>
      ip == TrimSpace(FirstField(Get(r.header, ForwardedForKey), ',')) && Free(ip, ',')
    ensures Get(r.header, ForwardedForKey) == "" && Get(r.header, RealIpKey) != "" ==> ip == Get(r.header, RealIpKey)
    ensures Get(r.header, ForwardedForKey) == "" && Get(r.header, RealIpKey) == "" ==>
      StartsWith(r.remoteAddr, ip) && (Free(r.remoteAddr, ':') <==> ip == r.remoteAddr)
  {
    var xff := Get(r.header, ForwardedForKey);
    if xff != "" then
      var first := FirstField(xff, ',');
      var t := TrimSpace(first);
      assert Free(t, ',') by {
        var i :| 0 <= i <= |first| && OccursAt(first, t, i);
        forall k | 0 <= k < |t| ensures t[k] != ',' { assert t[k] == first[i + k]; }
      }
      t
    else
      var xri := Get(r.header, RealIpKey);
      if xri != "" then xri
      else
        var idx := LastIndexOfChar(r.remoteAddr, ':');
        if idx != -1 then r.remoteAddr[..idx] else r.remoteAddr
  }

  /** A "host:port" remote address yields the host, colons inside the host included. */
  lemma {:induction false} ClientIPDropsPort(r: InboundRequest, host: string, port: string)
    requires Get(r.header, ForwardedForKey) == "" && Get(r.header, RealIpKey) == ""
    requires r.remoteAddr == host + ":" + port && Free(port, ':')
    ensures GetClientIP(r) == host
  {
    var a := r.remoteAddr;
    assert a[|host|] == ':';
    forall j | |host| < j < |a| ensures a[j] != ':' { assert a[j] == port[j - |host| - 1]; }
    assert LastIndexOfChar(a, ':') == |host|;
    assert a[..|host|] == host;
  }

  /** getScheme: https on TLS, else a non-empty X-Forwarded-Proto, else http. */
  function GetScheme(r: InboundRequest): (s: string)
    ensures r.tls ==> s == "https"
    ensures !r.tls && Get(r.header, ForwardedProtoKey) != "" ==> s == Get(r.header, ForwardedProtoKey)
    ensures !r.tls && Get(r.header, ForwardedProtoKey) == "" ==> s == "http"
    ensures s != ""
  {
    if r.tls then "https"
    else
      var scheme := Get(r.header, ForwardedProtoKey);
      if scheme != "" then scheme else "http"
  }

  // ---------------------------------------------------------------------
  // The upstream request

  /** A token character of RFC 7230 section 3.2.6, which a request method must consist of. */
  predicate IsTokenChar(c: char) {
    ('a' <= c <= 'z') || ('A' <= c <= 'Z') || ('0' <= c <= '9')
    || c in {'!', '#', '$', '%', '&', '\'', '*', '+', '-', '.', '^', '_', '`', '|', '~'}
  }

  /** The method http.NewRequest uses: "" means GET; anything but a token is refused. */
  function RequestMethod(m: string): (r: Option<string>)
    ensures m == "" ==> r == Some("GET")
    ensures m != "" ==> (r.Some? <==> forall k :: 0 <= k < |m| ==> IsTokenChar(m[k]))
    ensures r.Some? && m != "" ==> r.value == m
  {
    if m == "" then Some("GET")
    else if forall k :: 0 <= k < |m| ==> IsTokenChar(m[k]) then Some(m)
    else None
  }

  /** The X-Forwarded-For value sent upstream: the client's address appended to the first forwarded value. */
  function ForwardedFor(existing: string, clientIp: string): string {
    if existing != "" then existing + ", " + clientIp else clientIp
  }

  /**
   * The request CreateProxyRequest builds: an error when the target URL does
   * not parse or the method is refused; otherwise the inbound body and the
   * forwarded headers with Host, X-Forwarded-For, X-Forwarded-Proto and
   * X-Real-IP set over them.
   */
  function ProxyRequest(orig: InboundRequest, targetUrl: string, parseUrl: UrlParser): Result<OutboundRequest> {
    match parseUrl(targetUrl)
    case None => Err("invalid target URL")
    case Some(u) =>
      match RequestMethod(orig.httpMethod)
      case None => Err("invalid method")
      case Some(m) =>
        var ip := GetClientIP(orig);
        var copied := Filtered(orig.header, ShouldSkipHeader);
        Ok(OutboundRequest(m, targetUrl, u.host,
          copied[HostKey := [u.host]]
                [ForwardedForKey := [ForwardedFor(Get(copied, ForwardedForKey), ip)]]
                [ForwardedProtoKey := [GetScheme(orig)]]
                [RealIpKey := [ip]],
          orig.body))
  }

  /**
   * The header policy of CreateProxyRequest: every other header arrives with
   * all its values in order, the hop-by-hop ones never arrive, and the four
   * proxy headers hold the target host, the extended forwarding chain, the
   * scheme and the client address.
   */
  lemma ProxyRequestSpec(orig: InboundRequest, targetUrl: string, parseUrl: UrlParser)
    ensures var out := ProxyRequest(orig, targetUrl, parseUrl);
      out.Ok? <==> parseUrl(targetUrl).Some? && RequestMethod(orig.httpMethod).Some?
    ensures var out := ProxyRequest(orig, targetUrl, parseUrl);
      out.Ok? ==>
      var h := out.value.header;
      var host := parseUrl(targetUrl).value.host;
      var ip := GetClientIP(orig);
      out.value.url == targetUrl && out.value.httpMethod == RequestMethod(orig.httpMethod).value
      && out.value.host == host && out.value.body == orig.body
      && (forall k :: k !in {HostKey, ForwardedForKey, ForwardedProtoKey, RealIpKey} ==>
            (k in h <==> k in orig.header && !ShouldSkipHeader(k) && |orig.header[k]| > 0)
            && (k in h ==> h[k] == orig.header[k]))
      && (forall k :: ShouldSkipHeader(k) ==> k !in h)
      && HostKey in h && h[HostKey] == [host]
      && ForwardedForKey in h && h[ForwardedForKey] == [ForwardedFor(Get(orig.header, ForwardedForKey), ip)]
      && ForwardedProtoKey in h && h[ForwardedProtoKey] == [GetScheme(orig)]
      && RealIpKey in h && h[RealIpKey] == [ip]
  {
    if parseUrl(targetUrl).Some? && RequestMethod(orig.httpMethod).Some? {
      ProxyHeadersNotSkipped();
      var ip := GetClientIP(orig);
      var copied := Filtered(orig.header, ShouldSkipHeader);
      assert Get(copied, ForwardedForKey) == Get(orig.header, ForwardedForKey);
      FilteredThenSet(orig.header, ShouldSkipHeader, parseUrl(targetUrl).value.host,
                      ForwardedFor(Get(orig.header, ForwardedForKey), ip), GetScheme(orig), ip);
    }
  }

  /** Filtering with a filter that spares the four proxy headers, then setting them. */
  lemma FilteredThenSet(src: Header, skip: string -> bool, host: string, forwardedFor: string, scheme: string, ip: string)
    requires !skip(HostKey) && !skip(ForwardedForKey) && !skip(ForwardedProtoKey) && !skip(RealIpKey)
    ensures var h := Filtered(src, skip)[HostKey := [host]][ForwardedForKey := [forwardedFor]]
                                        [ForwardedProtoKey := [scheme]][RealIpKey := [ip]];
      (forall k :: k !in {HostKey, ForwardedForKey, ForwardedProtoKey, RealIpKey} ==>
        (k in h <==> k in src && !skip(k) && |src[k]| > 0) && (k in h ==> h[k] == src[k]))
      && (forall k :: skip(k) ==> k !in h)
      && h[HostKey] == [host] && h[ForwardedForKey] == [forwardedFor]
      && h[ForwardedProtoKey] == [scheme] && h[RealIpKey] == [ip]
  {
  }

  /**
   * CreateProxyRequest: parse the target, build the request, copy the
   * forwarded headers value by value, then set the four proxy headers.
   */
  method CreateProxyRequest(orig: InboundRequest, targetUrl: string, parseUrl: UrlParser)
    returns (out: Result<OutboundRequest>)
    ensures out == ProxyRequest(orig, targetUrl, parseUrl)
  {
    var parsed := parseUrl(targetUrl);
    if parsed.None? {
      return Err("invalid target URL");
    }
    var m := RequestMethod(orig.httpMethod);
    if m.None? {
      return Err("invalid method");
    }
    var header := CopyHeaders(orig.header, ShouldSkipHeader);
    header := header[HostKey := [parsed.value.host]];
    var clientIp := GetClientIP(orig);
    var existing := Get(header, ForwardedForKey);
    if existing != "" {
      header := header[ForwardedForKey := [existing + ", " + clientIp]];
    } else {
      header := header[ForwardedForKey := [clientIp]];
    }
    header := header[ForwardedProtoKey := [GetScheme(orig)]];
    header := header[RealIpKey := [clientIp]];
    out := Ok(OutboundRequest(m.value, targetUrl, parsed.value.host, header, orig.body));
  }

  // ---------------------------------------------------------------------
  // The response

  /** Whether ProcessResponse hands the body to the HTML pipeline. */
  predicate IsHtml(contentType: string) {
    Contains(ToLowerAscii(contentType), "text/html")
  }

  /** What ProcessResponse returns: the body to send and whether processing succeeded. */
  function ProcessOutcome(resp: UpstreamResponse, cfg: ProxyConfig, popups: Option<seq<Popup>>,
                          parseUrl: UrlParser, parseHtml: HtmlInjector.HtmlParse, render: HtmlInjector.HtmlRender)
    : (seq<Byte>, bool)
  {
    match resp.body
    case None => ([], false)
    case Some(body) =>
      if !IsHtml(Get(resp.header, ContentTypeKey)) then (body, true)
      else
        match parseHtml(body)
        case None => (body, false)
        case Some(doc) =>
          match render(HtmlInjector.Transformed(doc, cfg, popups, parseUrl))
          case None => (body, false)
          case Some(bytes) => (bytes, true)
  }

  /**
   * ProcessResponse: a read error is an error with no body; a response whose
   * Content-Type does not mention text/html (in any letter case) is passed on
   * as read; an HTML response goes through ProcessHTML.
   */
  method ProcessResponse(resp: UpstreamResponse, cfg: ProxyConfig, popups: Option<seq<Popup>>,
                         parseUrl: UrlParser, parseHtml: HtmlInjector.HtmlParse, render: HtmlInjector.HtmlRender)
    returns (out: seq<Byte>, ok: bool)
    ensures (out, ok) == ProcessOutcome(resp, cfg, popups, parseUrl, parseHtml, render)
    ensures resp.body.None? ==> out == [] && !ok
    ensures resp.body.Some? && !IsHtml(Get(resp.header, ContentTypeKey)) ==> out == resp.body.value && ok
    ensures resp.body.Some? && IsHtml(Get(resp.header, ContentTypeKey)) ==>
      var doc := parseHtml(resp.body.value);
      var rendered := if doc.None? then None
        else render(HtmlInjector.Transformed(doc.value, cfg, popups, parseUrl));
      (rendered.None? ==> out == resp.body.value && !ok)
      && (rendered.Some? ==> out == rendered.value && ok)
  {
    if resp.body.None? {
      return [], false;
    }
    var body := resp.body.value;
    var contentType := Get(resp.header, ContentTypeKey);
    if !Contains(ToLowerAscii(contentType), "text/html") {
      return body, true;
    }
    out, ok := HtmlInjector.ProcessHTML(body, cfg, popups, parseUrl, parseHtml, render);
  }

  /** Any letter-case spelling of text/html anywhere in the Content-Type is recognised. */
  lemma {:induction false} HtmlDetectionIgnoresCase(contentType: string, i: nat)
    requires i + 9 <= |contentType| && ToLowerAscii(contentType[i..i + 9]) == "text/html"
    ensures IsHtml(contentType)
  {
    var low := ToLowerAscii(contentType);
    forall k | 0 <= k < 9 ensures low[i + k] == "text/html"[k] {
      assert contentType[i..i + 9][k] == contentType[i + k];
    }
    assert OccursAt(low, "text/html", i);
  }

  /**
   * CopyResponse: every upstream header with all its values, unfiltered, then
   * the upstream status, then whatever is left of the body stream.
   */
  method CopyResponse(w: ResponseWriter, resp: UpstreamResponse, unread: seq<Byte>)
    requires w.header == map[] && w.status == 0
    modifies w
    ensures w.header == Filtered(resp.header, _ => false)
    ensures w.status == resp.status && w.body == old(w.body) + unread
  {
    w.header := CopyHeaders(resp.header, _ => false);
    w.WriteHeader(resp.status);
    w.Write(unread);
  }

  /**
   * The headers CopyResponseHeaders leaves: the filtered upstream headers,
   * with Content-Length set to the new body length only when it is positive.
   */
  function ResponseHeaders(upstream: Header, contentLength: int): (h: Header)
    ensures forall k :: k != ContentLengthKey ==>
      (k in h <==> k in upstream && !ShouldSkipResponseHeader(k) && |upstream[k]| > 0)
      && (k in h ==> h[k] == upstream[k])
    ensures contentLength > 0 ==> ContentLengthKey in h && h[ContentLengthKey] == [NatToString(contentLength)]
    ensures contentLength <= 0 ==> ContentLengthKey !in h
    ensures forall k :: ShouldSkipResponseHeader(k) && k != ContentLengthKey ==> k !in h
  {
    var copied := Filtered(upstream, ShouldSkipResponseHeader);
    assert ShouldSkipResponseHeader(ContentLengthKey) by { assert EqualFold(ContentLengthKey, "Content-Length"); }
    if contentLength > 0 then copied[ContentLengthKey := [NatToString(contentLength)]] else copied
  }

  /** CopyResponseHeaders on a fresh writer. */
  method CopyResponseHeaders(w: ResponseWriter, resp: UpstreamResponse, contentLength: int)
    requires w.header == map[]
    modifies w
    ensures w.header == ResponseHeaders(resp.header, contentLength)
    ensures w.status == old(w.status) && w.body == old(w.body)
  {
    var copied := CopyHeaders(resp.header, ShouldSkipResponseHeader);
    w.header := copied;
    if contentLength > 0 {
      w.SetHeader(ContentLengthKey, NatToString(contentLength));
    }
  }
}
