/**
 * internal/proxy/url_rewriter.go: the upstream URL of a proxied request, and
 * the rewriting of link, image, script and form URLs inside a parsed page so
 * that they point at the proxy domain.
 */
module UrlRewriter {
  import opened Common
  import opened Models
  import opened HtmlParser

  function WithSlash(targetUrl: string): (r: string)
    ensures EndsWith(r, "/") && StartsWith(r, targetUrl)
    ensures EndsWith(targetUrl, "/") ==> r == targetUrl
    ensures !EndsWith(targetUrl, "/") ==> r == targetUrl + "/"
  {
    if EndsWith(targetUrl, "/") then targetUrl else targetUrl + "/"
  }

  function QuerySuffix(rawQuery: string): string {
    if rawQuery == "" then "" else "?" + rawQuery
  }

  /**
   * BuildTargetURL: the target URL with a trailing slash, the request path
   * without its leading slash, and "?" plus the raw query when there is one.
   */
  function BuildTargetURL(targetUrl: string, path: string, rawQuery: string): (r: string)
    ensures StartsWith(r, targetUrl)
    ensures r == WithSlash(targetUrl) + TrimPrefix(path, "/") + QuerySuffix(rawQuery)
  {
    var base := WithSlash(targetUrl);
    var tail := TrimPrefix(path, "/") + QuerySuffix(rawQuery);
    assert (base + tail)[..|targetUrl|] == base[..|targetUrl|];
    base + tail
  }

  /**
   * Base and request path meet at exactly one slash: a request path "/" + rest
   * follows a base without a trailing slash verbatim, and loses its own slash
   * after a base that has one.
   */
  lemma {:induction false} BuildTargetURLJoins(targetUrl: string, rest: string, rawQuery: string)
    ensures !EndsWith(targetUrl, "/") ==>
      BuildTargetURL(targetUrl, "/" + rest, rawQuery) == targetUrl + "/" + rest + QuerySuffix(rawQuery)
    ensures EndsWith(targetUrl, "/") ==>
      BuildTargetURL(targetUrl, "/" + rest, rawQuery) == targetUrl + rest + QuerySuffix(rawQuery)
  {
    assert ("/" + rest)[..1] == "/";
    assert ("/" + rest)[1..] == rest;
  }

  /**
   * When neither the target URL nor the request path holds a '?', the upstream
   * URL splits at its first '?' back into base plus path and the raw query.
   */
  lemma {:induction false} BuildTargetURLQueryRecoverable(targetUrl: string, path: string, rawQuery: string)
    requires Free(targetUrl, '?') && Free(path, '?') && rawQuery != ""
    ensures var r := BuildTargetURL(targetUrl, path, rawQuery);
      var i := IndexOfChar(r, '?');
      i >= 0 && r[..i] == WithSlash(targetUrl) + TrimPrefix(path, "/") && r[i + 1..] == rawQuery
  {
    var head := WithSlash(targetUrl) + TrimPrefix(path, "/");
    HeadFree(targetUrl, path);
    QueryAppended(head, rawQuery);
    FirstSeparator(head, rawQuery, '?');
  }

  /** Neither the base nor the trimmed path brings in a '?'. */
  lemma HeadFree(targetUrl: string, path: string)
    requires Free(targetUrl, '?') && Free(path, '?')
    ensures Free(WithSlash(targetUrl) + TrimPrefix(path, "/"), '?')
  {
    var base, trimmed := WithSlash(targetUrl), TrimPrefix(path, "/");
    if !EndsWith(targetUrl, "/") {
      FreeConcat(targetUrl, "/", '?');
    }
    if StartsWith(path, "/") {
      FreeParts("/", trimmed, '?');
    }
    FreeConcat(base, trimmed, '?');
  }

  lemma QueryAppended(head: string, rawQuery: string)
    requires rawQuery != ""
    ensures head + QuerySuffix(rawQuery) == head + ['?'] + rawQuery
  {
  }

  /** extractHost: the host of the parsed URL, or "" when it does not parse. */
  function ExtractHost(parseUrl: UrlParser, urlText: string): (r: string)
    ensures parseUrl(urlText).None? ==> r == ""
    ensures parseUrl(urlText).Some? ==> r == parseUrl(urlText).value.host
  {
    match parseUrl(urlText)
    case None => ""
    case Some(u) => u.host
  }

  /**
   * rewriteURL: a root-relative URL gets the proxy origin in front; otherwise
   * the first occurrence of the target host is replaced by the proxy domain;
   * anything else is kept.
   */
  function RewriteURL(original: string, cfg: ProxyConfig, parseUrl: UrlParser): (r: string)
    ensures StartsWith(original, "/") ==> r == "https://" + cfg.proxyDomain + original
    ensures var host := ExtractHost(parseUrl, cfg.targetUrl);
      !StartsWith(original, "/") && Contains(original, host) ==>
        var i := Index(original, host);
        original == original[..i] + host + original[i + |host|..]
        && r == original[..i] + cfg.proxyDomain + original[i + |host|..]
    ensures var host := ExtractHost(parseUrl, cfg.targetUrl);
      !StartsWith(original, "/") && !Contains(original, host) ==> r == original
  {
    if StartsWith(original, "/") then "https://" + cfg.proxyDomain + original
    else
      var targetHost := ExtractHost(parseUrl, cfg.targetUrl);
      if Contains(original, targetHost) then ReplaceFirst(original, targetHost, cfg.proxyDomain)
      else original
  }

  /**
   * A target URL without a host (one that does not parse, or has no
   * authority) makes every URL that does not start with "/" get the proxy
   * domain glued to its front, because every string contains "".
   */
  lemma {:induction false} RewriteURLWithoutTargetHost(original: string, cfg: ProxyConfig, parseUrl: UrlParser)
    requires ExtractHost(parseUrl, cfg.targetUrl) == "" && !StartsWith(original, "/")
    ensures RewriteURL(original, cfg, parseUrl) == cfg.proxyDomain + original
  {
    assert OccursAt(original, "", 0);
    assert Index(original, "") == 0;
    assert original[0..] == original;
  }

  /** The attribute RewriteURLs rewrites on an element with this tag. */
  function LinkAttribute(tag: string): Option<string> {
    if tag == "a" || tag == "link" then Some("href")
    else if tag == "img" || tag == "script" then Some("src")
    else if tag == "form" then Some("action")
    else None
  }

  /** The index of the first attribute called `name`, or -1. */
  function FirstKey(attrs: seq<Attr>, name: string): (i: int)
    ensures -1 <= i < |attrs|
    ensures i >= 0 ==> attrs[i].key == name
    ensures forall k :: 0 <= k < (if i < 0 then |attrs| else i) ==> attrs[k].key != name
  {
    if |attrs| == 0 then -1
    else if attrs[0].key == name then 0
    else
      var j := FirstKey(attrs[1..], name);
      if j < 0 then -1 else j + 1
  }

  function RewrittenAttrs(attrs: seq<Attr>, name: string, cfg: ProxyConfig, parseUrl: UrlParser): seq<Attr> {
    var i := FirstKey(attrs, name);
    if i < 0 then attrs else attrs[i := Attr(name, RewriteURL(attrs[i].val, cfg, parseUrl))]
  }

  /**
   * rewriteAttribute: rewrite the value of the first attribute called
   * `attrName` and stop; other attributes, and later duplicates, keep their
   * values.
   */
  method RewriteAttribute(attrs: seq<Attr>, attrName: string, cfg: ProxyConfig, parseUrl: UrlParser)
    returns (out: seq<Attr>)
    ensures out == RewrittenAttrs(attrs, attrName, cfg, parseUrl)
    ensures |out| == |attrs| && forall k :: 0 <= k < |attrs| ==> out[k].key == attrs[k].key
    ensures var i := FirstKey(attrs, attrName);
      (forall k :: 0 <= k < |attrs| && k != i ==> out[k] == attrs[k])
      && (i >= 0 ==> out[i].val == RewriteURL(attrs[i].val, cfg, parseUrl))
  {
    out := attrs;
    var i := 0;
    while i < |out|
      invariant 0 <= i <= |out| && out == attrs
      invariant forall k :: 0 <= k < i ==> attrs[k].key != attrName
    {
      if out[i].key == attrName {
        out := out[i := Attr(out[i].key, RewriteURL(out[i].val, cfg, parseUrl))];
        assert FirstKey(attrs, attrName) == i;
        break;
      }
      i := i + 1;
    }
  }

  /** The node after RewriteURLs' visitor has seen it (children untouched). */
  function RewriteNode(n: Node, cfg: ProxyConfig, parseUrl: UrlParser): Node {
    if n.ntype == ElementNode && LinkAttribute(n.data).Some? then
      n.(attrs := RewrittenAttrs(n.attrs, LinkAttribute(n.data).value, cfg, parseUrl))
    else n
  }

  /** The whole tree after RewriteURLs: the visitor applied at every node. */
  function RewriteTree(n: Node, cfg: ProxyConfig, parseUrl: UrlParser): Node
    decreases n
  {
    RewriteNode(n, cfg, parseUrl).(children := seq(|n.children|, i requires 0 <= i < |n.children| => RewriteTree(n.children[i], cfg, parseUrl)))
  }

  /**
   * RewriteURLs: every node of the tree keeps its place, type and tag; the node
   * at each path is the original node at that path as the visitor leaves it.
   */
  lemma {:induction false} RewriteTreeAt(n: Node, cfg: ProxyConfig, parseUrl: UrlParser, p: Path)
    ensures ValidPath(n, p) <==> ValidPath(RewriteTree(n, cfg, parseUrl), p)
    ensures ValidPath(n, p) ==>
      var before := At(n, p);
      var after := At(RewriteTree(n, cfg, parseUrl), p);
      after.ntype == before.ntype && after.data == before.data
      && |after.children| == |before.children|
      && after.attrs == RewriteNode(before, cfg, parseUrl).attrs
    decreases |p|
  {
    if |p| > 0 && p[0] < |n.children| {
      RewriteTreeAt(n.children[p[0]], cfg, parseUrl, p[1..]);
    }
  }

  /**
   * RewriteURLs(doc, cfg): visit every node (WalkNodes) and, on an a or link
   * element, rewrite href; on img or script, src; on form, action.
   */
  method RewriteURLs(doc: Node, cfg: ProxyConfig, parseUrl: UrlParser) returns (out: Node)
    ensures out == RewriteTree(doc, cfg, parseUrl)
    decreases doc
  {
    out := doc;
    if doc.ntype == ElementNode {
      var name := LinkAttribute(doc.data);
      if name.Some? {
        var attrs := RewriteAttribute(doc.attrs, name.value, cfg, parseUrl);
        out := out.(attrs := attrs);
      }
    }
    var kids: seq<Node> := [];
    var i := 0;
    while i < |doc.children|
      invariant 0 <= i <= |doc.children| && |kids| == i
      invariant forall k :: 0 <= k < i ==> kids[k] == RewriteTree(doc.children[k], cfg, parseUrl)
    {
      var kid := RewriteURLs(doc.children[i], cfg, parseUrl);
      kids := kids + [kid];
      i := i + 1;
    }
    out := out.(children := kids);
  }
}
