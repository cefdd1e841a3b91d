/**
 * internal/proxy/html_injector.go (with the asset texts of
 * internal/proxy/assets_provider.go): parse a proxied page, append the
 * overlay style sheet and script to <head>, append one hidden container per
 * popup to <body>, rewrite link URLs, and render the page again.
 */
module HtmlInjector {
  import opened Common
  import opened Models
  import opened HtmlParser
  import UrlRewriter

  // ---------------------------------------------------------------------
  // Assets

  /** GetCSS: the fixed style sheet for popup containers, overlay and close button. */
  const OverlayStyleSheet: string := ".proxy-popup{...} .proxy-popup-overlay{...} .proxy-popup-close{...}"

  /**
   * The fixed parts of the GetJavaScript template around its two `%s`: the
   * script sets `window.PROXY_CONFIG = { domain, configId }` and then defines
   * the separate `window.ProxyPopupManager` object. Whitespace, comments and
   * the manager's body are abbreviated here; the splice points are the source's.
   */
  const ScriptLead: string := "(function() { 'use strict'; window.PROXY_CONFIG = { domain: '"
  const ScriptMiddle: string := "', configId: '"
  const ScriptTail: string := "' }; window.ProxyPopupManager = { ... }; console.log('Proxy enhancer loaded for domain:', window.PROXY_CONFIG.domain); })();"

  /**
   * GetJavaScript: the popup manager script with the proxy domain and the
   * configuration ID (its canonical text, as %s prints a UUID) spliced in
   * without escaping.
   */
  function PopupManagerScript(cfg: ProxyConfig): (r: string)
    ensures StartsWith(r, ScriptLead + cfg.proxyDomain + ScriptMiddle)
    ensures EndsWith(r, UuidString(cfg.id) + ScriptTail)
  {
    var r := ScriptLead + cfg.proxyDomain + ScriptMiddle + UuidString(cfg.id) + ScriptTail;
    assert r[..|ScriptLead + cfg.proxyDomain + ScriptMiddle|] == ScriptLead + cfg.proxyDomain + ScriptMiddle;
    assert r[|r| - |UuidString(cfg.id) + ScriptTail|..] == UuidString(cfg.id) + ScriptTail;
    r
  }

  function StyleElement(): Node {
    Node(ElementNode, "style", [Attr("type", "text/css")], [Node(TextNode, OverlayStyleSheet, [], [])])
  }

  function ScriptElement(cfg: ProxyConfig): Node {
    Node(ElementNode, "script", [Attr("type", "text/javascript")], [Node(TextNode, PopupManagerScript(cfg), [], [])])
  }

  /** The two children injectBaseAssets appends to <head>, in order. */
  function BaseAssets(cfg: ProxyConfig): seq<Node> {
    [StyleElement(), ScriptElement(cfg)]
  }

  // ---------------------------------------------------------------------
  // Popup containers

  /** The id attribute as written: fmt's %d applied to the 16-byte UUID. */
  function PopupElementIdAsWritten(popup: Popup): string {
    "popup-" + DecimalByteList(popup.id)
  }

  /** The id the popup manager script looks up: "popup-" and the UUID's text. */
  function PopupElementId(popup: Popup): string {
    "popup-" + UuidString(popup.id)
  }

  function PopupContainer(popup: Popup, id: string): Node {
    Node(ElementNode, "div",
      [Attr("id", id), Attr("class", "proxy-popup"), Attr("style", "display: none;")],
      [Node(RawNode, popup.content, [], [])])
  }

  /** createPopupElement exactly as written, with the %d-formatted id. */
  function CreatePopupElementAsWritten(popup: Popup): Node {
    PopupContainer(popup, PopupElementIdAsWritten(popup))
  }

  /**
   * createPopupElement with the evidently intended id: a hidden div of class
   * proxy-popup whose id is what `ProxyPopupManager.show` looks up, holding the
   * popup's content as raw, unparsed HTML.
   */
  function CreatePopupElement(popup: Popup): (r: Node)
    ensures r.ntype == ElementNode && r.data == "div" && |r.attrs| == 3
    ensures r.attrs[0] == Attr("id", "popup-" + UuidString(popup.id))
    ensures r.attrs[1] == Attr("class", "proxy-popup") && r.attrs[2] == Attr("style", "display: none;")
    ensures r.children == [Node(RawNode, popup.content, [], [])]
  {
    PopupContainer(popup, PopupElementId(popup))
  }

  /**
   * The container id as written never equals the id the injected script looks
   * for: position 6 holds '[' where the UUID text has a hex digit.
   */
  lemma PopupIdAsWrittenNeverMatchesScript(popup: Popup)
    ensures PopupElementIdAsWritten(popup) != "popup-" + UuidString(popup.id)
  {
    var a := PopupElementIdAsWritten(popup);
    var b := "popup-" + UuidString(popup.id);
    assert a[6] == '[';
    assert b[6] == UuidString(popup.id)[0] == HexBytes(popup.id[..4])[0] == HexDigit(popup.id[0] / 16);
  }

  lemma {:induction false} HexByteInjective(x: Byte, y: Byte)
    requires HexByte(x) == HexByte(y)
    ensures x == y
  {
    assert HexDigit(x / 16) == HexByte(x)[0] == HexByte(y)[0] == HexDigit(y / 16);
    assert HexDigit(x % 16) == HexByte(x)[1] == HexByte(y)[1] == HexDigit(y % 16);
  }

  lemma {:induction false} HexBytesInjective(xs: seq<Byte>, ys: seq<Byte>)
    requires |xs| == |ys| && HexBytes(xs) == HexBytes(ys)
    ensures xs == ys
    decreases |xs|
  {
    if |xs| > 0 {
      var hx, hy := HexBytes(xs), HexBytes(ys);
      assert hx == HexByte(xs[0]) + HexBytes(xs[1..]);
      assert hy == HexByte(ys[0]) + HexBytes(ys[1..]);
      assert hx[..2] == HexByte(xs[0]) && hy[..2] == HexByte(ys[0]);
      HexByteInjective(xs[0], ys[0]);
      assert hx[2..] == HexBytes(xs[1..]) && hy[2..] == HexBytes(ys[1..]);
      HexBytesInjective(xs[1..], ys[1..]);
      assert xs == [xs[0]] + xs[1..] && ys == [ys[0]] + ys[1..];
    }
  }

  /** The five hex groups of a UUID's text, each read back from its slice. */
  lemma UuidStringGroups(a: Uuid)
    ensures var s := UuidString(a);
      s[0..8] == HexBytes(a[..4]) && s[9..13] == HexBytes(a[4..6]) && s[14..18] == HexBytes(a[6..8])
      && s[19..23] == HexBytes(a[8..10]) && s[24..] == HexBytes(a[10..])
  {
  }

  /** A UUID's text determines the UUID. */
  lemma {:induction false} UuidStringInjective(a: Uuid, b: Uuid)
    requires UuidString(a) == UuidString(b)
    ensures a == b
  {
    UuidStringGroups(a);
    UuidStringGroups(b);
    HexBytesInjective(a[..4], b[..4]);
    HexBytesInjective(a[4..6], b[4..6]);
    HexBytesInjective(a[6..8], b[6..8]);
    HexBytesInjective(a[8..10], b[8..10]);
    HexBytesInjective(a[10..], b[10..]);
    assert a == a[..4] + a[4..6] + a[6..8] + a[8..10] + a[10..];
    assert b == b[..4] + b[4..6] + b[6..8] + b[8..10] + b[10..];
  }

  /** Distinct popups get distinct container ids. */
  lemma {:induction false} PopupElementIdInjective(p: Popup, q: Popup)
    requires PopupElementId(p) == PopupElementId(q)
    ensures p.id == q.id
  {
    var s, t := UuidString(p.id), UuidString(q.id);
    assert s == t by { assert s == PopupElementId(p)[6..] && t == PopupElementId(q)[6..]; }
    UuidStringInjective(p.id, q.id);
  }

  function Containers(popups: seq<Popup>): (r: seq<Node>)
    ensures |r| == |popups| && forall k :: 0 <= k < |popups| ==> r[k] == CreatePopupElement(popups[k])
  {
    seq(|popups|, k requires 0 <= k < |popups| => CreatePopupElement(popups[k]))
  }

  // ---------------------------------------------------------------------
  // Injection

  lemma {:induction false} AppendAtTwice(n: Node, p: Path, a: seq<Node>, b: seq<Node>)
    requires ValidPath(n, p)
    ensures ValidPath(AppendAt(n, p, a), p)
    ensures AppendAt(AppendAt(n, p, a), p, b) == AppendAt(n, p, a + b)
    decreases |p|
  {
    AppendAtSpec(n, p, a);
    if |p| == 0 {
      assert n.children + a + b == n.children + (a + b);
    } else {
      AppendAtTwice(n.children[p[0]], p[1..], a, b);
    }
  }

  /** injectBaseAssets: the style sheet and then the script, after <head>'s children. */
  function InjectBaseAssets(doc: Node, head: Path, cfg: ProxyConfig): Node
    requires ValidPath(doc, head)
  {
    AppendAt(doc, head, BaseAssets(cfg))
  }

  /**
   * injectInteractiveElements: with no database nothing happens; otherwise one
   * container per popup the query returned is appended to <body>, in query
   * order. `popups` is None when there is no database.
   */
  method InjectInteractiveElements(doc: Node, body: Path, popups: Option<seq<Popup>>) returns (out: Node)
    requires ValidPath(doc, body)
    ensures popups.None? ==> out == doc
    ensures popups.Some? ==> out == AppendAt(doc, body, Containers(popups.value))
  {
    if popups.None? {
      return doc;
    }
    var ps := popups.value;
    out := doc;
    var i := 0;
    AppendAtSpec(doc, body, []);
    assert doc.children + [] == doc.children;
    assert AppendAt(doc, body, []) == doc by { AppendAtEmpty(doc, body); }
    while i < |ps|
      invariant 0 <= i <= |ps|
      invariant out == AppendAt(doc, body, Containers(ps[..i]))
    {
      var container := CreatePopupElement(ps[i]);
      AppendAtTwice(doc, body, Containers(ps[..i]), [container]);
      ContainersSnoc(ps, i);
      AppendAtSpec(doc, body, Containers(ps[..i]));
      out := AppendAt(out, body, [container]);
      i := i + 1;
    }
    assert ps[..i] == ps;
  }

  lemma ContainersSnoc(ps: seq<Popup>, i: nat)
    requires i < |ps|
    ensures Containers(ps[..i]) + [CreatePopupElement(ps[i])] == Containers(ps[..i + 1])
  {
    var a, b := Containers(ps[..i]) + [CreatePopupElement(ps[i])], Containers(ps[..i + 1]);
    forall k | 0 <= k < |b| ensures a[k] == b[k] {
      assert ps[..i + 1][k] == ps[k];
    }
  }

  lemma {:induction false} AppendAtEmpty(n: Node, p: Path)
    requires ValidPath(n, p)
    ensures AppendAt(n, p, []) == n
    decreases |p|
  {
    if |p| == 0 {
      assert n.children + [] == n.children;
    } else {
      AppendAtEmpty(n.children[p[0]], p[1..]);
      assert n.children[p[0] := n.children[p[0]]] == n.children;
    }
  }

  /** The document after injectCustomContent. */
  function Injected(doc: Node, cfg: ProxyConfig, popups: Option<seq<Popup>>): Node {
    match FirstMatch(doc, "head")
    case None => doc
    case Some(head) =>
      FirstMatchSpec(doc, "head");
      var withAssets := InjectBaseAssets(doc, head, cfg);
      match FirstMatch(withAssets, "body")
      case None => withAssets
      case Some(body) =>
        FirstMatchSpec(withAssets, "body");
        if popups.None? then withAssets else AppendAt(withAssets, body, Containers(popups.value))
  }

  /**
   * injectCustomContent: without <head> the page is left alone; otherwise the
   * assets go into the first <head>, and then, when there is a <body>, the popup
   * containers into the first <body>.
   */
  method InjectCustomContent(doc: Node, cfg: ProxyConfig, popups: Option<seq<Popup>>) returns (out: Node)
    ensures out == Injected(doc, cfg, popups)
  {
    var head := FindNode(doc, "head");
    if head.None? {
      return doc;
    }
    out := InjectBaseAssets(doc, head.value, cfg);
    var body := FindNode(out, "body");
    if body.None? {
      return;
    }
    out := InjectInteractiveElements(out, body.value, popups);
  }

  // ---------------------------------------------------------------------
  // What injection does to the document

  lemma {:induction false} ExtendsAt(n: Node, r: Node, q: Path)
    requires Extends(n, r) && ValidPath(n, q)
    ensures ValidPath(r, q) && Extends(At(n, q), At(r, q))
    decreases |q|
  {
    if |q| > 0 { ExtendsAt(n.children[q[0]], r.children[q[0]], q[1..]); }
  }

  lemma {:induction false} ExtendsTrans(a: Node, b: Node, c: Node)
    requires Extends(a, b) && Extends(b, c)
    ensures Extends(a, c)
    decreases a
  {
    forall i | 0 <= i < |a.children| ensures Extends(a.children[i], c.children[i]) {
      ExtendsTrans(a.children[i], b.children[i], c.children[i]);
    }
  }

  ghost predicate NoneMatch(ns: seq<Node>, tagName: string) {
    forall j, rest :: 0 <= j < |ns| && ValidPath(ns[j], rest) ==> !Matches(At(ns[j], rest), tagName)
  }

  /** A path that is new after AppendAt runs through one of the appended nodes. */
  lemma {:induction false} AppendAtNewPath(n: Node, p: Path, extra: seq<Node>, q: Path)
    requires ValidPath(n, p) && ValidPath(AppendAt(n, p, extra), q) && !ValidPath(n, q)
    ensures exists j, rest :: 0 <= j < |extra| && ValidPath(extra[j], rest) && At(AppendAt(n, p, extra), q) == At(extra[j], rest)
    decreases |p|
  {
    var r := AppendAt(n, p, extra);
    if |p| == 0 {
      var j := q[0] - |n.children|;
      assert r.children[q[0]] == extra[j];
      assert ValidPath(extra[j], q[1..]) && At(r, q) == At(extra[j], q[1..]);
    } else if q[0] == p[0] {
      AppendAtNewPath(n.children[p[0]], p[1..], extra, q[1..]);
    } else {
      assert false;
    }
  }

  /**
   * Appending nodes that hold no `tagName` element does not change which
   * `tagName` element FindNode finds.
   */
  lemma {:induction false} AppendAtKeepsFirstMatch(n: Node, p: Path, extra: seq<Node>, tagName: string)
    requires ValidPath(n, p) && NoneMatch(extra, tagName)
    ensures FirstMatch(AppendAt(n, p, extra), tagName) == FirstMatch(n, tagName)
  {
    var r := AppendAt(n, p, extra);
    AppendAtSpec(n, p, extra);
    FirstMatchSpec(n, tagName);
    FirstMatchSpec(r, tagName);
    // The matching paths of r are exactly those of n.
    forall q | ValidPath(r, q) && Matches(At(r, q), tagName) ensures ValidPath(n, q) && Matches(At(n, q), tagName) {
      if !ValidPath(n, q) {
        AppendAtNewPath(n, p, extra, q);
        assert false;
      }
      ExtendsAt(n, r, q);
    }
    forall q | ValidPath(n, q) && Matches(At(n, q), tagName) ensures ValidPath(r, q) && Matches(At(r, q), tagName) {
      ExtendsAt(n, r, q);
    }
    if FirstMatch(n, tagName).None? {
      forall q | ValidPath(r, q) ensures !Matches(At(r, q), tagName) {
        if ValidPath(n, q) {
          ExtendsAt(n, r, q);
          assert !Matches(At(n, q), tagName);
        } else {
          AppendAtNewPath(n, p, extra, q);
          var j, rest :| 0 <= j < |extra| && ValidPath(extra[j], rest) && At(r, q) == At(extra[j], rest);
          assert !Matches(At(extra[j], rest), tagName);
        }
      }
    } else {
      var a := FirstMatch(n, tagName).value;
      ExtendsAt(n, r, a);
      FirstMatchFinds(r, tagName, a);
      var b := FirstMatch(r, tagName).value;
      assert ValidPath(n, b) && Matches(At(n, b), tagName);
      FirstMatchFinds(n, tagName, b);
      assert a == b by {
        if a != b {
          BeforeAsymmetric(a, b);
          assert false;
        }
      }
    }
  }

  lemma {:induction false} BeforeAsymmetric(p: Path, q: Path)
    requires Before(p, q)
    ensures !Before(q, p)
    decreases |p|
  {
    if |p| > 0 && p[0] == q[0] { BeforeAsymmetric(p[1..], q[1..]); }
  }

  lemma {:induction false} AssetsHoldNoBody(cfg: ProxyConfig)
    ensures NoneMatch(BaseAssets(cfg), "body")
  {
    forall j, rest | 0 <= j < 2 && ValidPath(BaseAssets(cfg)[j], rest) ensures !Matches(At(BaseAssets(cfg)[j], rest), "body") {
      if |rest| > 0 {
        assert |rest| == 1 || ValidPath(BaseAssets(cfg)[j].children[0], rest[1..]);
      }
    }
  }

  /**
   * injectCustomContent only appends: every node of the page keeps its place,
   * type, tag and attributes. With a <head> it appends the style sheet and the
   * script to the first <head>; the popup containers, in query order, go after
   * the existing children of the first <body> of the original page.
   */
  lemma InjectedSpec(doc: Node, cfg: ProxyConfig, popups: Option<seq<Popup>>)
    ensures Extends(doc, Injected(doc, cfg, popups))
    ensures FirstMatch(doc, "head").None? ==> Injected(doc, cfg, popups) == doc
    ensures FirstMatch(doc, "head").Some? ==>
      var head := FirstMatch(doc, "head").value;
      var withAssets := InjectBaseAssets(doc, head, cfg);
      FirstMatch(withAssets, "body") == FirstMatch(doc, "body")
      && ValidPath(withAssets, head)
      && At(withAssets, head).children == At(doc, head).children + BaseAssets(cfg)
      && (FirstMatch(doc, "body").None? || popups.None? ==> Injected(doc, cfg, popups) == withAssets)
      && (FirstMatch(doc, "body").Some? && popups.Some? ==>
            var body := FirstMatch(doc, "body").value;
            ValidPath(withAssets, body)
            && Injected(doc, cfg, popups) == AppendAt(withAssets, body, Containers(popups.value))
            && ValidPath(Injected(doc, cfg, popups), body)
            && At(Injected(doc, cfg, popups), body).children == At(withAssets, body).children + Containers(popups.value))
  {
    FirstMatchSpec(doc, "head");
    if FirstMatch(doc, "head").None? {
      ExtendsRefl(doc);
    } else {
      var head := FirstMatch(doc, "head").value;
      var withAssets := InjectBaseAssets(doc, head, cfg);
      AppendAtSpec(doc, head, BaseAssets(cfg));
      AssetsHoldNoBody(cfg);
      AppendAtKeepsFirstMatch(doc, head, BaseAssets(cfg), "body");
      FirstMatchSpec(withAssets, "body");
      if FirstMatch(withAssets, "body").Some? && popups.Some? {
        var body := FirstMatch(withAssets, "body").value;
        AppendAtSpec(withAssets, body, Containers(popups.value));
        ExtendsTrans(doc, withAssets, Injected(doc, cfg, popups));
      }
    }
  }

  // ---------------------------------------------------------------------
  // ProcessHTML

  /** The page as it is rendered again: injection first, then link rewriting. */
  function Transformed(doc: Node, cfg: ProxyConfig, popups: Option<seq<Popup>>, parseUrl: UrlParser): Node {
    UrlRewriter.RewriteTree(Injected(doc, cfg, popups), cfg, parseUrl)
  }

  /** html.Parse and html.Render, which the model does not define. */
  type HtmlParse = seq<Byte> -> Option<Node>
  type HtmlRender = Node -> Option<seq<Byte>>

  /**
   * ProcessHTML: a page that does not parse, or whose transformed tree does
   * not render, is returned unchanged together with the error; otherwise the
   * rendering of the transformed tree is returned.
   */
  method ProcessHTML(body: seq<Byte>, cfg: ProxyConfig, popups: Option<seq<Popup>>,
                     parseUrl: UrlParser, parseHtml: HtmlParse, render: HtmlRender)
    returns (out: seq<Byte>, ok: bool)
    ensures parseHtml(body).None? ==> out == body && !ok
    ensures parseHtml(body).Some? ==>
      var rendered := render(Transformed(parseHtml(body).value, cfg, popups, parseUrl));
      (rendered.None? ==> out == body && !ok) && (rendered.Some? ==> out == rendered.value && ok)
  {
    var doc := parseHtml(body);
    if doc.None? {
      return body, false;
    }
    var injected := InjectCustomContent(doc.value, cfg, popups);
    var rewritten := UrlRewriter.RewriteURLs(injected, cfg, parseUrl);
    var buf := render(rewritten);
    if buf.None? {
      return body, false;
    }
    return buf.value, true;
  }

  /**
   * Link rewriting leaves the injected nodes as they were: the style and script
   * elements carry no src or href, and popup containers are divs.
   */
  lemma InjectedNodesSurviveRewriting(cfg: ProxyConfig, popup: Popup, parseUrl: UrlParser)
    ensures UrlRewriter.RewriteTree(StyleElement(), cfg, parseUrl) == StyleElement()
    ensures UrlRewriter.RewriteTree(ScriptElement(cfg), cfg, parseUrl) == ScriptElement(cfg)
    ensures UrlRewriter.RewriteTree(CreatePopupElement(popup), cfg, parseUrl) == CreatePopupElement(popup)
  {
    StyleSurvives(cfg, parseUrl);
    ScriptSurvives(cfg, parseUrl);
    PopupSurvives(cfg, popup, parseUrl);
  }

  /** A childless node the visitor leaves alone is left alone by the whole rewrite. */
  lemma LeafSurvives(n: Node, cfg: ProxyConfig, parseUrl: UrlParser)
    requires n.children == [] && UrlRewriter.RewriteNode(n, cfg, parseUrl) == n
    ensures UrlRewriter.RewriteTree(n, cfg, parseUrl) == n
  {
  }

  /** A node with one such child, itself left alone, survives too. */
  lemma ParentSurvives(n: Node, cfg: ProxyConfig, parseUrl: UrlParser)
    requires |n.children| == 1 && UrlRewriter.RewriteNode(n, cfg, parseUrl) == n
    requires n.children[0].children == [] && UrlRewriter.RewriteNode(n.children[0], cfg, parseUrl) == n.children[0]
    ensures UrlRewriter.RewriteTree(n, cfg, parseUrl) == n
  {
    LeafSurvives(n.children[0], cfg, parseUrl);
    assert UrlRewriter.RewriteTree(n, cfg, parseUrl).children == [n.children[0]];
  }

  lemma StyleSurvives(cfg: ProxyConfig, parseUrl: UrlParser)
    ensures UrlRewriter.RewriteTree(StyleElement(), cfg, parseUrl) == StyleElement()
  {
    ParentSurvives(StyleElement(), cfg, parseUrl);
  }

  lemma ScriptSurvives(cfg: ProxyConfig, parseUrl: UrlParser)
    ensures UrlRewriter.RewriteTree(ScriptElement(cfg), cfg, parseUrl) == ScriptElement(cfg)
  {
    var s := ScriptElement(cfg);
    assert UrlRewriter.FirstKey(s.attrs, "src") == -1 by {
      assert s.attrs[1..] == [];
    }
    ParentSurvives(s, cfg, parseUrl);
  }

  lemma PopupSurvives(cfg: ProxyConfig, popup: Popup, parseUrl: UrlParser)
    ensures UrlRewriter.RewriteTree(CreatePopupElement(popup), cfg, parseUrl) == CreatePopupElement(popup)
  {
    ParentSurvives(CreatePopupElement(popup), cfg, parseUrl);
  }
}
