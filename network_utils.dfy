/**
 * pkg/utils/network_utils.go: the shared network helpers. GetClientIP reads
 * the forwarding headers in a fixed order and falls back to the host part of
 * the peer address; NormalizeURL gives a parsed URL a default scheme, a
 * lower-case host and no default port; IsLocalhost names the loopback hosts.
 */
module NetworkUtils {
  import opened Common
  import opened Models
  import opened Http

  // ---------------------------------------------------------------------
  // net.SplitHostPort

  /**
   * net.SplitHostPort: the port starts after the last colon. A host that
   * starts with '[' must be closed by the first ']' standing just before that
   * colon; any other host may hold no colon. No '[' may follow the opening
   * one and no ']' the closing one. None is the error result.
   */
  function SplitHostPort(s: string): Option<(string, string)> {
    var i := LastIndexOfChar(s, ':');
    if i < 0 then None
    else if s[0] == '[' then
      var end := IndexOfChar(s, ']');
      if end < 0 || end + 1 != i then None
      else if IndexOfChar(s[1..], '[') >= 0 || IndexOfChar(s[end + 1..], ']') >= 0 then None
      else Some((s[1..end], s[i + 1..]))
    else
      var host := s[..i];
      if IndexOfChar(host, ':') >= 0 then None
      else if IndexOfChar(s, '[') >= 0 || IndexOfChar(s, ']') >= 0 then None
      else Some((host, s[i + 1..]))
  }

  /**
   * What a successful split returns: a port without colons, and the input
   * put back together from host and port, with the brackets when it opened
   * with one; an input without a colon never splits.
   */
  lemma SplitHostPortShape(s: string)
    ensures Free(s, ':') ==> SplitHostPort(s).None?
    ensures SplitHostPort(s).Some? ==> Free(SplitHostPort(s).value.1, ':')
    ensures SplitHostPort(s).Some? && (|s| == 0 || s[0] != '[') ==>
      s == SplitHostPort(s).value.0 + ":" + SplitHostPort(s).value.1 && Free(SplitHostPort(s).value.0, ':')
    ensures SplitHostPort(s).Some? && |s| > 0 && s[0] == '[' ==>
      s == "[" + SplitHostPort(s).value.0 + "]:" + SplitHostPort(s).value.1
  {
    var i := LastIndexOfChar(s, ':');
    if i >= 0 && SplitHostPort(s).Some? {
      PortAfterLastColon(s, i);
      if s[0] == '[' {
        BracketShape(s, IndexOfChar(s, ']'), i);
      } else {
        PlainShape(s, i);
      }
    }
  }

  /** Nothing after the last colon is a colon. */
  lemma PortAfterLastColon(s: string, i: int)
    requires 0 <= i < |s| && forall j :: i < j < |s| ==> s[j] != ':'
    ensures Free(s[i + 1..], ':')
  {
    var t := s[i + 1..];
    assert forall j :: 0 <= j < |t| ==> t[j] == s[i + 1 + j];
  }

  lemma BracketShape(s: string, end: int, i: int)
    requires 0 < end && end + 1 == i < |s| && s[0] == '[' && s[end] == ']' && s[i] == ':'
    ensures s == "[" + s[1..end] + "]:" + s[i + 1..]
  {
    assert s == s[..1] + s[1..end] + s[end..i + 1] + s[i + 1..];
  }

  lemma PlainShape(s: string, i: int)
    requires 0 <= i < |s| && s[i] == ':'
    ensures s == s[..i] + ":" + s[i + 1..]
  {
    assert s == s[..i] + s[i..i + 1] + s[i + 1..];
  }

  /** A plain "host:port" splits back into its host and port. */
  lemma SplitHostPortPlain(host: string, port: string)
    requires Free(host, ':') && Free(host, '[') && Free(host, ']')
    requires Free(port, ':') && Free(port, '[') && Free(port, ']')
    ensures SplitHostPort(host + ":" + port) == Some((host, port))
  {
    var s := host + ":" + port;
    assert s[|host|] == ':';
    assert forall j :: 0 <= j < |host| ==> s[j] == host[j];
    assert forall j :: |host| < j < |s| ==> s[j] == port[j - |host| - 1];
    assert LastIndexOfChar(s, ':') == |host|;
    assert s[..|host|] == host && s[|host| + 1..] == port;
  }

  /** A bracketed "[host]:port", as IPv6 addresses are written, yields the host without brackets. */
  lemma SplitHostPortBracketed(host: string, port: string)
    requires Free(host, '[') && Free(host, ']')
    requires Free(port, ':') && Free(port, '[') && Free(port, ']')
    ensures SplitHostPort("[" + host + "]:" + port) == Some((host, port))
  {
    var s := "[" + host + "]:" + port;
    var end := |host| + 1;
    assert s[0] == '[' && s[end] == ']' && s[end + 1] == ':';
    assert forall j :: 1 <= j < end ==> s[j] == host[j - 1];
    assert forall j :: end + 1 < j < |s| ==> s[j] == port[j - end - 2];
    assert LastIndexOfChar(s, ':') == end + 1;
    assert IndexOfChar(s, ']') == end;
    assert s[1..] == host + "]:" + port;
    assert IndexOfChar(s[1..], '[') == -1;
    assert IndexOfChar(s[end + 1..], ']') == -1 by {
      assert s[end + 1..] == ":" + port;
    }
    assert s[1..end] == host && s[end + 2..] == port;
  }

  // ---------------------------------------------------------------------
  // GetClientIP

  /**
   * GetClientIP: the first X-Forwarded-For entry when it is non-empty after
   * trimming, else X-Real-IP, else X-Forwarded, else the host part of
   * RemoteAddr, or RemoteAddr itself when it does not split.
   */
  function GetClientIP(r: InboundRequest): (ip: string)
    ensures TrimSpace(FirstField(Get(r.header, ForwardedForKey), ',')) != "" ==>
      ip == TrimSpace(FirstField(Get(r.header, ForwardedForKey), ','))
    ensures TrimSpace(FirstField(Get(r.header, ForwardedForKey), ',')) == "" && Get(r.header, RealIpKey) != "" ==>
      ip == Get(r.header, RealIpKey)
    ensures (TrimSpace(FirstField(Get(r.header, ForwardedForKey), ',')) == "" && Get(r.header, RealIpKey) == ""
      && Get(r.header, ForwardedKey) != "") ==> ip == Get(r.header, ForwardedKey)
    ensures (TrimSpace(FirstField(Get(r.header, ForwardedForKey), ',')) == "" && Get(r.header, RealIpKey) == ""
      && Get(r.header, ForwardedKey) == "") ==>
      (ip == if SplitHostPort(r.remoteAddr).Some? then SplitHostPort(r.remoteAddr).value.0 else r.remoteAddr)
  {
    var xff := Get(r.header, ForwardedForKey);
    var first := if xff != "" then TrimSpace(Split(xff, ',')[0]) else "";
    if first != "" then first
    else
      var xri := Get(r.header, RealIpKey);
      if xri != "" then xri
      else
        var xf := Get(r.header, ForwardedKey);
        if xf != "" then xf
        else
          match SplitHostPort(r.remoteAddr)
          case Some((host, _)) => host
          case None => r.remoteAddr
  }

  /** With no forwarding headers set, GetClientIP reads the peer address. */
  predicate NoForwarding(h: Header) {
    Get(h, ForwardedForKey) == "" && Get(h, RealIpKey) == "" && Get(h, ForwardedKey) == ""
  }

  /**
   * With no forwarding headers, an address without a port comes back whole,
   * "host:port" gives the host and "[v6]:port" the address inside the
   * brackets.
   */
  lemma ClientIPFromRemoteAddr(r: InboundRequest, host: string, port: string)
    requires NoForwarding(r.header)
    requires Free(host, '[') && Free(host, ']') && Free(port, ':') && Free(port, '[') && Free(port, ']')
    ensures Free(r.remoteAddr, ':') ==> GetClientIP(r) == r.remoteAddr
    ensures r.remoteAddr == host + ":" + port && Free(host, ':') ==> GetClientIP(r) == host
    ensures r.remoteAddr == "[" + host + "]:" + port ==> GetClientIP(r) == host
  {
    assert TrimSpace(FirstField("", ',')) == "";
    if r.remoteAddr == host + ":" + port && Free(host, ':') {
      SplitHostPortPlain(host, port);
    }
    if r.remoteAddr == "[" + host + "]:" + port {
      SplitHostPortBracketed(host, port);
    }
  }

  /** An X-Forwarded-For whose first entry is blank is passed over, unlike the proxy's own reading. */
  lemma BlankForwardedForFallsThrough(r: InboundRequest)
    requires Get(r.header, ForwardedForKey) == ","
    requires Get(r.header, RealIpKey) == "10.0.0.1"
    ensures GetClientIP(r) == "10.0.0.1"
  {
    assert Split(",", ',')[0] == "";
  }

  // ---------------------------------------------------------------------
  // NormalizeURL

  /** The scheme NormalizeURL settles on. */
  function NormalizedScheme(scheme: string): (r: string)
    ensures scheme != "" ==> r == scheme
    ensures r != ""
  {
    if scheme == "" then "http" else scheme
  }

  /** Cutting at the last colon removes exactly a colon-led, colon-free suffix. */
  lemma CutAtLastColon(h: string, suffix: string)
    requires EndsWith(h, suffix) && PortSuffix(suffix)
    ensures LastIndexOfChar(h, ':') == |h| - |suffix|
    ensures h[..|h| - |suffix|] + suffix == h
  {
    var n := |h| - |suffix|;
    assert h[n..] == suffix;
    assert h[n] == ':';
    forall j | n < j < |h| ensures h[j] != ':' {
      assert h[j] == suffix[1..][j - n - 1];
    }
    assert h[..n] + h[n..] == h;
  }

  lemma LowerHasNoUpper(s: string)
    ensures forall k :: 0 <= k < |ToLowerAscii(s)| ==> !IsAsciiUpper(ToLowerAscii(s)[k])
  {
    forall k | 0 <= k < |s| ensures !IsAsciiUpper(ToLowerAscii(s)[k]) {
      assert ToLowerAscii(s)[k] == LowerChar(s[k]);
    }
  }

  /**
   * The host NormalizeURL settles on: lower-cased, then cut at its last
   * colon when that leaves off exactly the scheme's default port.
   */
  function NormalizedHost(scheme: string, host: string): (r: string)
    ensures forall k :: 0 <= k < |r| ==> !IsAsciiUpper(r[k])
    ensures scheme == "http" && EndsWith(ToLowerAscii(host), ":80") ==> r + ":80" == ToLowerAscii(host)
    ensures scheme == "https" && EndsWith(ToLowerAscii(host), ":443") ==> r + ":443" == ToLowerAscii(host)
    ensures (!(scheme == "http" && EndsWith(ToLowerAscii(host), ":80"))
      && !(scheme == "https" && EndsWith(ToLowerAscii(host), ":443"))) ==> r == ToLowerAscii(host)
  {
    var h := ToLowerAscii(host);
    LowerHasNoUpper(host);
    DefaultPortsArePorts();
    if scheme == "http" && EndsWith(h, ":80") then StripPort(h, ":80")
    else if scheme == "https" && EndsWith(h, ":443") then StripPort(h, ":443")
    else h
  }

  /** Both default-port suffixes are a colon and colon-free digits. */
  lemma DefaultPortsArePorts()
    ensures PortSuffix(":80") && PortSuffix(":443")
  {
    assert ":80"[1..] == "80" && ":443"[1..] == "443";
  }

  predicate PortSuffix(suffix: string) {
    |suffix| >= 1 && suffix[0] == ':' && Free(suffix[1..], ':')
  }

  /** The host before its last colon, when that colon starts the given port suffix. */
  function StripPort(h: string, suffix: string): (r: string)
    requires EndsWith(h, suffix) && PortSuffix(suffix)
    requires forall k :: 0 <= k < |h| ==> !IsAsciiUpper(h[k])
    ensures r + suffix == h
    ensures forall k :: 0 <= k < |r| ==> !IsAsciiUpper(r[k])
  {
    CutAtLastColon(h, suffix);
    h[..LastIndexOfChar(h, ':')]
  }

  /**
   * NormalizeURL: the parse result with the scheme defaulted and the host
   * normalized, each field reassigned in turn; url.Parse and the final
   * u.String() are library code, so the parsed and the returned URL are
   * values.
   */
  method NormalizeURL(rawURL: string, parseUrl: UrlParser) returns (r: Result<Url>)
    ensures parseUrl(rawURL).None? <==> r.Err?
    ensures r.Ok? ==> r.value == parseUrl(rawURL).value.(
      scheme := NormalizedScheme(parseUrl(rawURL).value.scheme),
      host := NormalizedHost(NormalizedScheme(parseUrl(rawURL).value.scheme), parseUrl(rawURL).value.host))
  {
    var parsed := parseUrl(rawURL);
    if parsed.None? {
      return Err("invalid URL");
    }
    var u := parsed.value;
    if u.scheme == "" {
      u := u.(scheme := "http");
    }
    u := u.(host := ToLowerAscii(u.host));
    if (u.scheme == "http" && EndsWith(u.host, ":80")) || (u.scheme == "https" && EndsWith(u.host, ":443")) {
      DefaultPortsArePorts();
      if u.scheme == "http" {
        CutAtLastColon(u.host, ":80");
      } else {
        CutAtLastColon(u.host, ":443");
      }
      u := u.(host := u.host[..LastIndexOfChar(u.host, ':')]);
    }
    r := Ok(u);
  }

  /** A scheme-less URL gets the http default port stripped, and only that one. */
  lemma DefaultPortFollowsScheme(host: string)
    ensures NormalizedHost(NormalizedScheme(""), host + ":80") == ToLowerAscii(host)
    ensures NormalizedHost("https", host + ":80") == ToLowerAscii(host + ":80")
    ensures NormalizedHost("http", host + ":443") == ToLowerAscii(host + ":443")
  {
    var h := host + ":80";
    var l := ToLowerAscii(h);
    assert l[|l| - 3..] == ":80";
    assert l[..|host|] == ToLowerAscii(host);
    var g := host + ":443";
    var m := ToLowerAscii(g);
    assert m[|m| - 3..] == "443";
  }

  // ---------------------------------------------------------------------
  // IsLocalhost

  const LoopbackHosts: set<string> := {"localhost", "127.0.0.1", "::1"}

  /** IsLocalhost: an exact match against the three loopback spellings. */
  function IsLocalhost(host: string): (b: bool)
    ensures b <==> host in LoopbackHosts
  {
    host == "localhost" || host == "127.0.0.1" || host == "::1"
  }

  /** The match is exact: case and brackets are not normalized away. */
  lemma IsLocalhostIsExact()
    ensures !IsLocalhost("LOCALHOST") && !IsLocalhost("[::1]") && !IsLocalhost("127.0.0.1:80")
  {
  }
}
