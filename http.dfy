/**
 * The part of net/http the proxy core touches: header maps, the inbound and
 * outbound requests, the upstream response, and the ResponseWriter a handler
 * writes its status, headers and body to.
 */
module Http {
  import opened Common

  /**
   * http.Header with canonical keys (net/http canonicalises keys when it
   * parses a message and in Add/Set/Get, so "X-Real-IP" is stored as
   * "X-Real-Ip").
   */
  type Header = map<string, seq<string>>

  const HostKey := "Host"
  const ForwardedForKey := "X-Forwarded-For"
  const ForwardedProtoKey := "X-Forwarded-Proto"
  const RealIpKey := "X-Real-Ip"
  const ForwardedKey := "X-Forwarded"
  const ContentTypeKey := "Content-Type"
  const ContentLengthKey := "Content-Length"
  const UserAgentKey := "User-Agent"
  const AuthorizationKey := "Authorization"

  /** Header.Get: the first value, or "". */
  function Get(h: Header, key: string): (v: string)
    ensures key !in h || |h[key]| == 0 ==> v == ""
    ensures key in h && |h[key]| > 0 ==> v == h[key][0]
  {
    if key in h && |h[key]| > 0 then h[key][0] else ""
  }

  /** Header.Add: one more value at the end of the key's list. */
  function Add(h: Header, key: string, value: string): (r: Header)
    ensures r.Keys == h.Keys + {key}
    ensures r[key] == (if key in h then h[key] else []) + [value]
    ensures forall k :: k in h && k != key ==> r[k] == h[k]
  {
    h[key := (if key in h then h[key] else []) + [value]]
  }

  /** The headers a copy loop that skips `skip` produces: a key with no values never appears. */
  function Filtered(src: Header, skip: string -> bool): (r: Header)
    ensures forall k :: k in r <==> k in src && !skip(k) && |src[k]| > 0
    ensures forall k :: k in r ==> r[k] == src[k]
  {
    map k | k in src && !skip(k) && |src[k]| > 0 :: src[k]
  }

  /**
   * The loop `for key, values := range src { if skip(key) { continue };
   * for _, v := range values { dst.Add(key, v) } }` on an empty dst, in
   * whatever order the map yields its keys.
   */
  method CopyHeaders(src: Header, skip: string -> bool) returns (dst: Header)
    ensures dst == Filtered(src, skip)
  {
    dst := map[];
    var todo := src.Keys;
    while todo != {}
      invariant todo <= src.Keys
      invariant dst == Copied(src, skip, src.Keys - todo)
      decreases todo
    {
      var key :| key in todo;
      var base := dst;
      if !skip(key) {
        var values := src[key];
        var j := 0;
        while j < |values|
          invariant 0 <= j <= |values|
          invariant dst == if j == 0 then base else base[key := values[..j]]
        {
          assert values[..j + 1] == values[..j] + [values[j]];
          dst := Add(dst, key, values[j]);
          j := j + 1;
        }
        assert values[..j] == values;
      }
      CopiedStep(src, skip, src.Keys - todo, key);
      assert src.Keys - (todo - {key}) == (src.Keys - todo) + {key};
      todo := todo - {key};
    }
    assert dst == Filtered(src, skip);
  }

  /** The headers copied once the keys in `done` have been visited. */
  ghost function Copied(src: Header, skip: string -> bool, done: set<string>): Header
    requires done <= src.Keys
  {
    map k | k in done && !skip(k) && |src[k]| > 0 :: src[k]
  }

  /** Visiting one more key adds its values, unless it is skipped or has none. */
  lemma CopiedStep(src: Header, skip: string -> bool, done: set<string>, key: string)
    requires done <= src.Keys && key in src && key !in done
    ensures var before := Copied(src, skip, done);
      Copied(src, skip, done + {key}) ==
        if skip(key) || |src[key]| == 0 then before else before[key := src[key]]
  {
  }

  /** The incoming request as the handler sees it. */
  datatype InboundRequest = InboundRequest(
    httpMethod: string,
    host: string,        // r.Host
    path: string,        // r.URL.Path
    rawQuery: string,    // r.URL.RawQuery
    urlText: string,     // r.URL.String()
    header: Header,
    remoteAddr: string,
    tls: bool,           // r.TLS != nil
    body: seq<Byte>)     // r.Body, forwarded as it is

  /** The request sent upstream, carrying the inbound body. */
  datatype OutboundRequest = OutboundRequest(httpMethod: string, url: string, host: string, header: Header, body: seq<Byte>)

  /**
   * A status code as net/http's client delivers it: three digits, which is
   * also the range ResponseWriter.WriteHeader accepts.
   */
  type StatusCode = c: int | 100 <= c <= 999 witness 200

  /**
   * The upstream response: status, headers, and the outcome of reading the
   * whole body (io.ReadAll), None for a read error.
   */
  datatype UpstreamResponse = UpstreamResponse(status: StatusCode, header: Header, body: Option<seq<Byte>>)

  /** The bytes of an ASCII text. */
  function AsciiBytes(s: string): (r: seq<Byte>)
    requires IsAscii(s)
    ensures |r| == |s| && forall k :: 0 <= k < |s| ==> r[k] == s[k] as int
  {
    seq(|s|, k requires 0 <= k < |s| => s[k] as int)
  }

  lemma AsciiLine(msg: string)
    requires IsAscii(msg)
    ensures IsAscii(msg + "\n")
  {
    forall k | 0 <= k < |msg + "\n"| ensures (msg + "\n")[k] as int < 128 {
      if k < |msg| { assert (msg + "\n")[k] == msg[k]; }
    }
  }

  /**
   * http.ResponseWriter: the header map, the status once WriteHeader ran (0
   * before), and the body bytes written. Only the first WriteHeader counts, a
   * status outside 100..999 is refused (net/http panics), and Write without
   * a WriteHeader sends 200.
   */
  class ResponseWriter {
    var header: Header
    var status: int
    var body: seq<Byte>

    constructor ()
      ensures header == map[] && status == 0 && body == []
    {
      header, status, body := map[], 0, [];
    }

    method AddHeader(key: string, value: string)
      modifies this
      ensures header == Add(old(header), key, value) && status == old(status) && body == old(body)
    {
      header := Add(header, key, value);
    }

    method SetHeader(key: string, value: string)
      modifies this
      ensures header == old(header)[key := [value]] && status == old(status) && body == old(body)
    {
      header := header[key := [value]];
    }

    method DelHeader(key: string)
      modifies this
      ensures header == old(header) - {key} && status == old(status) && body == old(body)
    {
      header := header - {key};
    }

    method WriteHeader(code: int)
      requires 100 <= code <= 999
      modifies this
      ensures status == (if old(status) == 0 then code else old(status))
      ensures header == old(header) && body == old(body)
    {
      if status == 0 {
        status := code;
      }
    }

    method Write(data: seq<Byte>)
      modifies this
      ensures status == (if old(status) == 0 then 200 else old(status))
      ensures header == old(header) && body == old(body) + data
    {
      if status == 0 {
        status := 200;
      }
      body := body + data;
    }
  }

  /** http.Error: a plain-text body holding the message and a newline, with the given status. */
  method Error(w: ResponseWriter, msg: string, code: int)
    requires IsAscii(msg) && 100 <= code <= 999
    modifies w
    ensures w.header == (old(w.header) - {ContentLengthKey})[ContentTypeKey := ["text/plain; charset=utf-8"]]["X-Content-Type-Options" := ["nosniff"]]
    ensures w.status == (if old(w.status) == 0 then code else old(w.status))
    ensures w.body == old(w.body) + AsciiBytes(msg + "\n")
  {
    AsciiLine(msg);
    w.DelHeader(ContentLengthKey);
    w.SetHeader(ContentTypeKey, "text/plain; charset=utf-8");
    w.SetHeader("X-Content-Type-Options", "nosniff");
    w.WriteHeader(code);
    w.Write(AsciiBytes(msg + "\n"));
  }
}
