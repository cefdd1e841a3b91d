/**
 * web/src/views/proxy/utils/proxyUtils.ts: the display helpers of the proxy
 * pages (tag colours and captions for proxy types and states) and the three
 * input validators (IPv4 address, domain name, port).
 */
module ProxyUtils {
  import opened Common

  /** The Element Plus tag types. */
  const TagTypes: set<string> := {"success", "info", "warning", "danger", "primary"}

  /**
   * getTypeTagType: the table's entry, or "info" where the lookup is
   * undefined; every entry is a non-empty string, so `||` falls back only
   * for a missing key.
   */
  function TypeTagType(proxyType: string): (r: string)
    ensures r in TagTypes
    ensures r == "primary" <==> proxyType == "http"
    ensures r == "success" <==> proxyType == "https"
    ensures r == "warning" <==> proxyType == "socks5"
    ensures proxyType !in {"http", "https", "socks5"} <==> r == "info"
  {
    var typeMap := map["http" := "primary", "https" := "success", "socks5" := "warning"];
    if proxyType in typeMap then typeMap[proxyType] else "info"
  }

  const StatusActive := "active"
  const StatusInactive := "inactive"
  const StatusError := "error"
  const StatusTesting := "testing"
  const Statuses: set<string> := {StatusActive, StatusInactive, StatusError, StatusTesting}

  /** getStatusTagType: the table's entry, or "info" for any other status. */
  function StatusTagType(status: string): (r: string)
    ensures r in TagTypes && r != "primary"
    ensures r == "success" <==> status == StatusActive
    ensures r == "danger" <==> status == StatusError
    ensures r == "warning" <==> status == StatusTesting
    ensures r == "info" <==> status !in {StatusActive, StatusError, StatusTesting}
  {
    var statusMap := map[StatusActive := "success", StatusInactive := "info",
                         StatusError := "danger", StatusTesting := "warning"];
    if status in statusMap then statusMap[status] else "info"
  }

  const TextActive := "\U{6D3B}\U{8DC3}"
  const TextInactive := "\U{672A}\U{6FC0}\U{6D3B}"
  const TextError := "\U{9519}\U{8BEF}"
  const TextTesting := "\U{6D4B}\U{8BD5}\U{4E2D}"
  const TextUnknown := "\U{672A}\U{77E5}"

  /** getStatusText: the caption for each of the four states, "unknown" for any other. */
  function StatusText(status: string): (r: string)
    ensures status == StatusActive <==> r == TextActive
    ensures status == StatusInactive <==> r == TextInactive
    ensures status == StatusError <==> r == TextError
    ensures status == StatusTesting <==> r == TextTesting
    ensures status !in Statuses <==> r == TextUnknown
  {
    var statusMap := map[StatusActive := TextActive, StatusInactive := TextInactive,
                         StatusError := TextError, StatusTesting := TextTesting];
    if status in statusMap then statusMap[status] else TextUnknown
  }

  /** Distinct states get distinct captions, and the tag colour is a function of the caption. */
  lemma StatusTextIsInjective(a: string, b: string)
    requires StatusText(a) == StatusText(b)
    ensures a in Statuses ==> a == b
    ensures StatusTagType(a) == StatusTagType(b)
  {
  }

  // ---------------------------------------------------------------------
  // isValidIP

  /**
   * One `(?:25[0-5]|2[0-4][0-9]|[01]?[0-9][0-9]?)` of the address pattern,
   * alternative by alternative.
   */
  predicate OctetPattern(s: string) {
    (|s| == 3 && s[0] == '2' && s[1] == '5' && '0' <= s[2] <= '5')
    || (|s| == 3 && s[0] == '2' && '0' <= s[1] <= '4' && IsDigit(s[2]))
    || (|s| == 3 && (s[0] == '0' || s[0] == '1') && IsDigit(s[1]) && IsDigit(s[2]))
    || (|s| == 2 && IsDigit(s[0]) && IsDigit(s[1]))
    || (|s| == 1 && IsDigit(s[0]))
  }

  /** The value of a digit character. */
  function D(c: char): int { c as int - '0' as int }

  lemma ThreeDigitsValue(s: string)
    requires |s| == 3 && AllDigits(s)
    ensures DigitsValue(s) == 100 * D(s[0]) + 10 * D(s[1]) + D(s[2])
  {
    var h := s[..2];
    TwoDigitsValue(h);
    assert h[0] == s[0] && h[1] == s[1];
  }

  lemma TwoDigitsValue(s: string)
    requires |s| == 2 && AllDigits(s)
    ensures DigitsValue(s) == 10 * D(s[0]) + D(s[1])
  {
    var h := s[..1];
    assert h[0] == s[0] && h[..0] == [];
    assert DigitsValue(h) == D(s[0]);
  }

  /**
   * The octet pattern accepts exactly one to three decimal digits whose
   * value is at most 255; leading zeros are allowed ("007").
   */
  lemma OctetPatternIsByte(s: string)
    ensures OctetPattern(s) <==> 1 <= |s| <= 3 && AllDigits(s) && DigitsValue(s) <= 255
  {
    if |s| == 3 && AllDigits(s) {
      ThreeDigitsValue(s);
    } else if |s| == 2 && AllDigits(s) {
      TwoDigitsValue(s);
    } else if |s| == 1 && AllDigits(s) {
      assert s[..0] == [];
    }
  }

  /**
   * isValidIP: four octets joined by dots. No octet holds a dot, so the
   * anchored pattern matches exactly when the dot-separated fields are four
   * and each is an octet.
   */
  predicate IsValidIP(ip: string) {
    var parts := Split(ip, '.');
    |parts| == 4 && forall k :: 0 <= k < 4 ==> OctetPattern(parts[k])
  }

  /** Splitting at a separator that ends the first field. */
  lemma SplitCons(p: string, rest: string, sep: char)
    requires Free(p, sep)
    ensures Split(p + [sep] + rest, sep) == [p] + Split(rest, sep)
  {
    FirstSeparator(p, rest, sep);
  }

  lemma SplitAlone(p: string, sep: char)
    requires Free(p, sep)
    ensures Split(p, sep) == [p]
  {
  }

  lemma OctetIsDotFree(s: string)
    requires OctetPattern(s)
    ensures Free(s, '.')
  {
  }

  /** A dotted quad of octets, any of 0 to 255 with up to three digits, is accepted. */
  lemma DottedQuadIsValid(a: string, b: string, c: string, d: string)
    requires OctetPattern(a) && OctetPattern(b) && OctetPattern(c) && OctetPattern(d)
    ensures IsValidIP(a + "." + b + "." + c + "." + d)
  {
    OctetIsDotFree(a);
    OctetIsDotFree(b);
    OctetIsDotFree(c);
    OctetIsDotFree(d);
    QuadAssoc(a, b, c, d);
    SplitQuad(a, b, c, d);
    var ip := a + "." + b + "." + c + "." + d;
    assert Split(ip, '.') == [a, b, c, d];
  }

  lemma SplitQuad(a: string, b: string, c: string, d: string)
    requires Free(a, '.') && Free(b, '.') && Free(c, '.') && Free(d, '.')
    ensures Split(a + "." + (b + "." + (c + "." + d)), '.') == [a, b, c, d]
  {
    var t2 := c + "." + d;
    var t1 := b + "." + t2;
    SplitAlone(d, '.');
    SplitCons(c, d, '.');
    SplitCons(b, t2, '.');
    SplitCons(a, t1, '.');
  }

  lemma QuadAssoc(a: string, b: string, c: string, d: string)
    ensures a + "." + b + "." + c + "." + d == a + "." + (b + "." + (c + "." + d))
  {
    var t2 := c + "." + d;
    var l2 := a + "." + b + ".";
    Assoc(a + ".", b + ".", t2);
    Assoc(a + ".", b, ".");
    Assoc(l2, c + ".", d);
    Assoc(l2, c, ".");
  }

  lemma Assoc(x: string, y: string, z: string)
    ensures x + (y + z) == x + y + z
  {
  }

  /** Every accepted address is its four octets joined by dots, each worth at most 255. */
  lemma ValidIPIsDottedQuad(ip: string)
    requires IsValidIP(ip)
    ensures var parts := Split(ip, '.');
      ip == parts[0] + "." + parts[1] + "." + parts[2] + "." + parts[3]
      && forall k :: 0 <= k < 4 ==> AllDigits(parts[k]) && DigitsValue(parts[k]) <= 255
  {
    var parts := Split(ip, '.');
    SplitJoin(ip, '.');
    JoinFour(parts, '.');
    forall k | 0 <= k < 4
      ensures AllDigits(parts[k]) && DigitsValue(parts[k]) <= 255
    {
      OctetPatternIsByte(parts[k]);
    }
  }

  /** Joining four fields puts the separator between each pair. */
  lemma JoinFour(parts: seq<string>, sep: char)
    requires |parts| == 4
    ensures Join(parts, sep) == parts[0] + [sep] + parts[1] + [sep] + parts[2] + [sep] + parts[3]
  {
    var p1, p2, p3 := parts[1..], parts[2..], parts[3..];
    assert p1[1..] == p2 && p2[1..] == p3;
    var j2 := parts[2] + [sep] + parts[3];
    assert Join(p2, sep) == j2;
    var j1 := parts[1] + [sep] + j2;
    assert Join(p1, sep) == j1;
    assert Join(parts, sep) == parts[0] + [sep] + j1;
    var x, y := parts[0] + [sep], parts[1] + [sep];
    Assoc(x, y, j2);
    Assoc(x + parts[1], [sep], j2);
    Assoc(x + y, parts[2] + [sep], parts[3]);
    Assoc(x + y, parts[2], [sep]);
  }

  /** A first field of digits worth more than 255 ("256.1.1.1") is refused. */
  lemma OverlargeOctetRefused(a: string, rest: string)
    requires AllDigits(a) && DigitsValue(a) > 255
    ensures !IsValidIP(a + "." + rest)
  {
    assert Free(a, '.');
    SplitCons(a, rest, '.');
    OctetPatternIsByte(a);
    assert Split(a + "." + rest, '.')[0] == a;
  }

  // ---------------------------------------------------------------------
  // isValidDomain

  predicate IsAlnum(c: char) {
    'a' <= c <= 'z' || 'A' <= c <= 'Z' || '0' <= c <= '9'
  }

  /**
   * One `[a-zA-Z0-9](?:[a-zA-Z0-9-]{0,61}[a-zA-Z0-9])?` of the domain
   * pattern: 1 to 63 letters, digits and hyphens, starting and ending with
   * a letter or digit.
   */
  predicate LabelPattern(s: string) {
    1 <= |s| <= 63 && IsAlnum(s[0]) && IsAlnum(s[|s| - 1])
    && forall k :: 0 < k < |s| - 1 ==> IsAlnum(s[k]) || s[k] == '-'
  }

  /**
   * isValidDomain: the whole pattern is optional, so "" passes; otherwise the
   * dot-separated fields (labels hold no dot) must all be labels.
   */
  predicate IsValidDomain(domain: string) {
    domain == "" || forall k :: 0 <= k < |Split(domain, '.')| ==> LabelPattern(Split(domain, '.')[k])
  }

  /** The empty name passes, as the optional group allows. */
  lemma EmptyDomainAccepted()
    ensures IsValidDomain("")
  {
  }

  /** An empty label, as between two adjacent dots, is refused. */
  lemma DoubleDotRefused()
    ensures !IsValidDomain("a..b")
  {
    SplitCons("a", ".b", '.');
    SplitCons("", "b", '.');
    assert Split("a..b", '.')[1] == "";
  }

  /** A label is refused when it starts with a hyphen. */
  lemma LeadingHyphenRefused(rest: string)
    requires Free(rest, '.')
    ensures !IsValidDomain("-" + rest)
  {
    var d := "-" + rest;
    assert Free(d, '.');
    SplitAlone(d, '.');
    assert !LabelPattern(Split(d, '.')[0]);
  }

  /** Two labels joined by a dot pass. */
  lemma TwoLabelsAccepted(a: string, b: string)
    requires LabelPattern(a) && LabelPattern(b)
    ensures IsValidDomain(a + "." + b)
  {
    assert Free(a, '.') && Free(b, '.');
    SplitAlone(b, '.');
    SplitCons(a, b, '.');
  }

  /** Splitting a join of dot-free parts gives the parts back. */
  lemma {:induction false} SplitOfJoin(parts: seq<string>, sep: char)
    requires |parts| >= 1 && forall k :: 0 <= k < |parts| ==> Free(parts[k], sep)
    ensures Split(Join(parts, sep), sep) == parts
    decreases |parts|
  {
    if |parts| == 1 {
      SplitAlone(parts[0], sep);
    } else {
      SplitOfJoin(parts[1..], sep);
      SplitCons(parts[0], Join(parts[1..], sep), sep);
      assert parts == [parts[0]] + parts[1..];
    }
  }

  /** Any non-empty list of labels joined by dots passes. */
  lemma LabelsAccepted(labels: seq<string>)
    requires |labels| >= 1 && forall k :: 0 <= k < |labels| ==> LabelPattern(labels[k])
    ensures IsValidDomain(Join(labels, '.'))
  {
    forall k | 0 <= k < |labels| ensures Free(labels[k], '.') {
      assert LabelPattern(labels[k]);
    }
    SplitOfJoin(labels, '.');
  }

  /** A passing name is "" or the dot-join of its fields, each of them a label. */
  lemma ValidDomainIsLabels(domain: string)
    requires IsValidDomain(domain) && domain != ""
    ensures domain == Join(Split(domain, '.'), '.')
    ensures forall k :: 0 <= k < |Split(domain, '.')| ==> LabelPattern(Split(domain, '.')[k])
  {
    SplitJoin(domain, '.');
  }

  /** A single label longer than 63 characters is refused. */
  lemma LongLabelRefused(s: string)
    requires Free(s, '.') && |s| > 63
    ensures !IsValidDomain(s)
  {
    SplitAlone(s, '.');
    assert !LabelPattern(Split(s, '.')[0]);
  }

  // ---------------------------------------------------------------------
  // isValidPort

  /** isValidPort: Number.isInteger and the range 1 to 65535. */
  predicate IsValidPort(port: real)
    ensures IsValidPort(port) ==> port == port.Floor as real && 1 <= port.Floor <= 65535
  {
    port.Floor as real == port && 1.0 <= port <= 65535.0
  }

  /** On whole numbers the check is exactly the range. */
  lemma WholePorts(n: int)
    ensures IsValidPort(n as real) <==> 1 <= n <= 65535
  {
    assert (n as real).Floor == n;
  }

  /** A fractional value inside the range is still refused. */
  lemma FractionalPortRefused(port: real)
    requires 1.0 < port < 65535.0 && port.Floor as real != port
    ensures !IsValidPort(port)
  {
  }
}
