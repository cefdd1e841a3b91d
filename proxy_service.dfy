/**
 * internal/services/proxy_service.go: validation of proxy configurations and
 * the create, lookup, update, toggle and delete operations over the
 * proxy_configs table, which keep every proxy domain unique.
 */
module ProxyService {
  import opened Common
  import opened Models
  import UrlRewriter
  import ProxyServer

  // ---------------------------------------------------------------------
  // Validation

  /** The characters isValidDomain admits: ASCII letters and digits, '.' and '-'. */
  predicate IsDomainChar(c: char) {
    ('a' <= c <= 'z') || ('A' <= c <= 'Z') || ('0' <= c <= '9') || c == '.' || c == '-'
  }

  /**
   * isValidDomain: 1 to 253 bytes of domain characters, not starting or
   * ending with '.' or '-'. (The length is taken in characters here; the two
   * agree on every string the character check lets through.)
   */
  predicate IsValidDomain(domain: string) {
    if |domain| == 0 || |domain| > 253 then false
    else if exists k :: 0 <= k < |domain| && !IsDomainChar(domain[k]) then false
    else if StartsWith(domain, ".") || EndsWith(domain, ".") || StartsWith(domain, "-") || EndsWith(domain, "-") then false
    else true
  }

  /** A valid domain is ASCII, at most 253 long, and begins and ends with a letter or a digit. */
  lemma ValidDomainShape(domain: string)
    requires IsValidDomain(domain)
    ensures 0 < |domain| <= 253 && IsAscii(domain)
    ensures domain[0] != '.' && domain[0] != '-' && IsDomainChar(domain[0])
    ensures domain[|domain| - 1] != '.' && domain[|domain| - 1] != '-' && IsDomainChar(domain[|domain| - 1])
  {
    assert domain[..1] == [domain[0]];
    assert domain[|domain| - 1..] == [domain[|domain| - 1]];
    forall k | 0 <= k < |domain| ensures domain[k] as int < 128 {
      assert IsDomainChar(domain[k]);
    }
  }

  /** Conversely, every name of that shape made of domain characters is accepted. */
  lemma ShapedDomainIsValid(domain: string)
    requires 0 < |domain| <= 253 && forall k :: 0 <= k < |domain| ==> IsDomainChar(domain[k])
    requires domain[0] != '.' && domain[0] != '-'
    requires domain[|domain| - 1] != '.' && domain[|domain| - 1] != '-'
    ensures IsValidDomain(domain)
  {
    assert !StartsWith(domain, ".") && !StartsWith(domain, "-") by {
      assert domain[..1] == [domain[0]];
    }
    assert !EndsWith(domain, ".") && !EndsWith(domain, "-") by {
      assert domain[|domain| - 1..] == [domain[|domain| - 1]];
    }
  }

  /** What the checks let through and what they stop: empty labels pass, edge punctuation does not. */
  lemma DomainExamples()
    ensures IsValidDomain("a..b") && IsValidDomain("shop.example.com")
    ensures !IsValidDomain("") && !IsValidDomain("-a") && !IsValidDomain("a.") && !IsValidDomain("a_b")
    ensures !IsValidDomain(seq(254, _ => 'a'))
  {
    assert !IsDomainChar("a_b"[1]);
  }

  /**
   * validateProxyConfig: the first failure among an empty domain, an empty
   * target URL, a target URL that does not parse, one without a scheme, one
   * without a host, and a malformed domain.
   */
  function ValidateProxyConfig(cfg: ProxyConfig, parseUrl: UrlParser): (v: Verdict)
    ensures v == Accept <==>
      cfg.proxyDomain != "" && cfg.targetUrl != "" && parseUrl(cfg.targetUrl).Some?
      && parseUrl(cfg.targetUrl).value.scheme != "" && parseUrl(cfg.targetUrl).value.host != ""
      && IsValidDomain(cfg.proxyDomain)
  {
    if cfg.proxyDomain == "" then Reject("domain is required")
    else if cfg.targetUrl == "" then Reject("target URL is required")
    else match parseUrl(cfg.targetUrl)
      case None => Reject("invalid target URL")
      case Some(u) =>
        if u.scheme == "" then Reject("target URL must include scheme (http or https)")
        else if u.host == "" then Reject("target URL must include host")
        else if !IsValidDomain(cfg.proxyDomain) then Reject("invalid domain format")
        else Accept
  }

  /** The checks run in order: an empty domain is reported even when the target URL is also bad. */
  lemma ValidateOrder(cfg: ProxyConfig, parseUrl: UrlParser)
    ensures cfg.proxyDomain == "" ==> ValidateProxyConfig(cfg, parseUrl) == Reject("domain is required")
    ensures cfg.proxyDomain != "" && cfg.targetUrl == "" ==> ValidateProxyConfig(cfg, parseUrl) == Reject("target URL is required")
    ensures (cfg.proxyDomain != "" && cfg.targetUrl != "" && parseUrl(cfg.targetUrl).Some?
             && parseUrl(cfg.targetUrl).value.scheme != "" && parseUrl(cfg.targetUrl).value.host != ""
             && !IsValidDomain(cfg.proxyDomain))
      ==> ValidateProxyConfig(cfg, parseUrl) == Reject("invalid domain format")
  {
  }

  /**
   * A configuration that passes validation has a target host, so the proxy's
   * link rewriting never falls into the empty-host case in which every URL
   * gets the proxy domain glued in front.
   */
  lemma ValidatedConfigHasTargetHost(cfg: ProxyConfig, parseUrl: UrlParser)
    requires ValidateProxyConfig(cfg, parseUrl) == Accept
    ensures UrlRewriter.ExtractHost(parseUrl, cfg.targetUrl) != ""
  {
  }

  // ---------------------------------------------------------------------
  // The table

  /** The index of the row with this id, or -1. */
  function IndexOfId(rows: seq<ProxyConfig>, id: Uuid): (i: int)
    ensures -1 <= i < |rows|
    ensures i >= 0 ==> rows[i].id == id
    ensures i < 0 ==> forall k :: 0 <= k < |rows| ==> rows[k].id != id
  {
    if |rows| == 0 then -1
    else if rows[0].id == id then 0
    else
      var j := IndexOfId(rows[1..], id);
      if j < 0 then -1 else j + 1
  }

  /** ToggleProxyConfig's write: the row at i with IsActive inverted and UpdatedAt stamped. */
  function Toggled(rows: seq<ProxyConfig>, i: nat, now: int): (r: seq<ProxyConfig>)
    requires i < |rows|
    ensures |r| == |rows| && r[i].isActive == !rows[i].isActive && r[i].id == rows[i].id
    ensures forall k :: 0 <= k < |rows| && k != i ==> r[k] == rows[k]
  {
    rows[i := rows[i].(isActive := !rows[i].isActive, updatedAt := now)]
  }

  /** Whether a row other than the one with id `except` carries the domain (`except` may be absent). */
  predicate DomainTaken(rows: seq<ProxyConfig>, domain: string, except: Option<Uuid>) {
    exists k :: 0 <= k < |rows| && rows[k].proxyDomain == domain && Some(rows[k].id) != except
  }

  /** Distinct ids and distinct proxy domains. */
  predicate UniqueRows(rows: seq<ProxyConfig>) {
    forall i, j :: 0 <= i < j < |rows| ==> rows[i].id != rows[j].id && rows[i].proxyDomain != rows[j].proxyDomain
  }

  /**
   * gorm's Updates with a struct: only the non-zero fields of `updates` are
   * written (so a false IsActive is not), and UpdatedAt is the time of the call.
   */
  function Merged(existing: ProxyConfig, updates: ProxyConfig, now: int): (r: ProxyConfig)
    ensures r.id == existing.id && r.updatedAt == now
    ensures r.isActive == (existing.isActive || updates.isActive)
    ensures r.proxyDomain == (if updates.proxyDomain != "" then updates.proxyDomain else existing.proxyDomain)
  {
    existing.(
      name := if updates.name != "" then updates.name else existing.name,
      targetUrl := if updates.targetUrl != "" then updates.targetUrl else existing.targetUrl,
      proxyDomain := if updates.proxyDomain != "" then updates.proxyDomain else existing.proxyDomain,
      isActive := if updates.isActive then true else existing.isActive,
      settings := if updates.settings != "" then updates.settings else existing.settings,
      createdAt := if updates.createdAt != 0 then updates.createdAt else existing.createdAt,
      updatedAt := now)
  }

  /** GetProxyConfigByDomain: the first active row for the domain, or an error. */
  function ConfigByDomain(rows: seq<ProxyConfig>, domain: string): Result<ProxyConfig> {
    var i := ProxyServer.FirstActiveFor(rows, domain);
    if i < 0 then Err("proxy config not found for domain " + domain) else Ok(rows[i])
  }

  /**
   * In a table whose domains are unique the lookup does not depend on row
   * order: it finds exactly the row of that domain, when that row is active,
   * and never an inactive one.
   */
  lemma ConfigByDomainSpec(rows: seq<ProxyConfig>, domain: string)
    requires UniqueRows(rows)
    ensures ConfigByDomain(rows, domain).Ok? ==>
      ConfigByDomain(rows, domain).value in rows
      && ConfigByDomain(rows, domain).value.proxyDomain == domain
      && ConfigByDomain(rows, domain).value.isActive
    ensures forall k :: 0 <= k < |rows| && rows[k].proxyDomain == domain && rows[k].isActive ==>
      ConfigByDomain(rows, domain) == Ok(rows[k])
    ensures (forall k :: 0 <= k < |rows| ==> !(rows[k].proxyDomain == domain && rows[k].isActive)) ==>
      ConfigByDomain(rows, domain).Err?
  {
    var i := ProxyServer.FirstActiveFor(rows, domain);
    forall k | 0 <= k < |rows| && rows[k].proxyDomain == domain && rows[k].isActive
      ensures ConfigByDomain(rows, domain) == Ok(rows[k])
    {
      assert i >= 0 && i <= k;
    }
  }

  /**
   * The ProxyService over the proxy_configs table. `rows` are the live (not
   * soft-deleted) rows in the order the table returns them; UniqueRows is the
   * invariant every operation keeps.
   */
  class ProxyConfigStore {
    var rows: seq<ProxyConfig>

    predicate Valid()
      reads this
    {
      UniqueRows(rows)
    }

    constructor ()
      ensures rows == [] && Valid()
    {
      rows := [];
    }

    /** GetProxyConfig: the row with this id. */
    function Get(id: Uuid): (r: Result<ProxyConfig>)
      reads this
      ensures r.Ok? <==> exists k :: 0 <= k < |rows| && rows[k].id == id
      ensures r.Ok? ==> r.value in rows && r.value.id == id
    {
      var i := IndexOfId(rows, id);
      if i < 0 then Err("proxy config not found") else Ok(rows[i])
    }

    /** GetProxyConfigByDomain. */
    function GetByDomain(domain: string): Result<ProxyConfig>
      reads this
    {
      ConfigByDomain(rows, domain)
    }

    /**
     * CreateProxyConfig: validate, refuse a domain that any row (active or
     * not) already has, then store the configuration active, stamped with the
     * time, under its id or the database-generated one.
     */
    method Create(cfg: ProxyConfig, generatedId: Uuid, now: int, parseUrl: UrlParser) returns (r: Verdict)
      requires Valid()
      modifies this
      ensures Valid()
      ensures ValidateProxyConfig(cfg, parseUrl) != Accept ==> r == ValidateProxyConfig(cfg, parseUrl) && rows == old(rows)
      ensures ValidateProxyConfig(cfg, parseUrl) == Accept && DomainTaken(old(rows), cfg.proxyDomain, None) ==>
        r == Reject("domain " + cfg.proxyDomain + " already exists") && rows == old(rows)
      ensures ValidateProxyConfig(cfg, parseUrl) == Accept && !DomainTaken(old(rows), cfg.proxyDomain, None) ==>
        var id := if cfg.id == NilUuid then generatedId else cfg.id;
        (IndexOfId(old(rows), id) >= 0 ==> r == Reject("failed to create proxy config") && rows == old(rows))
        && (IndexOfId(old(rows), id) < 0 ==>
              r == Accept && rows == old(rows) + [cfg.(id := id, isActive := true, createdAt := now, updatedAt := now)])
    {
      var verdict := ValidateProxyConfig(cfg, parseUrl);
      if verdict != Accept {
        return verdict;
      }
      if DomainTaken(rows, cfg.proxyDomain, None) {
        return Reject("domain " + cfg.proxyDomain + " already exists");
      }
      var id := if cfg.id == NilUuid then generatedId else cfg.id;
      if IndexOfId(rows, id) >= 0 {
        return Reject("failed to create proxy config");
      }
      var created := cfg.(id := id, isActive := true, createdAt := now, updatedAt := now);
      rows := rows + [created];
      r := Accept;
    }

    /**
     * UpdateProxyConfig: validate the update, find the row, refuse a changed
     * domain that another row has, then write the non-zero fields.
     */
    method Update(id: Uuid, updates: ProxyConfig, now: int, parseUrl: UrlParser) returns (r: Verdict)
      requires Valid()
      modifies this
      ensures Valid()
      ensures ValidateProxyConfig(updates, parseUrl) != Accept ==> r == ValidateProxyConfig(updates, parseUrl) && rows == old(rows)
      ensures ValidateProxyConfig(updates, parseUrl) == Accept && IndexOfId(old(rows), id) < 0 ==>
        r == Reject("proxy config not found") && rows == old(rows)
      ensures ValidateProxyConfig(updates, parseUrl) == Accept && IndexOfId(old(rows), id) >= 0 ==>
        var i := IndexOfId(old(rows), id);
        var taken := updates.proxyDomain != old(rows)[i].proxyDomain && DomainTaken(old(rows), updates.proxyDomain, Some(id));
        (taken ==> r == Reject("domain " + updates.proxyDomain + " already exists") && rows == old(rows))
        && (!taken ==> r == Accept && rows == old(rows)[i := Merged(old(rows)[i], updates, now)])
    {
      var verdict := ValidateProxyConfig(updates, parseUrl);
      if verdict != Accept {
        return verdict;
      }
      var i := IndexOfId(rows, id);
      if i < 0 {
        return Reject("proxy config not found");
      }
      var existing := rows[i];
      if updates.proxyDomain != existing.proxyDomain && DomainTaken(rows, updates.proxyDomain, Some(id)) {
        return Reject("domain " + updates.proxyDomain + " already exists");
      }
      var merged := Merged(existing, updates, now);
      assert merged.proxyDomain == updates.proxyDomain;
      forall j | 0 <= j < |rows| && j != i ensures rows[j].proxyDomain != merged.proxyDomain && rows[j].id != merged.id {
        if updates.proxyDomain == existing.proxyDomain {
          if j < i { assert rows[j].proxyDomain != rows[i].proxyDomain; } else { assert rows[i].proxyDomain != rows[j].proxyDomain; }
        } else {
          assert rows[j].id != id by {
            if j < i { assert rows[j].id != rows[i].id; } else { assert rows[i].id != rows[j].id; }
          }
        }
      }
      rows := rows[i := merged];
      r := Accept;
    }

    /** ToggleProxyConfig: flip IsActive and stamp the time; nothing else changes. */
    method Toggle(id: Uuid, now: int) returns (r: Verdict)
      requires Valid()
      modifies this
      ensures Valid()
      ensures IndexOfId(old(rows), id) < 0 ==> r == Reject("proxy config not found") && rows == old(rows)
      ensures IndexOfId(old(rows), id) >= 0 ==>
        var i := IndexOfId(old(rows), id);
        r == Accept && rows == Toggled(old(rows), i, now)
    {
      var i := IndexOfId(rows, id);
      if i < 0 {
        return Reject("proxy config not found");
      }
      var config := rows[i];
      config := config.(isActive := !config.isActive, updatedAt := now);
      rows := rows[i := config];
      assert rows == Toggled(old(rows), i, now);
      r := Accept;
    }

    /** DeleteProxyConfig: the row leaves the live table (its popups and rules go with it). */
    method Delete(id: Uuid) returns (r: Verdict)
      requires Valid()
      modifies this
      ensures Valid()
      ensures IndexOfId(old(rows), id) < 0 ==> r == Reject("proxy config not found") && rows == old(rows)
      ensures IndexOfId(old(rows), id) >= 0 ==>
        var i := IndexOfId(old(rows), id);
        r == Accept && rows == old(rows)[..i] + old(rows)[i + 1..]
    {
      var i := IndexOfId(rows, id);
      if i < 0 {
        return Reject("proxy config not found");
      }
      var rest := rows[..i] + rows[i + 1..];
      forall a, b | 0 <= a < b < |rest|
        ensures rest[a].id != rest[b].id && rest[a].proxyDomain != rest[b].proxyDomain
      {
        var a' := if a < i then a else a + 1;
        var b' := if b < i then b else b + 1;
        assert rest[a] == rows[a'] && rest[b] == rows[b'] && a' < b';
      }
      rows := rest;
      r := Accept;
    }
  }

  /**
   * Toggling twice: the second call finds the same row, and the table comes
   * back as it was apart from that row's time stamp.
   */
  lemma ToggleTwice(rows: seq<ProxyConfig>, id: Uuid, t1: int, t2: int)
    requires IndexOfId(rows, id) >= 0
    ensures var i := IndexOfId(rows, id);
      IndexOfId(Toggled(rows, i, t1), id) == i
      && Toggled(Toggled(rows, i, t1), i, t2) == rows[i := rows[i].(updatedAt := t2)]
  {
    var i := IndexOfId(rows, id);
    IndexOfIdAfterWrite(rows, i, Toggled(rows, i, t1)[i]);
  }

  /** Rewriting the found row without changing its id leaves it the first row with that id. */
  lemma {:induction false} IndexOfIdAfterWrite(rows: seq<ProxyConfig>, i: nat, c: ProxyConfig)
    requires i < |rows| && IndexOfId(rows, c.id) == i
    ensures IndexOfId(rows[i := c], c.id) == i
  {
    if i > 0 {
      assert rows[i := c][1..] == rows[1..][i - 1 := c];
      IndexOfIdAfterWrite(rows[1..], i - 1, c);
    }
  }

  /** An update can switch a configuration on but never off: a false IsActive is a zero field. */
  lemma UpdateNeverDeactivates(existing: ProxyConfig, updates: ProxyConfig, now: int)
    requires existing.isActive
    ensures Merged(existing, updates, now).isActive
  {
  }
}
