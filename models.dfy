/**
 * The records of internal/models/models.go that the proxy core reads and
 * writes, reduced to the fields the core uses. Times are whole seconds; the
 * UUID primary keys are 16-byte values.
 */
module Models {
  import opened Common

  /** A proxy configuration: requests for ProxyDomain are forwarded to TargetURL. */
  datatype ProxyConfig = ProxyConfig(
    id: Uuid,
    name: string,
    targetUrl: string,
    proxyDomain: string,
    isActive: bool,
    settings: string,
    createdAt: int,
    updatedAt: int)

  /** A popup whose Content the injector places into proxied pages. */
  datatype Popup = Popup(id: Uuid, title: string, content: string)

  /** One form submission collected by a popup. */
  datatype Submission = Submission(
    id: Uuid,
    popupId: Uuid,
    formData: string,
    userIp: string,
    userAgent: string,
    referrerUrl: string,
    createdAt: string)  // already in the "2006-01-02 15:04:05" layout

  /** A page-modification rule; only its name and priority matter to the core. */
  datatype Rule = Rule(name: string, priority: int, updatedAt: int)

  /** The access-log record logProxyRequest stores. */
  datatype ProxyLog = ProxyLog(
    proxyConfigId: Uuid,
    httpMethod: string,
    url: string,
    userAgent: string,
    userIp: string,
    statusCode: int,
    responseTimeMs: int)

  /** The parts of a net/url.URL the core reads. */
  datatype Url = Url(scheme: string, host: string, path: string, rawQuery: string)

  /** net/url.Parse, which the model does not define: an error or the parsed parts. */
  type UrlParser = string -> Option<Url>
}
