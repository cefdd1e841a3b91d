# proxy-enhancer-ultra, modelled in Dafny

proxy-enhancer-ultra is a content-rewriting reverse proxy. For each request
it picks a proxy configuration from the `Host` header, builds the upstream
URL, forwards the request with a filtered header set and the client's
address, and reads the whole answer. An HTML answer is parsed. The model then
appends the style sheet, the popup-manager script and one hidden container
per popup, and rewrites `href`, `src` and `action` attributes so that links
to the target host stay on the proxy domain. Every failure maps to a status
code, and a successful answer leaves an access-log record. Around the proxy
sit small rule engines: configuration, rule and popup validation, rule
priorities, CSV export of form submissions, HTTP middleware, the
submission list query and the process configuration. The Vue console
holds the auth, theme and app stores, the router guard and the proxy list
helpers.

The model has one Dafny module per source file:

- Code that computes a value is a function. A lemma relates it to a partner:
  an inverse, an independent reference definition, or an invariant.
- Code that loops or updates state is a method or a class. Its `ensures`
  ties the result or the new state to such a function.
- Library calls are parameters of the operations that use them: `url.Parse`,
  `html.Parse`/`html.Render`, `uuid.Parse`, `time.Parse`,
  `time.ParseDuration`, JSON, JWT validation, the upstream round trip and
  database queries.
- A database table is a sequence or a map held by a class.
- The parsed HTML document is a tree of values with owned child lists.
- Headers are maps from canonical keys to value lists.
- `common.dfy` holds the Go string functions the code relies on
  (`strings.Split`, `TrimSpace`, `EqualFold`, `strconv.Atoi`, `ParseBool`)
  and the text form of a UUID.
- `http.dfy` holds the parts of `net/http` the handlers touch.
- `models.dfy` holds the records.
- `web_storage.dfy` holds the browser's `localStorage`.

### Behaviour worth noting

- The redirect cap. `CheckRedirect` refuses once `len(via) >= 10`
  (internal/proxy/proxy_server.go:31-37). So the tenth redirect fails:
  at most nine are followed, and at most ten requests are made
  (`ProxyServer.RedirectCap`).
- Failed processing. The code calls `CopyResponse` on a body that
  `io.ReadAll` has already consumed
  (internal/proxy/proxy_server.go:98-106). The client therefore gets the
  status and every upstream header unfiltered, Content-Security-Policy
  included, and an empty body (`ProxyServer.ServeUpstreamAnswer`).
- The request skip list is section 13.5.1 of RFC 2616 without
  `Keep-Alive` and with `Proxy-Connection`
  (internal/proxy/request_processor.go:124-142). So `Keep-Alive` is
  forwarded.

## Model

| member | source | states |
|---|---|---|
| HtmlParser.WalkNodes | internal/proxy/html_parser.go:27-32 | the visitor sees exactly the nodes of `Walk(n)`, in that order: a node first, then each child's subtree, first child to last |
| HtmlParser.WalkIsPreOrder | internal/proxy/html_parser.go:27-32 | the walk starts at the root; a path is visited if and only if it addresses a node of the tree, element and text nodes alike; visits are strictly increasing in pre-order, so no node is visited twice and a node comes before its descendants and its later siblings |
| HtmlParser.WalkShape | internal/proxy/html_parser.go:27-32 | every visited path addresses a node and the visits are strictly ordered |
| HtmlParser.WalkComplete | internal/proxy/html_parser.go:29-31 | every node reachable through child lists is visited |
| HtmlParser.FirstIn | internal/proxy/html_parser.go:18-21 | a path the search keeps is one of the visited paths and names an element with the tag |
| HtmlParser.FirstInSpec | internal/proxy/html_parser.go:18-21 | nothing is kept exactly when no visited node matches; otherwise the kept path is the first match in visiting order, and later matches never replace it |
| HtmlParser.FirstMatch | internal/proxy/html_parser.go:16-24 | a found path addresses an element node whose tag is `tagName` |
| HtmlParser.FindNode | internal/proxy/html_parser.go:16-24 | the closure-driven search returns `FirstMatch(doc, tagName)`, and a result names a matching element |
| HtmlParser.FirstMatchSpec | internal/proxy/html_parser.go:16-24 | the result is None exactly when no element node carries the tag (text nodes with that data never match); a result precedes every other match in pre-order |
| HtmlParser.FirstMatchFinds | internal/proxy/html_parser.go:18-21 | whenever some element matches, one is found, and it is that element or one before it |
| HtmlParser.FirstMatchAtRoot | internal/proxy/html_parser.go:18-28 | a matching root is returned itself |
| UrlRewriter.WithSlash | internal/proxy/url_rewriter.go:27-29 | the result ends in "/" and extends the target; one "/" is added only when it was missing |
| UrlRewriter.BuildTargetURL | internal/proxy/url_rewriter.go:26-39 | the result starts with the target URL and is the slash-terminated target, the path without one leading "/", and the query suffix |
| UrlRewriter.BuildTargetURLJoins | internal/proxy/url_rewriter.go:27-32 | a path "/rest" is joined with exactly one "/" whether or not the target ends in "/" |
| UrlRewriter.BuildTargetURLQueryRecoverable | internal/proxy/url_rewriter.go:34-36 | for a non-empty query and "?"-free target and path, the first "?" of the result separates the joined path from the raw query, which comes back verbatim |
| UrlRewriter.ExtractHost | internal/proxy/url_rewriter.go:85-91 | "" when the URL does not parse, else the parsed host |
| UrlRewriter.RewriteURL | internal/proxy/url_rewriter.go:69-82 | a value starting with "/" (protocol-relative ones included) becomes "https://" + proxy domain + value; otherwise only the first occurrence of the target host is replaced by the proxy domain; a value with neither is returned unchanged |
| UrlRewriter.RewriteURLWithoutTargetHost | internal/proxy/url_rewriter.go:76-79 | when the target yields no host, every value not starting with "/" gets the proxy domain prepended, since "" occurs at position 0 |
| UrlRewriter.FirstKey | internal/proxy/url_rewriter.go:60-64 | the index found is the first attribute with that key, or -1 when none has it |
| UrlRewriter.RewriteAttribute | internal/proxy/url_rewriter.go:59-66 | the attribute count, order and keys are kept; only the first attribute with the name gets the rewritten value, all others, later duplicates included, are unchanged |
| UrlRewriter.RewriteTreeAt | internal/proxy/url_rewriter.go:44-55 | rewriting keeps the tree's shape, node types and tag data at every path, and each node's attributes become those `RewriteNode` gives: href on a and link, src on img and script, action on form, nothing on other nodes |
| UrlRewriter.RewriteURLs | internal/proxy/url_rewriter.go:42-56 | the in-place walk produces `RewriteTree(doc)` |
| UrlRewriter.RewriteNode | internal/proxy/url_rewriter.go:45-55 | the per-node switch of the walk: a/link rewrite href, img/script src, form action, and other nodes are kept; RewriteTreeAt states it node by node |
| UrlRewriter.RewriteTree | internal/proxy/url_rewriter.go:42-57 | RewriteNode applied at every node of the tree; RewriteTreeAt and RewriteURLs state its shape and its agreement with the walk |
| HtmlInjector.PopupManagerScript | internal/proxy/assets_provider.go:63-152 | the script text carries the proxy domain, then the configuration ID's canonical text, spliced in without escaping between the fixed parts |
| HtmlInjector.CreatePopupElement | internal/proxy/html_injector.go:124-144 | the container is a div with exactly the attributes id "popup-" + the popup's UUID text (the corrected id of the Findings row, not the `%d` id of line 130), class "proxy-popup" and style "display: none;", in that order, and one raw child holding the content verbatim |
| HtmlInjector.CreatePopupElementAsWritten | internal/proxy/html_injector.go:124-144 | createPopupElement as written, with the `%d` id of line 130: the as-written half of the second Findings row; PopupIdAsWrittenNeverMatchesScript shows its id is never the one the script looks up |
| HtmlInjector.PopupIdAsWrittenNeverMatchesScript | internal/proxy/html_injector.go:130 | the id `%d` produces never equals "popup-" + the UUID text the script looks up |
| HtmlInjector.PopupElementIdInjective | internal/proxy/html_injector.go:130 | two containers with the same id belong to popups with the same UUID |
| HtmlInjector.UuidStringInjective | internal/proxy/html_injector.go:130 | the UUID text determines the UUID |
| HtmlInjector.Containers | internal/proxy/html_injector.go:116-120 | one container per popup, in query order |
| HtmlInjector.InjectInteractiveElements | internal/proxy/html_injector.go:106-121 | without a database the document is unchanged; with one, the popups' containers are appended after body's existing children, in query order |
| HtmlInjector.AppendAtTwice | internal/proxy/html_injector.go:116-120 | two appends to the same node equal one append of both lists, so the loop appends in order |
| HtmlInjector.InjectCustomContent | internal/proxy/html_injector.go:56-74 | the method produces `Injected`: nothing without a head; else the head assets; then, with a body, the containers |
| HtmlInjector.InjectedSpec | internal/proxy/html_injector.go:56-121 | injection only appends (every old node keeps its children in order); with no head nothing is injected; head receives exactly the style and then the script element at the end; the assets do not change which body is found; without a body or a database only the head changes; otherwise body's children become its old children followed by the containers |
| HtmlInjector.AppendAtKeepsFirstMatch | internal/proxy/html_injector.go:64-67 | appending nodes that contain no `tagName` element leaves the first `tagName` match where it was |
| HtmlInjector.InjectBaseAssets | internal/proxy/html_injector.go:77-103 | the style element and then the script element appended after head's children; InjectedSpec and AssetsHoldNoBody state it |
| HtmlInjector.AssetsHoldNoBody | internal/proxy/html_injector.go:77-103 | the style and script elements contain no body element |
| HtmlInjector.ProcessHTML | internal/proxy/html_injector.go:33-53 | a page that does not parse, or a transformed tree that does not render, gives the original bytes and failure; otherwise the rendering of the injected and rewritten tree and success |
| HtmlInjector.InjectedNodesSurviveRewriting | internal/proxy/html_injector.go:41-44 | the URL rewriting that follows injection leaves the style, script and popup elements as they were injected |
| RequestProcessor.SearchList | internal/proxy/request_processor.go:136-141 | the range loop with early return answers true exactly when some listed name equals the key under EqualFold |
| RequestProcessor.ListedAscii | internal/proxy/request_processor.go:136-141 | for an ASCII key, the search succeeds exactly when the key and some listed name agree once lower-cased |
| RequestProcessor.ShouldSkipHeader | internal/proxy/request_processor.go:123-142 | the EqualFold search of the request skip list; SkipHeaderExactly states which names it skips |
| RequestProcessor.ShouldSkipResponseHeader | internal/proxy/request_processor.go:144-159 | the EqualFold search of the response skip list; SkipResponseHeaderExactly states which names it skips |
| RequestProcessor.SkipHeaderExactly | internal/proxy/request_processor.go:124-142 | on ASCII keys, the request filter skips exactly Connection, Proxy-Connection, Proxy-Authenticate, Proxy-Authorization, Te, Trailers, Transfer-Encoding and Upgrade, letter case ignored |
| RequestProcessor.SkipResponseHeaderExactly | internal/proxy/request_processor.go:145-159 | on ASCII keys, the response filter skips exactly Connection, Transfer-Encoding, Content-Length and Content-Security-Policy, letter case ignored |
| RequestProcessor.ListedAt | internal/proxy/request_processor.go:136-141 | a name matching anywhere in the list makes the search succeed, not only the first one |
| RequestProcessor.SkipFoldsLongS | internal/proxy/request_processor.go:137 | strings.EqualFold folds LATIN SMALL LETTER LONG S onto s, so that spelling of Transfer-Encoding is skipped too |
| RequestProcessor.SkipIgnoresCase | internal/proxy/request_processor.go:124-159 | any spelling of transfer-encoding is skipped by both filters |
| RequestProcessor.Unlisted | internal/proxy/request_processor.go:136-141 | a key differing from every name in length or first letter is not skipped |
| RequestProcessor.ProxyHeadersNotSkipped | internal/proxy/request_processor.go:124-159 | Host, X-Forwarded-For, X-Forwarded-Proto and X-Real-Ip survive the request filter and Content-Type survives the response filter |
| RequestProcessor.GetClientIP | internal/proxy/request_processor.go:162-180 | the first comma-separated X-Forwarded-For entry, trimmed, when the header is set; else X-Real-IP; else RemoteAddr cut before its last ":", which is RemoteAddr itself exactly when it has no ":" |
| RequestProcessor.ClientIPDropsPort | internal/proxy/request_processor.go:175-177 | "host:port" with a colon-free port gives back the host, IPv6 hosts included |
| RequestProcessor.GetScheme | internal/proxy/request_processor.go:183-191 | "https" under TLS, else a non-empty X-Forwarded-Proto, else "http"; never empty |
| RequestProcessor.RequestMethod | internal/proxy/request_processor.go:35 | http.NewRequest takes "" as GET and refuses a method that is not a token |
| RequestProcessor.ProxyRequestSpec | internal/proxy/request_processor.go:27-68 | the request is built exactly when the URL parses and the method is valid; it goes to the target URL with the target host and carries the inbound body unchanged; every other header arrives with all its values in order, keys without values and hop-by-hop keys never arrive; Host is the target host, X-Forwarded-For the old chain + ", " + client IP (or the IP alone), X-Forwarded-Proto the scheme and X-Real-Ip the client IP |
| RequestProcessor.FilteredThenSet | internal/proxy/request_processor.go:41-65 | copying with a filter that spares the four proxy headers and then setting them keeps every other copied header and drops every skipped one |
| RequestProcessor.CreateProxyRequest | internal/proxy/request_processor.go:27-68 | the new request with the inbound body, the copy loop and the four Set calls produce `ProxyRequest` |
| RequestProcessor.ProcessResponse | internal/proxy/request_processor.go:71-86 | a failed body read gives failure; a Content-Type that does not contain "text/html" (letter case ignored) passes the body byte for byte; an HTML page goes through ProcessHTML, keeping the original bytes on failure |
| RequestProcessor.HtmlDetectionIgnoresCase | internal/proxy/request_processor.go:79-80 | any spelling of text/html anywhere in the Content-Type counts as HTML |
| RequestProcessor.CopyResponse | internal/proxy/request_processor.go:89-103 | every upstream header with values is copied unfiltered, Content-Security-Policy included, the upstream status is written, and only the unread rest of the body is sent |
| RequestProcessor.ResponseHeaders | internal/proxy/request_processor.go:106-121 | every non-skipped header arrives with its values; Content-Length is the given length only when it is greater than 0, and absent otherwise; Content-Security-Policy and the other skipped headers never arrive |
| RequestProcessor.CopyResponseHeaders | internal/proxy/request_processor.go:106-121 | the writer's headers become `ResponseHeaders`; status and body are untouched |
| RequestProcessor.ProxyRequest | internal/proxy/request_processor.go:27-69 | the outbound request CreateProxyRequest builds, or its failure; ProxyRequestSpec states its URL, host, method, body and headers |
| RequestProcessor.IsHtml | internal/proxy/request_processor.go:80 | the case-insensitive `text/html` test on Content-Type; HtmlDetectionIgnoresCase and ProcessResponse state its use |
| Http.CopyHeaders | internal/proxy/request_processor.go:107-115 | the nested range loops with `Add` give exactly the non-skipped headers with values, whatever order the map yields its keys in |
| Http.ResponseWriter.WriteHeader | internal/proxy/request_processor.go:98 | the first status written sticks; headers and body are unchanged |
| Http.ResponseWriter.Write | internal/proxy/proxy_server.go:111 | the data is appended to the body, with an implicit 200 when no status was written; headers are unchanged |
| Http.ResponseWriter.AddHeader | internal/proxy/request_processor.go:93 | the value is appended to the key's list; status and body are unchanged |
| Http.ResponseWriter.SetHeader | internal/proxy/request_processor.go:119 | the key holds exactly the one value; status and body are unchanged |
| Http.ResponseWriter.DelHeader | internal/proxy/proxy_server.go:67 | the key is removed, as http.Error does with Content-Length; status and body are unchanged |
| Http.Error | internal/proxy/proxy_server.go:67-92 | Content-Length removed, the plain-text Content-Type and nosniff set, the status sticks, and the body gains the message and a newline |
| ProxyServer.CheckRedirect | internal/proxy/proxy_server.go:31-37 | a redirect is refused exactly when ten or more requests are already in the chain |
| ProxyServer.FollowChainSpec | internal/proxy/proxy_server.go:31-37 | from `via` requests, `n` more redirects are followed exactly when the total stays within ten, and then `via + n` requests have been made |
| ProxyServer.RedirectCap | internal/proxy/proxy_server.go:31-37 | from the first request nine redirects are followed and the tenth refused, so at most ten requests are made |
| ProxyServer.FirstActiveFor | internal/proxy/proxy_server.go:134 | the row returned is active for the host and every earlier row is not; -1 when no row is |
| ProxyServer.GetProxyConfigSpec | internal/proxy/proxy_server.go:118-139 | without a database the result is an active default for the request host targeting "https://www.baidu.com" with the fresh ID; with one, an error exactly when no active row has that exact domain, else a stored active row for it |
| ProxyServer.GetProxyConfigNeverInactive | internal/proxy/proxy_server.go:118-139 | a configuration returned is always active and always for the requested host |
| ProxyServer.LogRecord | internal/proxy/proxy_server.go:161-169 | the record carries the configuration ID, method, URL text, User-Agent, client IP and upstream status, and the elapsed time truncated to whole milliseconds |
| ProxyServer.MessagesAscii | internal/proxy/proxy_server.go:67-92 | the three error messages are ASCII, so http.Error writes them byte for byte |
| ProxyServer.ServeStatus | internal/proxy/proxy_server.go:56-115 | a failed lookup answers 404 and sends nothing upstream; a request that cannot be built answers 500 and sends nothing; a failed round trip answers 502; otherwise the upstream status is kept; none of the error paths is logged |
| ProxyServer.ServeAfterRoundTrip | internal/proxy/proxy_server.go:98-114 | once upstream answered, the reply keeps its status and depends only on how processing went |
| ProxyServer.ServeUpstreamAnswer | internal/proxy/proxy_server.go:98-114 | after successful processing the client gets the filtered headers with the processed length, the processed body and a log record; after a failed one, every upstream header unfiltered (Content-Security-Policy included), no body bytes (they were already drained) and no log record |
| ProxyServer.LogOnlyOnSuccess | internal/proxy/proxy_server.go:98-114 | a log record exists only when a configuration was found, a request was sent and answered, and it carries that configuration's ID, the status sent and the client IP |
| ProxyServer.NonHtmlPassesThrough | internal/proxy/proxy_server.go:98-111 | a non-HTML upstream answer reaches the client byte for byte, with its status and the filtered headers carrying its own length |
| ProxyServer.Server.ServeHTTP | internal/proxy/proxy_server.go:56-115 | on a fresh writer, the early-return sequence leaves the status, headers and body `Serve` describes, and the log record is saved only when there is a database |
| ProxyServer.Server.LogProxyRequest | internal/proxy/proxy_server.go:147-179 | with a database exactly one record is added; without one nothing is saved |
| ProxyServer.FollowChain | internal/proxy/proxy_server.go:31-37 | the client following n more redirects under CheckRedirect; FollowChainSpec and RedirectCap state when it succeeds |
| ProxyServer.GetProxyConfig | internal/proxy/proxy_server.go:118-140 | the default config without a database, else the first active row for the host; GetProxyConfigSpec and GetProxyConfigNeverInactive state it |
| ProxyServer.Serve | internal/proxy/proxy_server.go:56-116 | ServeHTTP's reply as a value; ServeStatus, ServeAfterRoundTrip, ServeUpstreamAnswer, LogOnlyOnSuccess and NonHtmlPassesThrough state its branches |
| ProxyService.IsValidDomain | internal/services/proxy_service.go:316-337 | isValidDomain's three checks in order: length 1 to 253, only letters, digits, '.' and '-', no '.' or '-' at either end; ValidDomainShape and ShapedDomainIsValid state both directions, DomainExamples the edge cases |
| ProxyService.ShapedDomainIsValid | internal/services/proxy_service.go:316-337 | every name of 1 to 253 domain characters that does not start or end with '.' or '-' is accepted |
| ProxyService.ValidDomainShape | internal/services/proxy_service.go:316-337 | a domain isValidDomain accepts is 1 to 253 ASCII characters and starts and ends with a letter or a digit |
| ProxyService.DomainExamples | internal/services/proxy_service.go:316-337 | consecutive dots are accepted; the empty domain, a leading hyphen, a trailing dot, an underscore and 254 characters are refused |
| ProxyService.ValidateProxyConfig | internal/services/proxy_service.go:284-313 | a configuration is accepted exactly when both fields are set, the target URL parses with a scheme and a host, and the domain is valid |
| ProxyService.ValidateOrder | internal/services/proxy_service.go:284-313 | the checks run in the source's order and give its messages: domain required, then target URL required, then invalid domain format last |
| ProxyService.ValidatedConfigHasTargetHost | internal/services/proxy_service.go:299-305 | an accepted configuration's target URL has a host, so the URL rewriter always has one to match |
| ProxyService.IndexOfId | internal/services/proxy_service.go:65-75 | the index of the row with this ID, or -1 exactly when no row has it (gorm's First by primary key); the id is a UUID, where the source passes a number (see Left out) |
| ProxyService.Merged | internal/services/proxy_service.go:119-125 | gorm's Updates with a struct: each non-empty field of the update replaces the stored one, the ID stays (a non-zero ID in the update is left out, see Left out), IsActive can only become true, and UpdatedAt is the time of the call |
| ProxyService.ConfigByDomainSpec | internal/services/proxy_service.go:78-88 | in a table with unique domains the lookup finds exactly the active row of that domain and otherwise fails |
| ProxyService.ConfigByDomain | internal/services/proxy_service.go:77-88 | the first active row with the domain, or the not-found error; ConfigByDomainSpec states it |
| ProxyService.ProxyConfigStore.GetByDomain | internal/services/proxy_service.go:77-88 | ConfigByDomain over the store's rows; ConfigByDomainSpec states it |
| ProxyService.ProxyConfigStore.Get | internal/services/proxy_service.go:65-75 | a row is returned exactly when some row has the ID, and it is a stored row with that ID; the id is a UUID, where the source passes a number (see Left out) |
| ProxyService.ProxyConfigStore.Create | internal/services/proxy_service.go:30-62 | an invalid configuration, a domain any row already has, or an ID already in use leaves the table unchanged with the source's error message (its wrapped cause is dropped, see Left out); otherwise the row is appended active and time-stamped; domains stay unique |
| ProxyService.ProxyConfigStore.Update | internal/services/proxy_service.go:91-133 | validation first, then a missing row, then a changed domain held by another row leave the table unchanged; otherwise exactly that row is replaced by the merge; domains stay unique; the id is a UUID, where the source passes a number (see Left out) |
| ProxyService.ProxyConfigStore.Toggle | internal/services/proxy_service.go:212-236 | a missing ID is refused; otherwise only that row's IsActive flips and its UpdatedAt is stamped; the id is a UUID, where the source passes a number (see Left out) |
| ProxyService.ProxyConfigStore.Delete | internal/services/proxy_service.go:136-183 | a missing ID is refused; otherwise exactly that row is removed and the others keep their order; the id is a UUID, where the source passes a number (see Left out) |
| ProxyService.Toggled | internal/services/proxy_service.go:223-224 | the row at the index has IsActive inverted and keeps its id; every other row is unchanged |
| ProxyService.ToggleTwice | internal/services/proxy_service.go:212-224 | a second toggle of the same id finds the same row, and the two writes give the table back apart from that row's UpdatedAt |
| ProxyService.UpdateNeverDeactivates | internal/services/proxy_service.go:119-125 | an update cannot switch an active configuration off, because a false IsActive is a zero field that gorm skips |
| RuleValidator.ValidateRuleType | internal/services/rule_validator.go:14-20 | accepted exactly when the type is one of inject, replace, remove and modify, else "invalid rule type" |
| RuleValidator.ValidateAction | internal/services/rule_validator.go:23-29 | accepted exactly when the action is one of the six actions, else "invalid action type" |
| RuleValidator.ValidateRulePosition | internal/services/rule_validator.go:32-42 | accepted exactly when the position is empty or one of before, after, inside and replace, else "invalid position" |
| RuleValidator.CreateRuleSpec | internal/services/rule_validator.go:45-59 | a create request passes exactly when all three fields are valid, and a failure carries the first bad field's message in type, action, position order |
| RuleValidator.UpdateRuleSpec | internal/services/rule_validator.go:62-80 | an update skips an empty type or action, so the empty request passes and every valid create request passes as an update |
| RuleValidator.RuleTypeCaseSensitive | internal/services/rule_validator.go:15-16 | the type lookup is exact: "Inject" is refused |
| RuleValidator.ValidateCreateRule | internal/services/rule_validator.go:45-60 | type, then action, then position, the first error returned; CreateRuleSpec states it |
| RuleValidator.ValidateUpdateRule | internal/services/rule_validator.go:62-81 | as for creation with an empty type or action not checked; UpdateRuleSpec states it |
| PopupValidator.ContainsString | internal/services/popup_validator.go:83-90 | true exactly when some element of the slice equals the item |
| PopupValidator.ValidatePopupType | internal/services/popup_validator.go:14-20 | accepted exactly when the type is one of the five popup types, else "invalid popup type" |
| PopupValidator.ValidateTriggerType | internal/services/popup_validator.go:23-29 | accepted exactly when the trigger is one of the six trigger types, else "invalid trigger type" |
| PopupValidator.ValidatePosition | internal/services/popup_validator.go:32-42 | accepted exactly when the position is empty or one of the nine positions, else "invalid position" |
| PopupValidator.CreateRequestSpec | internal/services/popup_validator.go:45-59 | a create request passes exactly when all three fields are valid, and a failure carries the first bad field's message |
| PopupValidator.UpdateRequestSpec | internal/services/popup_validator.go:62-80 | an update skips an empty type or trigger, so the empty request passes and every valid create request passes as an update |
| PopupValidator.ValidateCreateRequest | internal/services/popup_validator.go:45-60 | popup type, then trigger type, then position, the first error returned; CreateRequestSpec states it |
| PopupValidator.ValidateUpdateRequest | internal/services/popup_validator.go:62-81 | as for creation with an empty type or trigger not checked; UpdateRequestSpec states it |
| RulePriorityService.SetPriority | internal/services/rule_priority_service.go:38-41 | one Updates statement sets that rule's priority and updated_at, changes no other rule, and changes nothing when no rule has the ID |
| RulePriorityService.AppliedKeys | internal/services/rule_priority_service.go:37-49 | the update loop adds and removes no rule and renames none |
| RulePriorityService.AppliedUntouched | internal/services/rule_priority_service.go:37-49 | a rule no update names keeps every field |
| RulePriorityService.AppliedLast | internal/services/rule_priority_service.go:37-49 | a rule named several times ends with the priority of the last update naming it |
| RulePriorityService.Numbered | internal/services/rule_priority_service.go:72-73 | the i-th ID gets priority i + 1 |
| RulePriorityService.ReorderSpec | internal/services/rule_priority_service.go:63-99 | reordering distinct IDs gives each listed rule its position plus one and leaves every unlisted rule as it was |
| RulePriorityService.SwapKeepsPriorities | internal/services/rule_priority_service.go:156-187 | exchanging two rules' priorities keeps, for every priority, the number of rules that hold it |
| RulePriorityService.RuleTable.UpdateRulePriorities | internal/services/rule_priority_service.go:29-60 | when every statement and the commit succeed the table is the updates applied in order; any failure rolls back to the old table, a failed statement with "failed to update rule priority" and a failed commit with "failed to commit rule priority updates" |
| RulePriorityService.RuleTable.ReorderRules | internal/services/rule_priority_service.go:63-99 | its own transaction loop, all or nothing: the i-th listed rule gets priority i + 1, or the old table is kept, a failed statement giving "failed to reorder rule" and a failed commit "failed to commit rule reordering" |
| RulePriorityService.RuleTable.GetNextPriority | internal/services/rule_priority_service.go:102-109 | one above the largest priority (COALESCE to 0, so 1 on an empty table): above every rule and just above some rule |
| RulePriorityService.RuleTable.HighestBelow | internal/services/rule_priority_service.go:121-122 | a rule of greatest priority below p, or none exactly when no rule is below p |
| RulePriorityService.RuleTable.LowestAbove | internal/services/rule_priority_service.go:143-144 | a rule of least priority above p, or none exactly when no rule is above p |
| RulePriorityService.RuleTable.SwapPriorities | internal/services/rule_priority_service.go:156-187 | two statements and a commit: all succeed and both priorities are exchanged, or the table is unchanged and the error names the step that failed ("failed to update rule1 priority", "failed to update rule2 priority", "failed to commit priority swap") |
| RulePriorityService.RuleTable.MovePriorityUp | internal/services/rule_priority_service.go:112-131 | a missing rule is an error and changes nothing; a rule with no lower priority succeeds without change; otherwise, when no statement of the swap fails, it succeeds and the rule trades priority with a rule whose priority is the greatest below its own (both stamped), and when one fails it is the swap's error for that step; every error leaves the table as it was |
| RulePriorityService.RuleTable.MovePriorityDown | internal/services/rule_priority_service.go:134-153 | the mirror image: the swap is with a rule whose priority is the least above its own, no such rule gives success without change, a failed statement gives the swap's error for that step, and every error leaves the table as it was |
| SubmissionExport.EscapedSnoc | internal/services/submission_export_service.go:87-93 | escaping one more character appends that character's escape, which is what each loop step does |
| SubmissionExport.EscapeCSVField | internal/services/submission_export_service.go:84-95 | the loop doubles every double quote and copies every other character, in order |
| SubmissionExport.EscapedLength | internal/services/submission_export_service.go:84-95 | the escaped field is longer by exactly its number of double quotes |
| SubmissionExport.UnescapeEscaped | internal/services/submission_export_service.go:84-95 | collapsing doubled quotes gives the field back, so escaping loses nothing |
| SubmissionExport.EscapedQuoteFree | internal/services/submission_export_service.go:84-95 | a field without double quotes is written unchanged |
| SubmissionExport.ReadQuotedEscaped | internal/services/submission_export_service.go:68-74 | a quoted, escaped field followed by `",` reads back as exactly that field, in the manner of section 2 of RFC 4180 |
| SubmissionExport.EscapedAll | internal/services/submission_export_service.go:71-74 | each free-text column is escaped independently |
| SubmissionExport.ReadFieldsQuotedJoin | internal/services/submission_export_service.go:68-74 | several quoted, escaped fields joined by commas read back as the original list, with the remainder after them |
| SubmissionExport.RowFieldsReadBack | internal/services/submission_export_service.go:68-76 | a row holds the submission's UUID, a comma, the popup UUID, then the four quoted text columns that read back exactly as form data, user agent, user IP and referrer, then the creation time and a newline |
| SubmissionExport.CsvIdAsWrittenIsNotUuid | internal/services/submission_export_service.go:68-69 | with `%d` the first column of a row is a decimal byte-array rendering starting with '[', never the UUID's text |
| SubmissionExport.ConcatAppend | internal/services/submission_export_service.go:67-78 | appending rows to the text distributes over list concatenation |
| SubmissionExport.RowsOf | internal/services/submission_export_service.go:67-78 | one row per submission, in the query's order |
| SubmissionExport.RowsAppend | internal/services/submission_export_service.go:67-78 | exporting two lists one after the other gives the rows of both, in order |
| SubmissionExport.RowsSnoc | internal/services/submission_export_service.go:77 | each loop step appends exactly the next submission's row |
| SubmissionExport.FormatLine | internal/services/submission_export_service.go:68-76 | the line built for a submission is its row |
| SubmissionExport.ExportToCSV | internal/services/submission_export_service.go:58-81 | the result is the header line followed by every submission's row in order, and only the header for no submissions |
| SubmissionExport.OfPopup | internal/services/submission_export_service.go:42 | exactly the stored submissions of that popup |
| SubmissionExport.ExportSubmissions | internal/services/submission_export_service.go:30-55 | an unknown popup gives "popup not found"; "json" gives the marshalled submissions, "csv" the CSV text of that popup's submissions; any other format gives "unsupported export format" |
| SubmissionExport.CsvRowAsWritten | internal/services/submission_export_service.go:68-76 | the Sprintf line with `%d` of the id; CsvIdAsWrittenIsNotUuid states that its id column is not UUID text |
| SubmissionExport.CsvRow | internal/services/submission_export_service.go:68-76 | the same line with the UUID text as id; RowFieldsReadBack states that its columns read back as the submission's data |
| Middleware.CorsHeaders | internal/middleware/middleware.go:18-21 | the four CORS headers are set to their fixed single values and every other header is kept |
| Middleware.CORSMiddleware | internal/middleware/middleware.go:16-30 | the CORS headers are always set; an OPTIONS request is answered 200 with no body and not passed on, any other method is passed on with the status untouched |
| Middleware.BearerToken | internal/middleware/middleware.go:94-100 | a token is found exactly when the header starts with "Bearer ", and the header is then "Bearer " followed by the token |
| Middleware.BearerPrefixSpace | internal/middleware/middleware.go:94-95 | for such a header SplitN on the first space gives "Bearer" as the first part, so the prefix test and the split agree |
| Middleware.BearerIsCaseSensitive | internal/middleware/middleware.go:95 | the scheme name is matched exactly: "bearer " is refused |
| Middleware.Authenticate | internal/middleware/middleware.go:86-114 | a missing header and a header without the Bearer scheme get their own 401 messages; the request proceeds exactly when the header is "Bearer " followed by a token the validator accepts, with that token's claims; every refusal is 401 |
| Middleware.AdminGate | internal/middleware/middleware.go:120-130 | the request proceeds exactly when the context role is "admin", else 403 "Admin access required" |
| Middleware.GetClientIP | internal/middleware/middleware.go:195-216 | X-Forwarded-For's first comma field, trimmed, wins; then X-Real-IP; then RemoteAddr up to its first colon, which is all of it when it has none |
| Middleware.ClientIPCutsAtFirstColon | internal/middleware/middleware.go:210-213 | for "host:port" the result is the host when it has no colon, and a strict prefix of it otherwise (an IPv6 address is cut short) |
| Middleware.Recent | internal/middleware/middleware.go:144-149 | exactly the request times less than a minute old, in their order |
| Middleware.Prune | internal/middleware/middleware.go:144-150 | the pruning loop keeps exactly the recent times |
| Middleware.RecentIdempotent | internal/middleware/middleware.go:144-149 | pruning twice at the same instant is pruning once |
| Middleware.RateLimiter.Admit | internal/middleware/middleware.go:139-164 | the client's window is pruned, the request is allowed exactly when fewer than the limit remain and then recorded; other clients' windows are untouched; an allowed client never holds more than the limit; a limit of zero or less refuses everyone |
| SubmissionQuery.ParseListQuery | internal/handlers/submission_query_handler.go:33-80 | the result is `QueryOf` of the parameters; page is at least 1 and page size 1 to 100; each keeps its default unless its text is a number in range, and then is that number; a popup ID or start date is kept only when it parses; the end date is present exactly when it parses and is then moved to 23:59:59 of that day |
| SubmissionQuery.TotalPages | internal/handlers/submission_query_handler.go:92 | the ceiling of total over page size: enough pages for every row, no empty page at the end, and zero pages exactly when there are no rows |
| SubmissionQuery.ListSubmissions | internal/handlers/submission_query_handler.go:31-105 | the lister is asked with the query built from the parameters; it fails exactly when the answer is 500 "Failed to retrieve submissions"; otherwise the answer carries the lister's rows and total, the query's page and page size, and the page count `TotalPages(total, pageSize)`, which covers the total exactly |
| SubmissionQuery.CheckDateRange | internal/handlers/submission_query_handler.go:130-160 | the range is accepted exactly when the popup ID and both dates parse and both dates are given; the popup ID is checked first, then presence, then the start date's format, then the end date's, each with its own message; the end moves to the last second of its day |
| Config.GetEnv | pkg/config/config.go:280-285 | the variable's value when it is set and not empty, else the default |
| Config.GetEnvAsInt | pkg/config/config.go:288-295 | the parsed value when the variable is a decimal integer, else the default |
| Config.GetEnvAsBool | pkg/config/config.go:298-305 | the parsed value when the variable is one of strconv.ParseBool's spellings, else the default |
| Config.GetEnvAsDuration | pkg/config/config.go:308-319 | the variable's duration (or the default text's) when it parses; then the default's; then one minute |
| Config.GetEnvAsSlice | pkg/config/config.go:322-327 | a set variable is split at every comma into comma-free pieces that join back to it; otherwise the default |
| Config.Validate | pkg/config/config.go:220-247 | the configuration passes exactly when both ports are in 1..65535, the JWT secret is set and not "your-secret-key", the database host is set, and TLS has both files when enabled; the server port is checked first, then the secret |
| Config.Load | pkg/config/config.go:129-217 | the loaded configuration when it validates, else the validation message behind "config validation failed: " |
| Config.LoadNeedsJwtSecret | pkg/config/config.go:227-229 | without JWT_SECRET the default secret is used and loading fails |
| Config.DefaultsValidateWithSecret | pkg/config/config.go:136-217 | with only a secret of its own set, every default passes validation |
| NetworkUtils.SplitHostPortShape | pkg/utils/network_utils.go:35-39 | a split succeeds only on an address with a colon; the port has no colon; the input is host ":" port, or "[" host "]:" port when it opens with a bracket |
| NetworkUtils.SplitHostPortPlain | pkg/utils/network_utils.go:35-39 | "host:port" with a colon-free host splits back into that host and port |
| NetworkUtils.SplitHostPortBracketed | pkg/utils/network_utils.go:35-39 | "[host]:port" splits back into the bracketed host and the port, colons inside the brackets included |
| NetworkUtils.GetClientIP | pkg/utils/network_utils.go:11-40 | the first X-Forwarded-For field trimmed when it is not blank; then X-Real-IP; then X-Forwarded; then RemoteAddr's host part, or RemoteAddr whole when it does not split |
| NetworkUtils.ClientIPFromRemoteAddr | pkg/utils/network_utils.go:35-39 | with no forwarding headers, a port-less address comes back whole, "host:port" gives the host and "[v6]:port" the address inside the brackets |
| NetworkUtils.BlankForwardedForFallsThrough | pkg/utils/network_utils.go:16-21 | an X-Forwarded-For whose first field is blank does not win; X-Real-IP is used |
| NetworkUtils.NormalizedScheme | pkg/utils/network_utils.go:50-52 | an empty scheme becomes "http" and any other is kept, so the result is never empty |
| NetworkUtils.NormalizedHost | pkg/utils/network_utils.go:55-61 | the host is lower-cased, then ":80" under http or ":443" under https is removed, and nothing else is |
| NetworkUtils.StripPort | pkg/utils/network_utils.go:60 | cutting at the last colon removes exactly the port suffix and keeps the host lower-case |
| NetworkUtils.NormalizeURL | pkg/utils/network_utils.go:43-64 | an unparsable URL is an error; otherwise the parsed URL with the scheme defaulted and the host normalised, every other part unchanged |
| NetworkUtils.DefaultPortFollowsScheme | pkg/utils/network_utils.go:50-61 | ":80" goes when the scheme defaults to http, but ":80" under https and ":443" under http stay |
| NetworkUtils.IsLocalhost | pkg/utils/network_utils.go:76-78 | true exactly for "localhost", "127.0.0.1" and "::1" |
| NetworkUtils.IsLocalhostIsExact | pkg/utils/network_utils.go:76-78 | the comparison is exact: no case folding, no brackets, no port |
| StringUtils.StringToInt | pkg/utils/string_utils.go:9-14 | the decimal value when strconv.Atoi accepts the text, else the default (the empty text included) |
| StringUtils.StringToUint | pkg/utils/string_utils.go:17-22 | the value of a non-empty all-digit text up to 2^32 - 1, else the default |
| StringUtils.StringToBool | pkg/utils/string_utils.go:25-30 | the six true spellings give true, the six false spellings false, anything else the default |
| StringUtils.FirstMatchIsLeast | pkg/utils/string_utils.go:38-70 | an if/else-if chain of Contains tests reports the label of the first keyword present, and the fallback when none is |
| StringUtils.BrowserChain | pkg/utils/string_utils.go:38-48 | the browser rule table is exactly the source's Chrome, Firefox, Safari, Edge chain |
| StringUtils.OsChain | pkg/utils/string_utils.go:50-62 | the OS rule table is exactly the source's Windows, Mac (reported as macOS), Linux, Android, iOS chain |
| StringUtils.DeviceChain | pkg/utils/string_utils.go:64-70 | the device rule table is exactly the source's Mobile, Tablet chain with Desktop as fallback |
| StringUtils.UserAgentInfoShape | pkg/utils/string_utils.go:33-73 | the result has exactly the raw, browser, os and device keys, raw is the input, and each other entry is one of its chain's labels |
| StringUtils.ParseUserAgent | pkg/utils/string_utils.go:33-73 | the map filled entry by entry equals the four-key classification |
| StringUtils.ChromeShadowsEdge | pkg/utils/string_utils.go:38-45 | a user agent naming both Chrome and Edge is reported as Chrome, so the Edge branch is reached only without "Chrome" |
| StringUtils.LinuxShadowsAndroid | pkg/utils/string_utils.go:54-57 | an Android user agent that also says Linux is reported as Linux |
| StringUtils.FirstMatchIsALabel | pkg/utils/string_utils.go:38-70 | a chain only ever reports one of its labels or its fallback |
| StringUtils.FirstMatch | pkg/utils/string_utils.go:38-70 | one if-else chain: the label of the first rule whose substring occurs, else the fallback; FirstMatchIsLeast and FirstMatchIsALabel state it |
| HtmlUtils.FoldsToIsLowerEqual | pkg/utils/html_utils.go:91 | the character-by-character comparison behind a `(?i)` match of a lower-case ASCII tag is ASCII lower-casing followed by equality |
| HtmlUtils.CountPositiveIffMatch | pkg/utils/html_utils.go:93 | MatchString succeeds exactly when the replacing scan finds at least one match |
| HtmlUtils.LiteralReplaceLength | pkg/utils/html_utils.go:94 | replacing every match literally changes the length by the number of matches times the size difference |
| HtmlUtils.NoMatchUnchanged | pkg/utils/html_utils.go:93-101 | with no match, replacement leaves the text as it was |
| HtmlUtils.NameLength | pkg/utils/html_utils.go:94 | the longest run of name characters at the front, which is how far regexp.Expand reads a `$name` |
| HtmlUtils.Extract | pkg/utils/html_utils.go:94 | a `$` reference names a non-empty group and consumes part of the template |
| HtmlUtils.ExpandLiteral | pkg/utils/html_utils.go:94 | a template without `$` expands to itself |
| HtmlUtils.ExpandLiteralPrefix | pkg/utils/html_utils.go:94 | a `$`-free prefix passes through expansion untouched |
| HtmlUtils.TemplateWithoutDollarIsLiteral | pkg/utils/html_utils.go:94 | a `$`-free replacement gives the same text under ReplaceAllString and ReplaceAllLiteralString |
| HtmlUtils.InjectScriptPlacement | pkg/utils/html_utils.go:90-105 | with a case-insensitive `</head>` the page grows once per `</head>` and `</body>` plays no part; otherwise once per `</body>`; otherwise the script is appended; each insertion adds the script and 17 characters of tags (where each goes: InjectScriptBeforeHead and InjectScriptBeforeBody) |
| HtmlUtils.InjectHTMLPlacement | pkg/utils/html_utils.go:108-117 | with a `</body>`, whatever its case, the page grows by the content once per match; without one the content is appended |
| HtmlUtils.ReplaceAtFirstMatch | pkg/utils/html_utils.go:94 | the literal replacement keeps the text before the first match, puts the replacement in place of the matched tag and continues after it |
| HtmlUtils.InjectScriptBeforeHead | pkg/utils/html_utils.go:91-95 | with the first `</head>` at i, the result is the page up to i, the script in its tags, a lower-case `</head>`, then the same done to the rest |
| HtmlUtils.InjectScriptBeforeBody | pkg/utils/html_utils.go:97-101 | without a `</head>` and with the first `</body>` at i, the script goes in front of it the same way |
| HtmlUtils.InjectHTMLBeforeBody | pkg/utils/html_utils.go:108-113 | with the first `</body>` at i, the result is the page up to i, the content, a lower-case `</body>`, then the same done to the rest |
| HtmlUtils.InjectHTMLSingleBody | pkg/utils/html_utils.go:108-113 | a page with one `</body>` becomes the text before it, the content, `</body>` and the rest unchanged |
| HtmlUtils.InsertedTagIsLowerCase | pkg/utils/html_utils.go:112 | the matched tag is replaced, so "</BODY>" comes out as "</body>" |
| HtmlUtils.AsWrittenAgreesWithoutDollar | pkg/utils/html_utils.go:90-117 | for text without `$` the functions as written and the literal ones agree |
| HtmlUtils.ExpandDropsVariable | pkg/utils/html_utils.go:94 | `$x` followed by a non-name character expands to nothing, as an unknown group does |
| HtmlUtils.HeadCloseAlone | pkg/utils/html_utils.go:92-94 | on the text "</head>" alone the scan finds the one match and replaces it with the expanded template |
| HtmlUtils.WrappedVariableDropped | pkg/utils/html_utils.go:94 | the wrapper around a script "$x" expands to the wrapper around the empty script |
| HtmlUtils.DollarVariableIsDropped | pkg/utils/html_utils.go:90-95 | on "</head>" and the script "$x" the function as written loses the script text, and the literal one keeps it |
| HtmlUtils.InjectScriptAsWritten | pkg/utils/html_utils.go:89-105 | InjectScript as written, through template expansion; DollarVariableIsDropped and AsWrittenAgreesWithoutDollar state how it differs from the literal one |
| HtmlUtils.InjectHTMLAsWritten | pkg/utils/html_utils.go:107-117 | InjectHTML as written, through template expansion; AsWrittenAgreesWithoutDollar states when it agrees with the literal one |
| HtmlUtils.InjectScript | pkg/utils/html_utils.go:89-105 | the literal insertion before `</head>`, else `</body>`, else at the end; InjectScriptPlacement, InjectScriptBeforeHead and InjectScriptBeforeBody state it |
| HtmlUtils.InjectHTML | pkg/utils/html_utils.go:107-117 | the literal insertion before `</body>`, else at the end; InjectHTMLPlacement, InjectHTMLBeforeBody and InjectHTMLSingleBody state it |
| AuthStore.Store.constructor | web/src/stores/auth.ts:9-12 | the store starts with no user and no permissions, and the token read from storage |
| AuthStore.Store.UserDisplayName | web/src/stores/auth.ts:17-20 | empty without a user; else the nickname when truthy, then the username when not empty, then the email |
| AuthStore.Store.HasPermission | web/src/stores/auth.ts:226-233 | an admin holds every permission; anyone else holds exactly the listed permissions, or all of them with "*" |
| AuthStore.Store.HasAnyPermission | web/src/stores/auth.ts:236-238 | some listed permission is held; never for the empty list |
| AuthStore.Store.HasAllPermissions | web/src/stores/auth.ts:241-243 | every listed permission is held; always for the empty list |
| AuthStore.Store.HasRole | web/src/stores/auth.ts:246-249 | a signed-in user has the role asked for, and an admin has every role |
| AuthStore.Store.HasAnyRole | web/src/stores/auth.ts:252-254 | some listed role is held; never for the empty list |
| AuthStore.Store.HasAllRoles | web/src/stores/auth.ts:257-259 | every listed role is held; always for the empty list |
| AuthStore.Store.Logout | web/src/stores/auth.ts:97-117 | the API is called exactly when there is a token; whether it throws or not, token, user and permissions are cleared and the three storage keys removed, and no one is signed in afterwards |
| AuthStore.AdminHasAllPermissions | web/src/stores/auth.ts:228-230 | an admin passes every permission check, whole lists included |
| AuthStore.NoPermissionsNoAccess | web/src/stores/auth.ts:231 | a non-admin with an empty permission list holds nothing, not even "*" |
| AuthStore.WildcardGrantsAll | web/src/stores/auth.ts:232 | "*" in the list grants every permission |
| AuthStore.Store.IsAuthenticated | web/src/stores/auth.ts:15 | a truthy token and a user are both held; Logout ensures it is false afterwards |
| RouterGuard.PageTitle | web/src/router/index.ts:240-242 | a non-empty meta title becomes the title with the app-name suffix; otherwise the title is left alone |
| RouterGuard.AnyHeld | web/src/router/index.ts:262-264 | some listed permission passes the store's check |
| RouterGuard.Decide | web/src/router/index.ts:236-279 | a protected route sends a visitor who is signed out even after checkAuth to /login with the way back; it lets a signed-in user through exactly when the route lists no permissions or one is held, else to /dashboard; an open route bounces only a signed-in user from /login |
| RouterGuard.BeforeEach | web/src/router/index.ts:236-279 | the document title and the single next call are those the decision gives |
| RouterGuard.EmptyPermissionListBounces | web/src/router/index.ts:261-270 | an empty permission array always sends a signed-in user to /dashboard |
| RouterGuard.PermissiveStoreAdmitsListed | web/src/router/index.ts:261-270 | with the store the router imports, whose check answers true, any non-empty list lets a signed-in user through |
| AppStore.DeviceFor | web/src/store/app.ts:79-82 | below 768 pixels mobile, from 768 below 1024 tablet, from 1024 desktop, each exactly |
| AppStore.OtherTheme | web/src/store/app.ts:36 | dark becomes light and anything else becomes dark |
| AppStore.OtherThemeTwice | web/src/store/app.ts:36 | toggling twice restores dark or light; any other value becomes dark |
| AppStore.Store.constructor | web/src/store/app.ts:6-13 | the sidebar open, the dark theme, not loading, no breadcrumbs, and neither mobile nor tablet |
| AppStore.Store.DeviceType | web/src/store/app.ts:16-20 | mobile when isMobile, else tablet when isTablet, else desktop |
| WebStorage.BoolString | web/src/store/app.ts:25 | String of a boolean is "true" exactly for true |
| WebStorage.LocalStorage.GetItem | web/src/stores/theme-storage.ts:7 | the stored text exactly when the key is present, or the null of a missing key |
| WebStorage.LocalStorage.SetItem | web/src/stores/theme-storage.ts:20 | the key maps to the value and every other key is unchanged |
| WebStorage.LocalStorage.RemoveItem | web/src/stores/theme-storage.ts:47 | the key is gone and every other key is unchanged |
| AppStore.Store.ToggleSidebar | web/src/store/app.ts:23-26 | the sidebar flag flips and is saved as "true" or "false"; nothing else changes |
| AppStore.Store.SetSidebarCollapsed | web/src/store/app.ts:29-32 | the flag given is set and saved; nothing else changes |
| AppStore.Store.UpdateThemeClass | web/src/store/app.ts:49-56 | the dark class is added for the dark theme and removed otherwise, other classes untouched |
| AppStore.Store.ToggleTheme | web/src/store/app.ts:35-39 | the other theme is set, saved under its key, and shown: the root element gains or loses only the dark class; the sidebar, loading, breadcrumb and device state are unchanged |
| AppStore.Store.SetTheme | web/src/store/app.ts:42-46 | the theme given is set, saved under its key, and shown: the root element gains or loses only the dark class; the rest of the state is unchanged |
| AppStore.Store.SetLoading | web/src/store/app.ts:59-61 | only the loading flag changes; sidebar, theme, breadcrumbs and device flags are kept |
| AppStore.Store.SetBreadcrumbs | web/src/store/app.ts:64-66 | the list is replaced; sidebar, theme, loading and device flags are kept |
| AppStore.Store.AddBreadcrumb | web/src/store/app.ts:69-71 | the crumb is appended at the end; the rest of the state is kept |
| AppStore.Store.ClearBreadcrumbs | web/src/store/app.ts:74-76 | the list is emptied; the rest of the state is kept |
| AppStore.Store.DetectDevice | web/src/store/app.ts:79-88 | the two flags follow the width and are never both set; a mobile width collapses an open sidebar and saves that, and otherwise storage is untouched |
| AppStore.Store.InitApp | web/src/store/app.ts:91-111 | a saved non-empty theme is restored and shown; a saved sidebar state is restored as "true" or not, except that a mobile width always collapses it; the device flags follow the width; storage changes only when a mobile width collapses an open sidebar, which saves "true"; the root element gains or loses only the dark class |
| ThemeStorage.Load | web/src/stores/theme-storage.ts:5-16 | the parsed settings when the key holds text that parses; {} when it is missing, empty or unparsable |
| ThemeStorage.WithDefaults | web/src/stores/theme-storage.ts:26-43 | every field is the saved value when present and the default when absent, so false and "" are kept as `??` keeps them |
| ThemeStorage.EmptyGivesDefaults | web/src/stores/theme-storage.ts:26-43 | nothing saved gives exactly the defaults |
| ThemeStorage.FullIsKept | web/src/stores/theme-storage.ts:26-43 | a complete saved configuration comes back unchanged |
| ThemeStorage.FalsyValuesAreKept | web/src/stores/theme-storage.ts:29-33 | a saved false or empty value is kept, not replaced by the default |
| ThemeStorage.Save | web/src/stores/theme-storage.ts:18-24 | the theme key gets the stringified configuration and no other key changes |
| ThemeStorage.Clear | web/src/stores/theme-storage.ts:45-51 | only the theme key is removed |
| ThemeStorage.Import | web/src/stores/theme-storage.ts:63-72 | text that parses is saved re-stringified and true is returned; otherwise storage is unchanged and false returned |
| ThemeStorage.SaveThenLoad | web/src/stores/theme-storage.ts:18-43 | with a codec that round-trips, saving a configuration and loading it with defaults gives it back |
| ThemeStorage.LoadWithDefaults | web/src/stores/theme-storage.ts:26-43 | WithDefaults of the loaded object; EmptyGivesDefaults, FullIsKept, FalsyValuesAreKept and SaveThenLoad state it |
| ThemeStore.NextMode | web/src/stores/theme-store.ts:65-72 | the cycle light, dark, auto, and any other value to light |
| ThemeStore.NextModeCycles | web/src/stores/theme-store.ts:65-72 | three toggles restore any of the three modes, and any value is on the cycle after one toggle |
| ThemeStore.IsDarkFor | web/src/stores/theme-store.ts:57-61 | under auto the system's answer, otherwise exactly whether the mode is dark |
| ThemeStore.Flipped | web/src/stores/theme-store.ts:85-154 | the chosen flag is inverted and the theme settings are kept |
| ThemeStore.FlippedKeepsOthers | web/src/stores/theme-store.ts:85-154 | a toggle leaves every other flag alone |
| ThemeStore.FlipTwice | web/src/stores/theme-store.ts:85-154 | toggling a flag twice restores the configuration |
| ThemeStore.WithSetting | web/src/stores/theme-store.ts:96-121 | each setter replaces its own field only |
| ThemeStore.DefaultsAreSettled | web/src/stores/theme-types.ts:23-37 | the default dark mode with isDark true is consistent whatever the system theme |
| ThemeStore.Store.constructor | web/src/stores/theme-store.ts:13-25 | every setting starts at its default |
| ThemeStore.Store.SaveSettings | web/src/stores/theme-store.ts:46-49 | the theme key gets the current configuration and no other key changes |
| ThemeStore.Store.Autosave | web/src/stores/theme-store.ts:210-216 | the watch: when a setting has changed the theme key gets the current configuration and no other key changes; otherwise storage is unchanged |
| ThemeStore.Store.ApplyTheme | web/src/stores/theme-store.ts:52-62 | only isDark changes, to the rule's value, so it agrees with the mode afterwards; when it did change, the watch saves the configuration, else storage is unchanged |
| ThemeStore.Store.LoadSettings | web/src/stores/theme-store.ts:28-43 | every setting is the saved value with its default, read before the watch runs; when that changed a setting the watch saves the configuration, else storage is unchanged |
| ThemeStore.Store.ToggleTheme | web/src/stores/theme-store.ts:65-75 | the mode moves one step in the cycle, isDark follows it, and the result is saved; storage differs from before only at the theme key |
| ThemeStore.Store.SetThemeMode | web/src/stores/theme-store.ts:78-82 | the mode given, isDark following it, saved; storage differs from before only at the theme key |
| ThemeStore.Store.Toggle | web/src/stores/theme-store.ts:85-154 | the flag inverts; animation and compact mode also settle isDark; the rest change only their flag; always saved; storage differs from before only at the theme key |
| ThemeStore.Store.SetSidebarCollapsed | web/src/stores/theme-store.ts:90-93 | the flag given, saved, without applying the theme; storage differs from before only at the theme key |
| ThemeStore.Store.Set | web/src/stores/theme-store.ts:96-121 | the value given replaces its field, isDark is settled, and the result is saved; storage differs from before only at the theme key |
| ThemeStore.Store.ResetSettings | web/src/stores/theme-store.ts:157-175 | every setting back to its default, settled and saved; storage differs from before only at the theme key |
| ThemeStore.Store.InitTheme | web/src/stores/theme-store.ts:197-207 | the saved settings with defaults, with isDark settled for the system theme; when loading or settling changed a setting the watch saves the result under the theme key, else storage is unchanged |
| ProxyUtils.TypeTagType | web/src/views/proxy/utils/proxyUtils.ts:10-17 | http is primary, https success, socks5 warning, and every other type info, each exactly |
| ProxyUtils.StatusTagType | web/src/views/proxy/utils/proxyUtils.ts:24-32 | active is success, error danger, testing warning, and everything else (inactive included) info; never primary |
| ProxyUtils.StatusText | web/src/views/proxy/utils/proxyUtils.ts:39-47 | each of the four statuses has its own label and every other status the "unknown" label, each exactly |
| ProxyUtils.StatusTextIsInjective | web/src/views/proxy/utils/proxyUtils.ts:24-47 | statuses with the same label are the same known status, and get the same tag type |
| ProxyUtils.OctetPatternIsByte | web/src/views/proxy/utils/proxyUtils.ts:90 | the octet alternative matches exactly the one- to three-digit texts of value at most 255, leading zeros included |
| ProxyUtils.DottedQuadIsValid | web/src/views/proxy/utils/proxyUtils.ts:89-92 | four octets joined by dots are accepted |
| ProxyUtils.ValidIPIsDottedQuad | web/src/views/proxy/utils/proxyUtils.ts:89-92 | an accepted address is four digit fields of value at most 255 joined by dots |
| ProxyUtils.OverlargeOctetRefused | web/src/views/proxy/utils/proxyUtils.ts:90 | a first field above 255 is refused |
| ProxyUtils.EmptyDomainAccepted | web/src/views/proxy/utils/proxyUtils.ts:100 | the whole pattern is optional, so the empty name is accepted |
| ProxyUtils.DoubleDotRefused | web/src/views/proxy/utils/proxyUtils.ts:100 | an empty label between two dots is refused |
| ProxyUtils.LeadingHyphenRefused | web/src/views/proxy/utils/proxyUtils.ts:100 | a label may not start with a hyphen |
| ProxyUtils.TwoLabelsAccepted | web/src/views/proxy/utils/proxyUtils.ts:100 | two valid labels joined by a dot are accepted |
| ProxyUtils.LongLabelRefused | web/src/views/proxy/utils/proxyUtils.ts:100 | a label longer than 63 characters is refused |
| ProxyUtils.IsValidPort | web/src/views/proxy/utils/proxyUtils.ts:109-111 | an accepted port is a whole number from 1 to 65535 |
| ProxyUtils.WholePorts | web/src/views/proxy/utils/proxyUtils.ts:109-111 | a whole number is accepted exactly when it is in 1..65535 |
| ProxyUtils.FractionalPortRefused | web/src/views/proxy/utils/proxyUtils.ts:110 | a fractional number in range is refused because it is not an integer |
| ProxyUtils.IsValidIP | web/src/views/proxy/utils/proxyUtils.ts:89-92 | four dot-separated octet patterns; DottedQuadIsValid and ValidIPIsDottedQuad state both directions |
| ProxyUtils.IsValidDomain | web/src/views/proxy/utils/proxyUtils.ts:99-102 | "" or dot-separated labels; LabelsAccepted and ValidDomainIsLabels state both directions |
| ProxyUtils.LabelsAccepted | web/src/views/proxy/utils/proxyUtils.ts:99-102 | any non-empty list of labels joined by dots is accepted |
| ProxyUtils.ValidDomainIsLabels | web/src/views/proxy/utils/proxyUtils.ts:99-102 | an accepted non-empty name is the dot-join of its fields, each of them a label |

## Left out

- Concurrency. The access-log goroutine is a synchronous append to `savedLogs`, and the rate limiter's shared map is a class field without locking.
- Without a database, the proxy writes its log to the console and a file (internal/proxy/proxy_server.go:149-158). This model records nothing.
- Timeouts. The 30-second client timeout is a recorded constant. A round trip that times out is one that returns no answer.
- ProxyService.ValidateProxyConfig: the source wraps url.Parse's error with `%w` ("invalid target URL: " and the cause, internal/services/proxy_service.go:296); the model returns only the message prefix.
- ProxyService.ProxyConfigStore.Create: the create error wraps the database's cause with `%w` (internal/services/proxy_service.go:53); the model returns only the prefix "failed to create proxy config". The same holds for the other wrapped errors of the service.
- RulePriorityService: every error the service returns wraps gorm's cause with `%w` (internal/services/rule_priority_service.go:47,55,83,91,116,138,170,179,183); the model returns only the message prefix, such as "failed to get current rule".
- ProxyService.Merged: gorm's `Updates` with a struct other than the model also writes a non-zero `ID` of the update; the model keeps the stored ID, so an update naming another ID is not covered.
- Database errors other than "record not found" are not modelled. Every lookup either finds its row or reports the not-found error.
- The popup query in the injector filters on columns that the `Popup` model lacks. It is a parameter that returns the popups or no database.
- ProxyService: `ListProxyConfigs` and `GetProxyStats` are paging and aggregation over SQL, outside the proxy domain rules.
- ProxyService.ProxyConfigStore.Delete: the related popups and rules that the transaction also deletes are not in the model. It states the proxy_configs table only.
- RulePriorityService.SetPriority: gorm writes `updated_at` on rows it finds and does nothing for a missing ID. The model keeps this no-op and does not report an error.
- SubmissionExport: `ExportSubmissionsByDateRange` compares dates as SQL text, and that comparison is not modelled. `json.MarshalIndent` is a parameter.
- SubmissionExport.CsvRow: the created-at column is the text the time formatter produced. `Time.Format` is not modelled.
- Middleware: the logging, recovery and security-header middlewares are left out, because they only set fixed headers and log. The 429 response body the rate limiter writes is not modelled; `Admit` states the decision and the window.
- SubmissionQuery: `uuid.Parse` and `time.Parse` are parameters. A date is its UNIX second, so the end-of-day shift is 86399 seconds.
- Config: `GetDSN`, `GetServerAddress` and `IsProduction` are left out, because they only format strings and read the environment. `Load` reads the fields that `Validate` inspects and the server host; the other settings are left out. `.env` file loading is left out, and the environment is a map.
- NetworkUtils: `ExtractDomain` and `IsPrivateIP` are left out, because one is `url.Parse` alone and the other is `net.ParseIP`. `NormalizeURL` returns the normalised URL value, and `url.URL.String` is not modelled.
- NetworkUtils.NormalizedHost: `strings.ToLower` is ASCII lower-casing here; hosts are taken to be ASCII.
- HtmlUtils: `SanitizeHTML` and `RewriteURLsInHTML` are defined by regular expressions beyond this model. Name characters for `$name` are ASCII.
- HTML trees: the proxy mutates nodes in place through shared references. The model builds new trees instead, so aliasing between nodes is not captured.
- HTML text: `html.Parse` and `html.Render` are parameters, and the injected style and script text are fixed strings.
- Auth store: `login`, `register`, `fetchUserInfo`, `initAuth`, `updateUserInfo`, `changePassword` and `forgotPassword` are left out, because they wait on the API.
- Theme store: the DOM side of `applyTheme` and the system-theme listener are left out; the system theme is a parameter.
- ThemeStorage: `export` (web/src/stores/theme-storage.ts:53-61) is JSON pretty-printing and is left out.
- Theme store: the `watch` autosave runs after the synchronous code of an operation; the model folds it into the operation (`Autosave`). For the setters that save on their own it writes the same text again, which changes nothing.
- AppStore.Store.SetBreadcrumbs: the store keeps the caller's array, and `addBreadcrumb` pushes onto it in place, so the caller's array grows too. The model's breadcrumbs are a value, so that aliasing is not captured (AppStore.Store.AddBreadcrumb appends to the store's copy only).
- AppStore.Store.InitApp: the resize listener is left out; the window width is a parameter.
- ProxyUtils: `formatBytes` and `formatDate` use floating point and the calendar.
- ProxyUtils.IsValidPort takes any real number. NaN and the infinities of a JavaScript number are not covered, and `Number.isInteger` refuses all of them.
- ProxyUtils.TypeTagType, ProxyUtils.StatusTagType and ProxyUtils.StatusText do not model keys inherited from `Object.prototype` (such as `"constructor"`), which a JavaScript record lookup would also find.
- HtmlInjector.CreatePopupElement: builds the corrected id `popup-` + the UUID's text (see Findings), not the `%d` id that internal/proxy/html_injector.go:130 writes.
- HtmlInjector.Containers: the containers carry the corrected id, not the source's `popup-[b0 … b15]`.
- HtmlInjector.InjectInteractiveElements: the appended containers carry the corrected id, not the source's `%d` id.
- HtmlInjector.InjectCustomContent: its result, `Injected`, holds containers with the corrected id, not the source's `%d` id.
- HtmlInjector.InjectedSpec: its body clause is about the corrected-id containers, not those the source builds.
- HtmlInjector.ProcessHTML: the rendered page carries the corrected popup ids where the program renders `popup-[…]`.
- SubmissionExport.RowsOf: each row starts with the UUID's text (the corrected row of the Findings), not the `%d` list that internal/services/submission_export_service.go:68-69 writes.
- SubmissionExport.FormatLine: the line is the corrected row, not the `%d` one.
- SubmissionExport.ExportToCSV: the rows after the header are the corrected rows, not the `%d` ones.
- SubmissionExport.ExportSubmissions: the csv branch yields the corrected rows, not the `%d` ones.
- ProxyService.IndexOfId: looks rows up by UUID. The source's GetProxyConfig, UpdateProxyConfig, DeleteProxyConfig and ToggleProxyConfig take `id uint` (internal/services/proxy_service.go:65,91,136,212) and pass it to `db.First` against the `uuid` primary key (internal/models/models.go:12). PostgreSQL refuses to compare a uuid with an integer, so in the program that lookup never returns a row. The handlers also refuse a UUID path id with 400, because they parse it with `strconv.ParseUint` (internal/handlers/proxy_handler.go:67). The model gives the lookup by UUID that the data model evidently intends.
- ProxyService.ProxyConfigStore.Get: finds the row by UUID; in the program the numeric-id lookup always fails with a database error.
- ProxyService.ProxyConfigStore.Update: its success branch needs the UUID lookup; in the program the numeric-id lookup fails after validation, so no update is written.
- ProxyService.ProxyConfigStore.Toggle: flips a row found by UUID; in the program the numeric-id lookup always fails.
- ProxyService.ProxyConfigStore.Delete: removes a row found by UUID; in the program the numeric-id lookup always fails.
- ThemeStorage.Load: the codec's `parse` gives an object or a failure, so any stored JSON value that is not an object is not covered. `load` returns such a value as it is (`5`, `[]`, `true`, `null`); `loadWithDefaults` then gives the defaults for most of them, but dereferences `null` and throws a TypeError (web/src/stores/theme-storage.ts:28-29).
- ThemeStorage.Import: `ThemeStorage.import` saves any JSON value that is not an object (`"null"`, `"5"`, `"[]"`, `"true"`) and returns true in the program; the model's codec parses only objects, so those cases are not covered.
- `web/src/store/auth.ts` is left out except through `RouterGuard.PermissiveStoreAdmitsListed`.
  - It is the store the router imports.
  - Its `hasPermission` always answers true.
  - The rest of it is API calls.

## Findings

| source | as written | input that shows it | evidently intended | confidence | as-written member | corrected member |
|---|---|---|---|---|---|---|
| pkg/utils/html_utils.go:94 | `ReplaceAllString` expands `$name` in the inserted script and HTML, so a script containing `$x` loses that text | `InjectScript("</head>", "$x")` gives `<script></script></head>` | the script inserted as given, as `ReplaceAllLiteralString` does | high; not executed | HtmlUtils.DollarVariableIsDropped | HtmlUtils.InjectScriptPlacement |
| internal/proxy/html_injector.go:130 | the popup container id is formatted with `%d` from a `uuid.UUID`, giving `popup-[b0 b1 ... b15]` | any popup: character 6 of the id is `[`, where the script's `popup-` + UUID text has a hex digit | the id `popup-` + the UUID's text, which `ProxyPopupManager.show` looks up | high; not executed | HtmlInjector.CreatePopupElementAsWritten, HtmlInjector.PopupIdAsWrittenNeverMatchesScript | HtmlInjector.CreatePopupElement |
| internal/services/submission_export_service.go:68-69 | the CSV id column is formatted with `%d` from a `uuid.UUID`, giving a bracketed list of sixteen decimals | any submission: its row starts with `[` | the UUID's text, as the popup_id column has | high; not executed | SubmissionExport.CsvIdAsWrittenIsNotUuid | SubmissionExport.RowFieldsReadBack |
