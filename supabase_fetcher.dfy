/** supabase/functions/image-transformer/lib/image-fetcher.ts: validate the
    URL, pick a Referer and an Origin from the rule table, optionally route
    through the `IMAGE_PROXY` endpoint, and assemble the request headers on
    a mutable `Headers` object. */
module SupabaseFetcher {

  import opened Wrappers
  import opened Upstream
  import HttpHeaders
  import RefererRules
  import Text

  /** The refusals of `new URL(imageUrl)` and of the scheme check, as this
      fetcher words them: with a full stop. */
  const URL_MESSAGES: UrlMessages := UrlMessages("Invalid image url.", "Only http and https protocols are supported.")

  /** `imageProxyEndpoint`: the trimmed `IMAGE_PROXY` variable, or none when
      it is unset, unreadable (`env` is `None`) or blank. */
  function ProxyEndpoint(env: Option<string>): (r: Option<string>)
    ensures r.Some? <==> env.Some? && Text.Trim(env.value) != []
    ensures r.Some? ==> r.value == Text.Trim(env.value)
  {
    match env
    case None => None
    case Some(value) => if Text.Trim(value) == [] then None else Some(Text.Trim(value))
  }

  /** `buildRequestUrl(original)`: the image URL itself, or the proxy
      endpoint with `url` set to the image URL. */
  function BuildRequestUrl(original: Url, endpoint: Option<string>, parse: UrlParser): (r: Result<RequestTarget, FetchError>)
    ensures endpoint.None? ==> r == Ok(Direct(original.href))
    ensures endpoint.Some? && parse(endpoint.value).None? ==>
      r == Err(FetchImageError("Invalid IMAGE_PROXY environment variable.", None))
    ensures endpoint.Some? && parse(endpoint.value).Some? ==>
      r == Ok(ViaProxy(parse(endpoint.value).value, original.href))
  {
    match endpoint
    case None => Ok(Direct(original.href))
    case Some(value) =>
      match parse(value)
      case None => Err(FetchImageError("Invalid IMAGE_PROXY environment variable.", None))
      case Some(proxyUrl) => Ok(ViaProxy(proxyUrl, original.href))
  }

  /** The Referer this fetcher sends: none through the proxy or when empty. */
  function SentReferer(resolved: RefererRules.Resolved, isProxied: bool): Option<string> {
    if !isProxied && resolved.referer != "" then Some(resolved.referer) else None
  }

  /** The Origin this fetcher sends: none through the proxy; the resolved
      origin unless it is empty or the opaque `"null"`; otherwise the
      referer, and only for a rule that forces it. */
  function SentOrigin(resolved: RefererRules.Resolved, force: bool, isProxied: bool): Option<string> {
    if isProxied then None
    else if resolved.origin != "" && resolved.origin != "null" then Some(resolved.origin)
    else if force && resolved.referer != "" then Some(resolved.referer)
    else None
  }

  /** Whether the rule that matched, if any, forces an Origin. */
  function Forced(href: string): bool {
    match RefererRules.FindRule(href)
    case None => false
    case Some(rule) => rule.force
  }

  /** User-Agent and Accept, then `set` of Referer and Origin when present. */
  function HeaderListFor(referer: Option<string>, origin: Option<string>): HttpHeaders.HeaderList {
    var base := [("User-Agent", DEFAULT_USER_AGENT), ("Accept", ACCEPT_HEADER)];
    var withReferer := if referer.Some? then HttpHeaders.SetEntry(base, "Referer", referer.value) else base;
    if origin.Some? then HttpHeaders.SetEntry(withReferer, "Origin", origin.value) else withReferer
  }

  /** The assembled headers hold the fixed User-Agent and Accept, exactly
      the Referer and Origin asked for, and no other name. */
  lemma HeaderListForReads(referer: Option<string>, origin: Option<string>)
    ensures HttpHeaders.Get(HeaderListFor(referer, origin), "User-Agent") == Some(DEFAULT_USER_AGENT)
    ensures HttpHeaders.Get(HeaderListFor(referer, origin), "Accept") == Some(ACCEPT_HEADER)
    ensures HttpHeaders.Get(HeaderListFor(referer, origin), "Referer") == referer
    ensures HttpHeaders.Get(HeaderListFor(referer, origin), "Origin") == origin
    ensures forall name :: HttpHeaders.Contains(HeaderListFor(referer, origin), name) ==>
      exists i :: 0 <= i < |REQUEST_NAMES| && Text.EqualsIgnoreCase(REQUEST_NAMES[i], name)
  {
    var base := [("User-Agent", DEFAULT_USER_AGENT), ("Accept", ACCEPT_HEADER)];
    var withReferer := if referer.Some? then HttpHeaders.SetEntry(base, "Referer", referer.value) else base;
    BaseHeaders(base);
    AfterReferer(base, referer);
    AfterOrigin(withReferer, referer, origin);
  }

  /** No header name outside the four this fetcher sets. */
  ghost predicate OnlyRequestNames(list: HttpHeaders.HeaderList) {
    forall name :: HttpHeaders.Contains(list, name) ==>
      exists i :: 0 <= i < |REQUEST_NAMES| && Text.EqualsIgnoreCase(REQUEST_NAMES[i], name)
  }

  /** The first `set`: the Referer, when there is one. */
  lemma AfterReferer(base: HttpHeaders.HeaderList, referer: Option<string>)
    requires HttpHeaders.Get(base, "User-Agent") == Some(DEFAULT_USER_AGENT)
    requires HttpHeaders.Get(base, "Accept") == Some(ACCEPT_HEADER)
    requires HttpHeaders.Get(base, "Referer") == None
    requires HttpHeaders.Get(base, "Origin") == None
    requires OnlyRequestNames(base)
    ensures var list := if referer.Some? then HttpHeaders.SetEntry(base, "Referer", referer.value) else base;
      HttpHeaders.Get(list, "User-Agent") == Some(DEFAULT_USER_AGENT) &&
      HttpHeaders.Get(list, "Accept") == Some(ACCEPT_HEADER) &&
      HttpHeaders.Get(list, "Referer") == referer &&
      HttpHeaders.Get(list, "Origin") == None &&
      OnlyRequestNames(list)
  {
    if referer.Some? {
      SetReferer(base, referer.value);
    }
  }

  lemma SetReferer(base: HttpHeaders.HeaderList, value: string)
    ensures var list := HttpHeaders.SetEntry(base, "Referer", value);
      HttpHeaders.Get(list, "User-Agent") == HttpHeaders.Get(base, "User-Agent") &&
      HttpHeaders.Get(list, "Accept") == HttpHeaders.Get(base, "Accept") &&
      HttpHeaders.Get(list, "Origin") == HttpHeaders.Get(base, "Origin") &&
      (OnlyRequestNames(base) ==> OnlyRequestNames(list))
  {
    NamesDiffer();
    HttpHeaders.SetKeepsOthers(base, "Referer", value, "User-Agent");
    HttpHeaders.SetKeepsOthers(base, "Referer", value, "Accept");
    HttpHeaders.SetKeepsOthers(base, "Referer", value, "Origin");
    if OnlyRequestNames(base) {
      SetWithinNames(base, "Referer", value, 2);
    }
  }

  /** The second `set`: the Origin, when there is one. */
  lemma AfterOrigin(withReferer: HttpHeaders.HeaderList, referer: Option<string>, origin: Option<string>)
    requires HttpHeaders.Get(withReferer, "User-Agent") == Some(DEFAULT_USER_AGENT)
    requires HttpHeaders.Get(withReferer, "Accept") == Some(ACCEPT_HEADER)
    requires HttpHeaders.Get(withReferer, "Referer") == referer
    requires HttpHeaders.Get(withReferer, "Origin") == None
    requires OnlyRequestNames(withReferer)
    ensures var list := if origin.Some? then HttpHeaders.SetEntry(withReferer, "Origin", origin.value) else withReferer;
      HttpHeaders.Get(list, "User-Agent") == Some(DEFAULT_USER_AGENT) &&
      HttpHeaders.Get(list, "Accept") == Some(ACCEPT_HEADER) &&
      HttpHeaders.Get(list, "Referer") == referer &&
      HttpHeaders.Get(list, "Origin") == origin &&
      OnlyRequestNames(list)
  {
    if origin.Some? {
      NamesDiffer();
      HttpHeaders.SetKeepsOthers(withReferer, "Origin", origin.value, "User-Agent");
      HttpHeaders.SetKeepsOthers(withReferer, "Origin", origin.value, "Accept");
      HttpHeaders.SetKeepsOthers(withReferer, "Origin", origin.value, "Referer");
      SetWithinNames(withReferer, "Origin", origin.value, 3);
    }
  }

  /** The two headers every request starts with. */
  lemma BaseHeaders(base: HttpHeaders.HeaderList)
    requires base == [("User-Agent", DEFAULT_USER_AGENT), ("Accept", ACCEPT_HEADER)]
    ensures HttpHeaders.Get(base, "User-Agent") == Some(DEFAULT_USER_AGENT)
    ensures HttpHeaders.Get(base, "Accept") == Some(ACCEPT_HEADER)
    ensures HttpHeaders.Get(base, "Referer") == None
    ensures HttpHeaders.Get(base, "Origin") == None
    ensures OnlyRequestNames(base)
  {
    RequestNamesDistinct();
    assert REQUEST_NAMES[0] == "User-Agent" && REQUEST_NAMES[1] == "Accept";
    assert REQUEST_NAMES[2] == "Referer" && REQUEST_NAMES[3] == "Origin";
    HttpHeaders.GetUnique(base, 0, "User-Agent");
    HttpHeaders.GetUnique(base, 1, "Accept");
    forall name | HttpHeaders.Contains(base, name)
      ensures exists i :: 0 <= i < |REQUEST_NAMES| && Text.EqualsIgnoreCase(REQUEST_NAMES[i], name)
    {
      var j :| 0 <= j < |base| && HttpHeaders.NameIs(base[j], name);
      assert Text.EqualsIgnoreCase(REQUEST_NAMES[j], name);
    }
  }

  /** The four request names are different header names. */
  lemma NamesDiffer()
    ensures !Text.EqualsIgnoreCase("User-Agent", "Referer") && !Text.EqualsIgnoreCase("Accept", "Referer")
    ensures !Text.EqualsIgnoreCase("Origin", "Referer") && !Text.EqualsIgnoreCase("User-Agent", "Origin")
    ensures !Text.EqualsIgnoreCase("Accept", "Origin") && !Text.EqualsIgnoreCase("Referer", "Origin")
  {
    HttpHeaders.DiffersAt("User-Agent", "Referer", 0);
    HttpHeaders.DiffersAt("Accept", "Referer", 0);
    HttpHeaders.DiffersAt("Origin", "Referer", 0);
    HttpHeaders.DiffersAt("User-Agent", "Origin", 0);
    HttpHeaders.DiffersAt("Accept", "Origin", 0);
    HttpHeaders.DiffersAt("Referer", "Origin", 0);
  }

  /** Setting the request name `REQUEST_NAMES[k]` adds no name outside the
      four. */
  lemma SetWithinNames(list: HttpHeaders.HeaderList, name: string, value: string, k: nat)
    requires k < |REQUEST_NAMES| && name == REQUEST_NAMES[k]
    requires OnlyRequestNames(list)
    ensures OnlyRequestNames(HttpHeaders.SetEntry(list, name, value))
  {
    forall n | HttpHeaders.Contains(HttpHeaders.SetEntry(list, name, value), n)
      ensures exists i :: 0 <= i < |REQUEST_NAMES| && Text.EqualsIgnoreCase(REQUEST_NAMES[i], n)
    {
      if !Text.EqualsIgnoreCase(n, name) {
        HttpHeaders.SetKeepsOthers(list, name, value, n);
      } else {
        assert Text.EqualsIgnoreCase(REQUEST_NAMES[k], n);
      }
    }
  }

  /** The request `fetch` receives, or the error raised before it. */
  function PlanRequest(imageUrl: string, parse: UrlParser, endpoint: Option<string>): (r: Result<UpstreamRequest, FetchError>)
    ensures ParseImageUrl(imageUrl, parse, URL_MESSAGES).Err? ==> r == Err(ParseImageUrl(imageUrl, parse, URL_MESSAGES).error)
    ensures ParseImageUrl(imageUrl, parse, URL_MESSAGES).Ok? ==>
      var parsed := ParseImageUrl(imageUrl, parse, URL_MESSAGES).value;
      (BuildRequestUrl(parsed, endpoint, parse).Err? ==> r == Err(BuildRequestUrl(parsed, endpoint, parse).error)) &&
      (BuildRequestUrl(parsed, endpoint, parse).Ok? ==> r.Ok? && r.value.target == BuildRequestUrl(parsed, endpoint, parse).value)
    ensures r.Ok? ==>
      var parsed := ParseImageUrl(imageUrl, parse, URL_MESSAGES).value;
      var resolved := RefererRules.ResolveRefererFor(parsed, parse);
      var isProxied := endpoint.Some?;
      HttpHeaders.Get(r.value.headers, "User-Agent") == Some(DEFAULT_USER_AGENT) &&
      HttpHeaders.Get(r.value.headers, "Accept") == Some(ACCEPT_HEADER) &&
      HttpHeaders.Get(r.value.headers, "Referer") == SentReferer(resolved, isProxied) &&
      HttpHeaders.Get(r.value.headers, "Origin") == SentOrigin(resolved, Forced(parsed.href), isProxied)
  {
    match ParseImageUrl(imageUrl, parse, URL_MESSAGES)
    case Err(e) => Err(e)
    case Ok(parsed) =>
      var resolved := RefererRules.ResolveRefererFor(parsed, parse);
      HeaderListForReads(SentReferer(resolved, endpoint.Some?), SentOrigin(resolved, Forced(parsed.href), endpoint.Some?));
      match BuildRequestUrl(parsed, endpoint, parse)
      case Err(e) => Err(e)
      case Ok(target) =>
        Ok(UpstreamRequest(target, HeaderListFor(
          SentReferer(resolved, endpoint.Some?),
          SentOrigin(resolved, Forced(parsed.href), endpoint.Some?))))
  }

  /** `fetchRemoteImage(imageUrl)` step by step: the referer and origin are
      resolved with a reassigned variable, and the headers are built on a
      `Headers` object by conditional `set` calls. The endpoint is the
      already-read `imageProxyEndpoint`. */
  method FetchRemoteImage(imageUrl: string, parse: UrlParser, endpoint: Option<string>, fetch: UpstreamRequest -> FetchOutcome)
    returns (r: Result<RemoteImage, FetchError>)
    ensures PlanRequest(imageUrl, parse, endpoint).Err? ==> r == Err(PlanRequest(imageUrl, parse, endpoint).error)
    ensures PlanRequest(imageUrl, parse, endpoint).Ok? ==> r == Receive(fetch(PlanRequest(imageUrl, parse, endpoint).value))
  {
    var parsedOrError := ParseImageUrl(imageUrl, parse, URL_MESSAGES);
    if parsedOrError.Err? {
      return Err(parsedOrError.error);
    }
    var parsed := parsedOrError.value;

    var origin := parsed.origin;
    var matched := RefererRules.FindRule(parsed.href);
    var resolvedReferer := if matched.Some? then matched.value.referer else origin;
    var resolvedOrigin := origin;
    if matched.Some? {
      match parse(resolvedReferer)
      case Some(refererUrl) => resolvedOrigin := refererUrl.origin;
      case None => resolvedOrigin := resolvedReferer;
    }
    assert RefererRules.Resolved(resolvedReferer, resolvedOrigin) == RefererRules.ResolveRefererFor(parsed, parse);

    var targetOrError := BuildRequestUrl(parsed, endpoint, parse);
    if targetOrError.Err? {
      return Err(targetOrError.error);
    }
    var isProxied := targetOrError.value.ViaProxy?;

    var headers := new HttpHeaders.Headers([("User-Agent", DEFAULT_USER_AGENT), ("Accept", ACCEPT_HEADER)]);
    if !isProxied {
      if resolvedReferer != "" {
        headers.Set("Referer", resolvedReferer);
      }
      if resolvedOrigin != "" && resolvedOrigin != "null" {
        headers.Set("Origin", resolvedOrigin);
      } else if matched.Some? && matched.value.force && resolvedReferer != "" {
        headers.Set("Origin", resolvedReferer);
      }
    }

    r := Receive(fetch(UpstreamRequest(targetOrError.value, headers.entries)));
  }

  /** Through the proxy the request carries neither Referer nor Origin. */
  lemma ProxiedSendsNoRefererOrOrigin(imageUrl: string, parse: UrlParser, endpoint: Option<string>)
    requires endpoint.Some? && PlanRequest(imageUrl, parse, endpoint).Ok?
    ensures PlanRequest(imageUrl, parse, endpoint).value.target.ViaProxy?
    ensures PlanRequest(imageUrl, parse, endpoint).value.target.urlParam == parse(imageUrl).value.href
    ensures HttpHeaders.Get(PlanRequest(imageUrl, parse, endpoint).value.headers, "Referer") == None
    ensures HttpHeaders.Get(PlanRequest(imageUrl, parse, endpoint).value.headers, "Origin") == None
  {
  }

  /** The opaque origin `"null"` is never sent for a table rule's referer:
      an Origin header of `"null"` needs a forced rule whose referer is
      `"null"`, and no rule in the table has one. */
  lemma NeverSendsNullOrigin(resolved: RefererRules.Resolved, href: string, isProxied: bool)
    requires RefererRules.FindRule(href).Some? ==> resolved.referer == RefererRules.FindRule(href).value.referer
    ensures SentOrigin(resolved, Forced(href), isProxied) != Some("null")
    ensures SentOrigin(resolved, Forced(href), isProxied).Some? ==> SentOrigin(resolved, Forced(href), isProxied).value != ""
  {
    if Forced(href) {
      RefererRules.OnlyPiokokForces(href);
    }
  }

  /** With an opaque origin and no forcing rule, no Origin is sent at all,
      while the Referer still is. */
  lemma NullOriginWithoutForceIsDropped(parsed: Url, parse: UrlParser)
    requires RefererRules.FindRule(parsed.href).None? && parsed.origin == "null"
    ensures SentOrigin(RefererRules.ResolveRefererFor(parsed, parse), Forced(parsed.href), false) == None
    ensures SentReferer(RefererRules.ResolveRefererFor(parsed, parse), false) == Some("null")
  {
  }

  /** The piokok rule forces an Origin even when the resolved origin is
      opaque. */
  lemma ForcedRuleSendsReferer(resolved: RefererRules.Resolved)
    requires resolved.origin == "null" && resolved.referer == "https://www.piokok.com"
    ensures SentOrigin(resolved, true, false) == Some("https://www.piokok.com")
    ensures SentOrigin(resolved, false, false) == None
  {
  }
}
