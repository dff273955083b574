/**
 * The request handler (`metaicon`): validate the hostname, try the popular
 * icons, then the live fetch, and answer with the generated placeholder when a
 * tier raises. `Metaicon` is the handler as written; `MetaiconIntended` is the
 * handler with its two defects repaired.
 */
module Service {
  import opened Base
  import opened Hostname
  import opened PopularIcons
  import opened Favicon

  /**
   * What the handler gives Flask: a plain-text body with a status, a PNG for
   * `send_file`, or Python's implicit `None` (which Flask turns into an error).
   */
  datatype Response = PlainText(body: string, status: int) | Png(image: Bytes) | NoResponse

  /** The response and the URLs requested on the way. */
  datatype Served = Served(response: Response, requested: seq<string>)

  /**
   * Everything the handler reads: `POPULAR_ICONS`, `base64.b64decode`
   * (`None` when it raises), the live-fetch collaborators, and
   * `get_default_image`, the placeholder keyed by the domain alone.
   */
  datatype Env = Env(
    icons: map<string, string>,
    b64decode: string -> Option<Bytes>,
    web: Web,
    defaultImage: string -> Bytes)

  /** `metaicon(domain)` as written. */
  function Metaicon(domain: string, env: Env): (s: Served)
    requires InDomain(domain)
    ensures s.response.PlainText? <==> !IsValidHostname(domain)
    ensures s.requested != [] ==> GetPopularIcon(env.icons, env.b64decode, domain).Miss?
    ensures IsValidHostname(domain) && GetPopularIcon(env.icons, env.b64decode, domain).Hit? ==>
      s == Served(Png(GetPopularIcon(env.icons, env.b64decode, domain).icon), [])
    ensures IsValidHostname(domain) && GetPopularIcon(env.icons, env.b64decode, domain).Undecodable? ==>
      s == Served(Png(env.defaultImage(domain)), [])
  {
    if !IsValidHostname(domain) then Served(PlainText("Invalid hostname", 400), [])
    else
      match GetPopularIcon(env.icons, env.b64decode, domain)
      case Hit(b) => Served(Png(b), [])
      case Undecodable => Served(Png(env.defaultImage(domain)), [])
      case Miss =>
        var fetch := GetIcon(domain, env.web);
        match fetch.outcome
        case Icon(b) => Served(Png(b), fetch.requested)
        case NoIcon => Served(NoResponse, fetch.requested)
        case Raised => Served(Png(env.defaultImage(domain)), fetch.requested)
  }

  /** An invalid hostname is answered with 400 before any tier is consulted. */
  lemma InvalidHostnameRejected(domain: string, env: Env, other: Env)
    requires InDomain(domain) && !IsValidHostname(domain)
    ensures Metaicon(domain, env) == Served(PlainText("Invalid hostname", 400), [])
    ensures Metaicon(domain, env) == Metaicon(domain, other)
  {
  }

  /** A popular hit is served as is; the live fetch is not called, whatever the network does. */
  lemma PopularHitSkipsFetch(domain: string, env: Env, web: Web)
    requires InDomain(domain) && IsValidHostname(domain)
    requires GetPopularIcon(env.icons, env.b64decode, domain).Hit?
    ensures Metaicon(domain, env) == Served(Png(GetPopularIcon(env.icons, env.b64decode, domain).icon), [])
    ensures Metaicon(domain, env.(web := web)) == Metaicon(domain, env)
  {
  }

  /** A domain that has a popular entry causes no request, even when the entry does not decode. */
  lemma PopularEntryMeansNoRequest(domain: string, env: Env)
    requires InDomain(domain)
    requires Stored(env.icons, domain) || Stored(env.icons, "www." + domain)
    ensures Metaicon(domain, env).requested == []
    ensures IsValidHostname(domain) ==>
      Metaicon(domain, env).response ==
        Png(match GetPopularIcon(env.icons, env.b64decode, domain)
            case Hit(b) => b
            case _ => env.defaultImage(domain))
  {
  }

  /** After a popular miss the live-fetch outcome decides the response. */
  lemma FetchOutcomeDecides(domain: string, env: Env)
    requires InDomain(domain) && IsValidHostname(domain)
    requires GetPopularIcon(env.icons, env.b64decode, domain).Miss?
    ensures Metaicon(domain, env).requested == GetIcon(domain, env.web).requested
    ensures GetIcon(domain, env.web).outcome.Raised? ==>
      Metaicon(domain, env).response == Png(env.defaultImage(domain))
    ensures GetIcon(domain, env.web).outcome.NoIcon? ==> Metaicon(domain, env).response == NoResponse
    ensures GetIcon(domain, env.web).outcome.Icon? ==>
      Metaicon(domain, env).response == Png(GetIcon(domain, env.web).outcome.png)
  {
  }

  /**
   * When the HTTPS request raises, the placeholder is served whatever the HTTP
   * retry returns: its response is never bound.
   */
  lemma HttpsFailureServesPlaceholder(domain: string, env: Env)
    requires InDomain(domain) && IsValidHostname(domain)
    requires GetPopularIcon(env.icons, env.b64decode, domain).Miss?
    requires env.web.get("https://" + domain).Failed?
    ensures Metaicon(domain, env) ==
      Served(Png(env.defaultImage(domain)), ["https://" + domain, "http://" + domain])
  {
  }

  /**
   * The handler has no response exactly when the popular tier misses, the page
   * has no usable icon link and `favicon.ico` answers with a status other than 200.
   */
  lemma NoResponseExactlyOnFaviconMiss(domain: string, env: Env)
    requires InDomain(domain)
    ensures Metaicon(domain, env).response == NoResponse <==>
      && IsValidHostname(domain)
      && GetPopularIcon(env.icons, env.b64decode, domain).Miss?
      && env.web.get("https://" + domain).Ok?
      && var page := env.web.get("https://" + domain);
         var links := env.web.parseLinks(page.content);
         var favicon := env.web.get(env.web.join(page.url, "favicon.ico"));
         && (forall j :: 0 <= j < |links| ==> !IsCandidate(links[j]))
         && favicon.Ok? && favicon.status != 200
  {
  }

  // ---------------------------------------------------------------------------
  // The handler with both defects repaired.

  /**
   * `metaicon` with the HTTP retry's response used and with "no icon" answered
   * by the placeholder, as the handler's `except Exception` answers every
   * other failure of the live tier.
   */
  function MetaiconIntended(domain: string, env: Env): (s: Served)
    requires InDomain(domain)
    ensures IsValidHostname(domain) ==> s.response.Png?
    ensures !IsValidHostname(domain) ==> s == Served(PlainText("Invalid hostname", 400), [])
    ensures s.requested != [] ==> GetPopularIcon(env.icons, env.b64decode, domain).Miss?
    ensures IsValidHostname(domain) && GetPopularIcon(env.icons, env.b64decode, domain).Hit? ==>
      s == Served(Png(GetPopularIcon(env.icons, env.b64decode, domain).icon), [])
    ensures IsValidHostname(domain) && GetPopularIcon(env.icons, env.b64decode, domain).Undecodable? ==>
      s == Served(Png(env.defaultImage(domain)), [])
    ensures IsValidHostname(domain) && GetPopularIcon(env.icons, env.b64decode, domain).Miss? ==>
      s == Served(if GetIconIntended(domain, env.web).outcome.Icon?
                  then Png(GetIconIntended(domain, env.web).outcome.png)
                  else Png(env.defaultImage(domain)),
                  GetIconIntended(domain, env.web).requested)
  {
    if !IsValidHostname(domain) then Served(PlainText("Invalid hostname", 400), [])
    else
      match GetPopularIcon(env.icons, env.b64decode, domain)
      case Hit(b) => Served(Png(b), [])
      case Undecodable => Served(Png(env.defaultImage(domain)), [])
      case Miss =>
        var fetch := GetIconIntended(domain, env.web);
        match fetch.outcome
        case Icon(b) => Served(Png(b), fetch.requested)
        case NoIcon => Served(Png(env.defaultImage(domain)), fetch.requested)
        case Raised => Served(Png(env.defaultImage(domain)), fetch.requested)
  }

  /** With a working HTTPS site the repaired handler differs only where `Metaicon` had no response. */
  lemma IntendedAgreesOverHttps(domain: string, env: Env)
    requires InDomain(domain) && IsValidHostname(domain)
    requires env.web.get("https://" + domain).Ok?
    requires Metaicon(domain, env).response != NoResponse
    ensures MetaiconIntended(domain, env) == Metaicon(domain, env)
  {
  }

  // ---------------------------------------------------------------------------
  // Inputs that show the two defects.

  /** A site reachable only over plain HTTP, with one PNG icon link. */
  function HttpOnlySite(): Env {
    Env(
      map[],
      _ => None,
      Web(
        url => if url == "https://a" then Failed else Ok(url, 200, [7]),
        _ => [Link(["icon"], Some("i.png"))],
        (base, ref) => base + "/" + ref,
        bytes => Some(bytes)),
      _ => [0])
  }

  /** A site over HTTPS with no icon link whose `favicon.ico` is a 404. */
  function NoFaviconSite(): Env {
    Env(
      map[],
      _ => None,
      Web(
        url => if url == "https://a" then Ok(url, 200, [1]) else Ok(url, 404, [2]),
        _ => [],
        (base, ref) => base + "/" + ref,
        bytes => Some(bytes)),
      _ => [0])
  }

  /** On the HTTP-only site the page's link names `http://a/i.png`, whose body renders. */
  lemma HttpOnlySiteFetches()
    ensures GetIcon("a", HttpOnlySite().web).outcome == Raised
    ensures GetIconIntended("a", HttpOnlySite().web).outcome == Icon([7])
  {
  }

  /** The HTTP retry is wasted: the placeholder is served although the site answers over HTTP. */
  lemma RetryResultDiscarded()
    ensures InDomain("a") && IsValidHostname("a")
    ensures Metaicon("a", HttpOnlySite()).response == Png([0])
    ensures MetaiconIntended("a", HttpOnlySite()).response == Png([7])
  {
  }

  /** A 404 `favicon.ico` leaves the handler without a response. */
  lemma FaviconMissFallsOff()
    ensures InDomain("a") && IsValidHostname("a")
    ensures Metaicon("a", NoFaviconSite()).response == NoResponse
    ensures MetaiconIntended("a", NoFaviconSite()).response == Png([0])
  {
  }
}
