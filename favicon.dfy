/**
 * The live tier (`get_icon`): fetch the site's page, pick the first usable
 * `<link>` icon in document order or fall back to `favicon.ico`, fetch that URL
 * and normalise the image. The network, the HTML parser, URL reference
 * resolution and the imaging library are parameters (`Web`).
 */
module Favicon {
  import opened Base

  /** A parsed `<link>` element: its `rel` tokens and its `href`, if any. */
  datatype Link = Link(rel: seq<string>, href: Option<string>)

  /** What a `get(url)` call gives: an exception, or a response after redirects. */
  datatype HttpResult = Failed | Ok(url: string, status: int, content: Bytes)

  /**
   * The collaborators of `get_icon`: `requests.get` as a function of the URL,
   * BeautifulSoup's `find_all("link")` over a body, `urljoin`, and PIL's
   * open / resize to 32x32 / save as PNG (`None` when it raises).
   */
  datatype Web = Web(
    get: string -> HttpResult,
    parseLinks: Bytes -> seq<Link>,
    join: (string, string) -> string,
    toPng32: Bytes -> Option<Bytes>)

  /** How `get_icon` ends: it raises, returns `None`, or returns PNG bytes. */
  datatype IconOutcome = Raised | NoIcon | Icon(png: Bytes)

  /** The outcome together with the URLs handed to `get`, in order. */
  datatype Fetch = Fetch(outcome: IconOutcome, requested: seq<string>)

  /** Which URL is fetched for the image, and why. */
  datatype IconRequest = FaviconFallback(url: string) | LinkedIcon(url: string)

  // ---------------------------------------------------------------------------
  // Filtering the <link> elements.

  function LowerChar(c: char): char {
    if 'A' <= c <= 'Z' then (c as int + 32) as char else c
  }

  /** `x.lower()` on the characters that can make up `icon` or `apple-touch-icon`. */
  function Lower(s: string): (r: string)
    ensures |r| == |s|
    ensures forall i :: 0 <= i < |s| ==> !('A' <= r[i] <= 'Z')
    ensures forall i :: 0 <= i < |s| && !('A' <= s[i] <= 'Z') ==> r[i] == s[i]
    ensures forall i :: 0 <= i < |s| && 'A' <= s[i] <= 'Z' ==> r[i] as int == s[i] as int + 32
  {
    seq(|s|, i requires 0 <= i < |s| => LowerChar(s[i]))
  }

  /** `[x.lower() for x in rel]` */
  function LowerAll(rel: seq<string>): (r: seq<string>)
    ensures |r| == |rel|
    ensures forall i :: 0 <= i < |rel| ==> r[i] == Lower(rel[i])
  {
    seq(|rel|, i requires 0 <= i < |rel| => Lower(rel[i]))
  }

  predicate HasIconRel(link: Link) {
    var rel := LowerAll(link.rel);
    "icon" in rel || "apple-touch-icon" in rel
  }

  /** `s.endswith(suffix)`, case-sensitive. */
  predicate EndsWith(s: string, suffix: string) {
    |suffix| <= |s| && s[|s| - |suffix|..] == suffix
  }

  /** The test the loop applies to one `<link>`. */
  predicate IsCandidate(link: Link) {
    && HasIconRel(link)
    && link.href.Some? && link.href.value != ""
    && !EndsWith(link.href.value, ".svg")
  }

  /** The `icons` list: the candidate links, in document order. */
  function Candidates(links: seq<Link>): (icons: seq<Link>)
    ensures |icons| <= |links|
    ensures forall i :: 0 <= i < |icons| ==> IsCandidate(icons[i])
    ensures icons == [] <==> forall j :: 0 <= j < |links| ==> !IsCandidate(links[j])
  {
    if |links| == 0 then []
    else
      var last := links[|links| - 1];
      Candidates(links[..|links| - 1]) + (if IsCandidate(last) then [last] else [])
  }

  /** The `for icon in html.find_all("link")` loop. */
  method CollectIcons(links: seq<Link>) returns (icons: seq<Link>)
    ensures icons == Candidates(links)
  {
    icons := [];
    for i := 0 to |links|
      invariant icons == Candidates(links[..i])
    {
      assert links[..i + 1][..i] == links[..i];
      var icon := links[i];
      var rel := LowerAll(icon.rel);
      if "icon" in rel || "apple-touch-icon" in rel {
        var href := icon.href;
        if href.None? || href.value == "" || EndsWith(href.value, ".svg") {
          continue;
        }
        icons := icons + [icon];
      }
    }
    assert links[..|links|] == links;
  }

  /** A link is kept exactly when it is a candidate. */
  lemma {:induction false} CandidatesMembers(links: seq<Link>, x: Link)
    ensures x in Candidates(links) <==> x in links && IsCandidate(x)
    decreases |links|
  {
    if |links| > 0 {
      var init := links[..|links| - 1];
      CandidatesMembers(init, x);
      assert links == init + [links[|links| - 1]];
    }
  }

  /** The positions of the candidate links, in increasing order. */
  ghost function CandidateIndices(links: seq<Link>): seq<nat> {
    if |links| == 0 then []
    else
      var n := |links| - 1;
      CandidateIndices(links[..n]) + (if IsCandidate(links[n]) then [n] else [])
  }

  /** Document order is kept: candidate `m` is the link at position `CandidateIndices(links)[m]`. */
  lemma {:induction false} CandidatesAtIndices(links: seq<Link>)
    ensures |CandidateIndices(links)| == |Candidates(links)|
    ensures forall m :: 0 <= m < |CandidateIndices(links)| ==>
      CandidateIndices(links)[m] < |links| && Candidates(links)[m] == links[CandidateIndices(links)[m]]
    decreases |links|
  {
    if |links| > 0 {
      var n := |links| - 1;
      var init := links[..n];
      CandidatesAtIndices(init);
      var prior, idx := CandidateIndices(init), CandidateIndices(links);
      var found := Candidates(init);
      assert Candidates(links) == found + (if IsCandidate(links[n]) then [links[n]] else []);
      assert idx == prior + (if IsCandidate(links[n]) then [n] else []);
      forall m | 0 <= m < |idx|
        ensures idx[m] < |links| && Candidates(links)[m] == links[idx[m]]
      {
        if m < |prior| {
          assert init[prior[m]] == links[prior[m]];
        }
      }
    }
  }

  /** The positions strictly increase. */
  lemma {:induction false} CandidateIndicesIncrease(links: seq<Link>)
    ensures forall m :: 0 <= m < |CandidateIndices(links)| ==> CandidateIndices(links)[m] < |links|
    ensures forall m, k :: 0 <= m < k < |CandidateIndices(links)| ==>
      CandidateIndices(links)[m] < CandidateIndices(links)[k]
    decreases |links|
  {
    if |links| > 0 {
      var n := |links| - 1;
      CandidateIndicesIncrease(links[..n]);
      var prior := CandidateIndices(links[..n]);
      var idx := CandidateIndices(links);
      assert idx == prior + (if IsCandidate(links[n]) then [n] else []);
      assert forall m :: 0 <= m < |prior| ==> prior[m] < n;
      forall m | 0 <= m < |idx| ensures idx[m] < |links| {
        if m < |prior| {
          assert idx[m] == prior[m];
        }
      }
      forall m, k | 0 <= m < k < |idx| ensures idx[m] < idx[k] {
        assert idx[m] == prior[m];
        if k < |prior| {
          assert idx[k] == prior[k];
        }
      }
    }
  }

  /** Every candidate position is listed. */
  lemma {:induction false} CandidateIndicesComplete(links: seq<Link>, j: nat)
    requires j < |links| && IsCandidate(links[j])
    ensures j in CandidateIndices(links)
    decreases |links|
  {
    var n := |links| - 1;
    if j < n {
      var init := links[..n];
      assert init[j] == links[j];
      CandidateIndicesComplete(init, j);
    }
  }

  /** The head of the list is the first candidate in document order. */
  lemma {:induction false} FirstCandidateHeads(links: seq<Link>, k: nat)
    requires k < |links| && IsCandidate(links[k])
    requires forall j :: 0 <= j < k ==> !IsCandidate(links[j])
    ensures Candidates(links) != [] && Candidates(links)[0] == links[k]
    decreases |links|
  {
    var n := |links| - 1;
    var init := links[..n];
    if k < n {
      FirstCandidateHeads(init, k);
    } else {
      assert Candidates(init) == [];
    }
  }

  // ---------------------------------------------------------------------------
  // Choosing the icon URL.

  /** Python's `p in s` for strings. */
  predicate HasSubstring(s: string, p: string)
    decreases |s|
  {
    p <= s || (|s| > 0 && HasSubstring(s[1..], p))
  }

  /** `HasSubstring` is an occurrence at some offset. */
  lemma {:induction false} HasSubstringAt(s: string, p: string, i: nat)
    requires i + |p| <= |s| && s[i..i + |p|] == p
    ensures HasSubstring(s, p)
    decreases i
  {
    if i > 0 {
      assert s[1..][i - 1..i - 1 + |p|] == s[i..i + |p|];
      HasSubstringAt(s[1..], p, i - 1);
    } else {
      assert s[..|p|] == p;
    }
  }

  /** Conversely, a true `in` test has an occurrence at some offset. */
  lemma {:induction false} HasSubstringOccurs(s: string, p: string) returns (i: nat)
    requires HasSubstring(s, p)
    ensures i + |p| <= |s| && s[i..i + |p|] == p
    decreases |s|
  {
    if p <= s {
      i := 0;
    } else {
      var k := HasSubstringOccurs(s[1..], p);
      assert s[1..][k..k + |p|] == s[k + 1..k + 1 + |p|];
      i := k + 1;
    }
  }

  /** A string without a colon holds no `://`. */
  lemma {:induction false} NoColonNoScheme(s: string)
    requires ':' !in s
    ensures !HasSubstring(s, "://")
    decreases |s|
  {
    if |s| > 0 {
      assert s[0] != ':';
      assert ':' !in s[1..] by {
        forall c | c in s[1..] ensures c in s { }
      }
      NoColonNoScheme(s[1..]);
    }
  }

  /** An href with `://` is used verbatim, anything else is resolved against the page URL. */
  function ResolveHref(pageUrl: string, href: string, join: (string, string) -> string): string {
    if HasSubstring(href, "://") then href else join(pageUrl, href)
  }

  /** Lines 111-121: the URL `get_icon` fetches the image from. */
  function SelectIcon(pageUrl: string, links: seq<Link>, join: (string, string) -> string): (r: IconRequest)
    ensures r.FaviconFallback? <==> forall j :: 0 <= j < |links| ==> !IsCandidate(links[j])
    ensures r.FaviconFallback? ==> r.url == join(pageUrl, "favicon.ico")
  {
    var icons := Candidates(links);
    if icons == [] then FaviconFallback(join(pageUrl, "favicon.ico"))
    else LinkedIcon(ResolveHref(pageUrl, icons[0].href.value, join))
  }

  /** The chosen URL is the first candidate's href, resolved. */
  lemma SelectsFirstCandidate(pageUrl: string, links: seq<Link>, join: (string, string) -> string, k: nat)
    requires k < |links| && IsCandidate(links[k])
    requires forall j :: 0 <= j < k ==> !IsCandidate(links[j])
    ensures SelectIcon(pageUrl, links, join) == LinkedIcon(ResolveHref(pageUrl, links[k].href.value, join))
  {
    FirstCandidateHeads(links, k);
  }

  // ---------------------------------------------------------------------------
  // get_icon.

  /** Lines 126-132: decode, resize and re-encode, raising on failure. */
  function Render(bytes: Bytes, web: Web): (r: IconOutcome)
    ensures r.Icon? <==> web.toPng32(bytes).Some?
    ensures r.Icon? ==> web.toPng32(bytes) == Some(r.png)
    ensures r != NoIcon
  {
    var png := web.toPng32(bytes);
    if png.Some? then Icon(png.value) else Raised
  }

  /** Lines 97-135, once `response` is bound to `page`. */
  function FromPage(page: HttpResult, web: Web): (f: Fetch)
    requires page.Ok?
    ensures var choice := SelectIcon(page.url, web.parseLinks(page.content), web.join);
      && f.requested == [choice.url]
      && (f.outcome == NoIcon <==>
            choice.FaviconFallback? && web.get(choice.url).Ok? && web.get(choice.url).status != 200)
      && (f.outcome.Icon? ==> web.get(choice.url).Ok? && web.toPng32(web.get(choice.url).content) == Some(f.outcome.png))
    ensures var choice := SelectIcon(page.url, web.parseLinks(page.content), web.join);
      web.get(choice.url).Failed? ==> f.outcome == Raised
    ensures var choice := SelectIcon(page.url, web.parseLinks(page.content), web.join);
      && web.get(choice.url).Ok?
      && !(choice.FaviconFallback? && web.get(choice.url).status != 200)
      ==> f.outcome == Render(web.get(choice.url).content, web)
  {
    var choice := SelectIcon(page.url, web.parseLinks(page.content), web.join);
    var r := web.get(choice.url);
    var outcome :=
      if r.Failed? then Raised
      else if choice.FaviconFallback? && r.status != 200 then NoIcon
      else Render(r.content, web);
    Fetch(outcome, [choice.url])
  }

  /**
   * `get_icon(domain)` as written: when the HTTPS request raises, the HTTP
   * retry runs but its result is dropped, so `response` is unbound and the
   * function raises whatever that retry does.
   */
  function GetIcon(domain: string, web: Web): (f: Fetch)
    ensures |f.requested| == 2 && f.requested[0] == "https://" + domain
    ensures web.get("https://" + domain).Failed? ==>
      f == Fetch(Raised, ["https://" + domain, "http://" + domain])
    ensures web.get("https://" + domain).Ok? ==>
      f == Fetch(FromPage(web.get("https://" + domain), web).outcome,
                 ["https://" + domain] + FromPage(web.get("https://" + domain), web).requested)
  {
    var https := "https://" + domain;
    var page := web.get(https);
    if page.Failed? then
      Fetch(Raised, [https, "http://" + domain])
    else
      var rest := FromPage(page, web);
      Fetch(rest.outcome, [https] + rest.requested)
  }

  /** `get_icon` with the retry's response bound, as the retry evidently means. */
  function GetIconIntended(domain: string, web: Web): (f: Fetch)
    ensures 2 <= |f.requested| <= 3 && f.requested[0] == "https://" + domain
    ensures web.get("https://" + domain).Ok? ==> f == GetIcon(domain, web)
    ensures web.get("https://" + domain).Failed? && web.get("http://" + domain).Ok? ==>
      f == Fetch(FromPage(web.get("http://" + domain), web).outcome,
                 ["https://" + domain, "http://" + domain] + FromPage(web.get("http://" + domain), web).requested)
    ensures f.outcome.Raised? && web.get("https://" + domain).Failed? ==>
      web.get("http://" + domain).Failed? || FromPage(web.get("http://" + domain), web).outcome.Raised?
    ensures web.get("https://" + domain).Failed? && web.get("http://" + domain).Failed? ==>
      f == Fetch(Raised, ["https://" + domain, "http://" + domain])
  {
    var https, http := "https://" + domain, "http://" + domain;
    var page := web.get(https);
    if page.Ok? then
      GetIcon(domain, web)
    else
      var retry := web.get(http);
      if retry.Failed? then Fetch(Raised, [https, http])
      else
        var rest := FromPage(retry, web);
        Fetch(rest.outcome, [https, http] + rest.requested)
  }

  // ---------------------------------------------------------------------------
  // Scenarios.

  /** With no usable link and a non-200 `favicon.ico`, `get_icon` returns `None`. */
  lemma FaviconNon200IsNoIcon(domain: string, web: Web)
    requires web.get("https://" + domain).Ok?
    requires var page := web.get("https://" + domain);
      forall j :: 0 <= j < |web.parseLinks(page.content)| ==> !IsCandidate(web.parseLinks(page.content)[j])
    requires var page := web.get("https://" + domain);
      var r := web.get(web.join(page.url, "favicon.ico")); r.Ok? && r.status != 200
    ensures GetIcon(domain, web).outcome == NoIcon
    ensures GetIcon(domain, web).requested ==
      ["https://" + domain, web.join(web.get("https://" + domain).url, "favicon.ico")]
  {
  }

  /** A linked icon's status code is never checked: its body goes to the image decoder. */
  lemma LinkedIconStatusIgnored(domain: string, web: Web)
    requires web.get("https://" + domain).Ok?
    requires var page := web.get("https://" + domain);
      SelectIcon(page.url, web.parseLinks(page.content), web.join).LinkedIcon?
    requires var page := web.get("https://" + domain);
      web.get(SelectIcon(page.url, web.parseLinks(page.content), web.join).url).Ok?
    ensures var page := web.get("https://" + domain);
      var r := web.get(SelectIcon(page.url, web.parseLinks(page.content), web.join).url);
      GetIcon(domain, web).outcome == Render(r.content, web)
  {
  }

  /** One relative `rel="icon"` link: the fetched URL is that href joined to the final page URL. */
  lemma RelativeIconJoined(domain: string, web: Web, href: string)
    requires web.get("https://" + domain).Ok?
    requires web.parseLinks(web.get("https://" + domain).content) == [Link(["icon"], Some(href))]
    requires href != "" && !EndsWith(href, ".svg") && !HasSubstring(href, "://")
    ensures GetIcon(domain, web).requested ==
      ["https://" + domain, web.join(web.get("https://" + domain).url, href)]
  {
    var links := [Link(["icon"], Some(href))];
    assert Lower("icon") == "icon";
    assert LowerAll(["icon"]) == ["icon"];
    SelectsFirstCandidate(web.get("https://" + domain).url, links, web.join, 0);
  }

  /** Only an `.svg` icon link: the request goes to `favicon.ico` instead. */
  lemma SvgOnlyFallsBack(domain: string, web: Web, href: string)
    requires web.get("https://" + domain).Ok?
    requires web.parseLinks(web.get("https://" + domain).content) == [Link(["icon"], Some(href))]
    requires EndsWith(href, ".svg")
    ensures GetIcon(domain, web).requested ==
      ["https://" + domain, web.join(web.get("https://" + domain).url, "favicon.ico")]
  {
  }
}
