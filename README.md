# metaicon: the icon-resolution pipeline, modelled in Dafny

metaicon is a small Flask service. `GET /api/<domain>/32.png` answers with a
32×32 PNG icon for a domain, resolved in tiers:

1. the hostname guard (`is_valid_hostname`) answers 400 for malformed names;
2. a precomputed table of popular icons (`get_popular_icon`) is tried under the
   exact domain, then under `www.` + domain;
3. the live fetch (`get_icon`) loads the site's page. It picks the first usable
   `<link rel="icon">` / `apple-touch-icon` or falls back to `favicon.ico`, then
   fetches and normalises the image;
4. if any tier raises, the handler answers with a placeholder image generated
   from the domain.

The model keeps the decision logic exactly. Everything it delegates to
libraries or to the network becomes an input:
- `requests.get` is a function from URL to result (`Favicon.HttpResult`);
- BeautifulSoup's `find_all("link")` is a function from page body to `Link` records;
- `urljoin` is a function of two strings;
- the PIL decode/resize/encode chain is a function that may fail;
- `base64.b64decode` is a function that may fail;
- `get_default_image` is a function of the domain alone;
- `POPULAR_ICONS` is a `map<string, string>`.

Files, one module each:

- `base.dfy`, module `Base`: `Option` and `Bytes`.
- `hostname.dfy`, module `Hostname`: the validator, Python's `str.split(".")`
  with its inverse join, and what validity means.
- `popular.dfy`, module `PopularIcons`: the two-key lookup.
- `favicon.dfy`, module `Favicon`: the `<link>` filter loop, URL choice and
  `get_icon`. It also carries `GetIconIntended`, the same fetch with the HTTP
  retry's response used.
- `service.dfy`, module `Service`: the handler as written (`Metaicon`), the
  handler with both defects repaired (`MetaiconIntended`), and concrete inputs
  that show the difference.

Where the code's own structure points to a behaviour other than what it does,
the model follows the code and gives the repair beside it:

- The `except` branch of `get_icon` issues the HTTP request but drops its
  result (metaicon.py:94-95). `response` is then unbound at line 97, and the
  `UnboundLocalError` it raises reaches the handler's `except Exception`
  (line 56): the placeholder is served, and the HTTP answer is never used.
- On a non-200 `favicon.ico`, `get_icon` returns `None` (line 117). The
  handler's `if b:` fails and it ends without a `return` (line 55), so Flask
  has no response to send. Every other failure of the live tier is caught by
  `except Exception` and answered with the placeholder. The model's
  `NoResponse` stands for the missing answer.
- The fallback URL is `urljoin(response.url, "favicon.ico")`, a relative
  reference. The model keeps that call uninterpreted and does not claim it
  reaches the site root.
- The HTTP status of the page itself is never checked. Nor is the status of an
  icon fetched through a `<link>`: its body goes to the image decoder whatever
  the status.

Two properties of the validator are stated in terms independent of its code:

- A hostname is valid exactly when it has at most 255 characters and, with
  one trailing dot removed, it is the dot-join of one or more labels. Each
  label is 1-63 ASCII letters, digits or hyphens and neither starts nor ends
  with a hyphen.
- Splitting and joining on `.` are inverse to each other.

## Model

| member | source | states |
|---|---|---|
| `Hostname.IsValidHostname` | metaicon.py:138-144 | a hostname longer than 255 characters is rejected, whatever characters it holds |
| `Hostname.StripTrailingDot` | metaicon.py:141-142 | the result is the hostname with exactly one trailing dot removed, when it has one, and the hostname unchanged otherwise |
| `Hostname.LabelMatches` | metaicon.py:143 | by definition: the regex under IGNORECASE accepts a dot-free label exactly when it has 1-63 ASCII letters, digits or hyphens and no hyphen at either end |
| `Hostname.Split` | metaicon.py:144 | `split(".")` always yields at least one piece, empty pieces included; `SplitJoin` and `JoinSplit` show it inverts the dot-join |
| `Hostname.JoinOfLabelsInAlphabet` | metaicon.py:143-144 | a dot-join of labels that all match is ASCII without a line feed |
| `Hostname.SplitJoin` | metaicon.py:144 | joining the pieces of `split(".")` with `.` gives the string back |
| `Hostname.JoinSplit` | metaicon.py:144 | splitting a dot-join of one or more dot-free labels gives back exactly those labels |
| `Hostname.SplitAroundDot` | metaicon.py:144 | the pieces of `a + "." + b` are the pieces of `a` followed by the pieces of `b` |
| `Hostname.SplitAtDot` | metaicon.py:144 | splitting at any dot position splits the two sides independently |
| `Hostname.PieceOf` | metaicon.py:144 | each non-dot character lands in one piece, first in it exactly when a dot or the start precedes it, last exactly when a dot or the end follows it |
| `Hostname.ValidIffJoinOfLabels` | metaicon.py:138-144 | valid exactly when at most 255 characters and the stripped name is the dot-join of one or more labels of 1-63 letters, digits or hyphens with no hyphen at either end |
| `Hostname.JoinOfValidLabelsAccepted` | metaicon.py:141-144 | every dot-join of valid labels shorter than 255 characters is accepted, with and without one trailing dot |
| `Hostname.TrailingDotIgnored` | metaicon.py:141-144 | for a non-empty name not ending in `.` and shorter than 255, adding one trailing dot does not change the verdict |
| `Hostname.TwoTrailingDotsRejected` | metaicon.py:141-144 | a name ending in `..` is always rejected |
| `Hostname.LengthCheckedBeforeStrip` | metaicon.py:139-142 | 256 characters ending in `.` are rejected although the strip would leave 255 |
| `Hostname.LeadingDotRejected` | metaicon.py:143-144 | a leading dot after the strip (an empty first label) is rejected |
| `Hostname.DoubleDotRejected` | metaicon.py:143-144 | two adjacent dots (an empty label) are rejected |
| `Hostname.BadCharacterRejected` | metaicon.py:143-144 | any character other than an ASCII letter, digit, hyphen or dot is rejected |
| `Hostname.HyphenAtLabelEdgeRejected` | metaicon.py:143-144 | a hyphen at the start or end of any label is rejected |
| `PopularIcons.GetPopularIcon` | metaicon.py:77-85 | an exact non-empty entry is decoded; otherwise a non-empty `www.` entry is decoded; it misses exactly when neither key holds a non-empty entry |
| `PopularIcons.Get` | metaicon.py:78-81 | `dict.get`: a value exactly when the key is present, and then the stored value |
| `PopularIcons.Truthy` | metaicon.py:80-83 | by definition: Python truthiness of `get`'s result, false for `None` and for `""` |
| `PopularIcons.TruthyIffStored` | metaicon.py:78-83 | `get`'s result is truthy exactly when the key holds a non-empty string |
| `PopularIcons.Decoded` | metaicon.py:85 | by definition: `b64decode` either yields bytes, served as a hit, or raises, kept apart from a miss |
| `PopularIcons.ExactHitIgnoresWww` | metaicon.py:78-81 | with an exact hit, changing the `www.` entry changes nothing |
| `PopularIcons.EmptyValueIsMiss` | metaicon.py:80-83 | an empty stored value behaves exactly as if the key were absent |
| `Favicon.Candidates` | metaicon.py:100-109 | every kept link is a candidate (icon rel after lowering, non-empty href, no `.svg` suffix); the list is empty exactly when no link is a candidate |
| `Favicon.Lower` | metaicon.py:103 | `x.lower()` on ASCII: same length, no upper-case letter left, other characters unchanged, each upper-case letter mapped to its lower-case one |
| `Favicon.LowerAll` | metaicon.py:103 | the list comprehension: each rel token lowered, in order |
| `Favicon.HasIconRel` | metaicon.py:102-105 | by definition: the lowered rel tokens contain `icon` or `apple-touch-icon` |
| `Favicon.EndsWith` | metaicon.py:107 | by definition: `str.endswith`, case-sensitive, so `.SVG` is kept |
| `Favicon.IsCandidate` | metaicon.py:102-108 | by definition: a link is kept when its lowered rel holds `icon` or `apple-touch-icon`, its href is present and non-empty, and the href does not end in `.svg` |
| `Favicon.CollectIcons` | metaicon.py:100-109 | the loop with `continue` and `append` builds exactly the candidate list |
| `Favicon.CandidatesMembers` | metaicon.py:101-109 | a link is in the list exactly when it is in the page and is a candidate |
| `Favicon.CandidatesAtIndices` | metaicon.py:100-109 | the m-th kept link is the page's link at the m-th candidate position |
| `Favicon.CandidateIndicesIncrease` | metaicon.py:100-109 | those positions strictly increase, so document order is kept |
| `Favicon.CandidateIndicesComplete` | metaicon.py:100-109 | every candidate position of the page is among them |
| `Favicon.FirstCandidateHeads` | metaicon.py:109-119 | the list's head is the first candidate in document order |
| `Favicon.HasSubstringAt` | metaicon.py:120 | an occurrence of the pattern at any offset makes the `in` test true |
| `Favicon.HasSubstringOccurs` | metaicon.py:120 | conversely, a true `in` test has an occurrence at some offset |
| `Favicon.HasSubstring` | metaicon.py:120 | by definition: Python's `p in s`, a prefix match at some suffix; `HasSubstringAt` and `HasSubstringOccurs` give both directions |
| `Favicon.ResolveHref` | metaicon.py:119-121 | by definition: an href containing `://` is used verbatim, any other is `urljoin`ed to the final page URL |
| `Favicon.NoColonNoScheme` | metaicon.py:120 | an href without `:` is never treated as absolute |
| `Favicon.SelectIcon` | metaicon.py:111-121 | the `favicon.ico` fallback is chosen exactly when no link is a candidate, and its URL is `urljoin(page url, "favicon.ico")` |
| `Favicon.SelectsFirstCandidate` | metaicon.py:118-121 | otherwise the URL is the first candidate's href, verbatim if it contains `://` and else joined to the final page URL |
| `Favicon.Render` | metaicon.py:126-132 | bytes exactly when the imaging step succeeds, and then its output; never "no icon", so a failed decode raises |
| `Favicon.FromPage` | metaicon.py:97-135 | one request, to the chosen URL; an exception when that request raises; "no icon" exactly on the fallback path with a non-200 answer; in every other case the rendered body of the answer |
| `Favicon.GetIcon` | metaicon.py:88-135 | the first request is `https://domain`; if it raises, the outcome is an exception whatever the HTTP retry does; otherwise the page decides |
| `Favicon.FaviconNon200IsNoIcon` | metaicon.py:111-117 | no usable link and a non-200 `favicon.ico` make `get_icon` return nothing, after requesting the page and the joined favicon URL |
| `Favicon.LinkedIconStatusIgnored` | metaicon.py:118-127 | a linked icon's body is rendered whatever its status code |
| `Favicon.RelativeIconJoined` | metaicon.py:100-124 | a page whose only link is a relative `rel="icon"` href leads to a request for that href joined to the final page URL |
| `Favicon.SvgOnlyFallsBack` | metaicon.py:105-114 | a page whose only icon link ends in `.svg` leads to a request for `favicon.ico` |
| `Favicon.GetIconIntended` | metaicon.py:92-97 | the intended retry: agrees with `get_icon` over HTTPS; when HTTPS fails and HTTP answers, it proceeds with the HTTP page, requesting the HTTPS URL, the HTTP URL and then whatever that page leads to; when both raise, it raises after requesting both |
| `Service.Metaicon` | metaicon.py:41-59 | the answer is the 400 text exactly for invalid hostnames; a popular hit is served as is and an undecodable popular entry (the `b64decode` exception caught at line 56) gets the placeholder, both with no request; requests go out only after a popular miss |
| `Service.InvalidHostnameRejected` | metaicon.py:43-45 | an invalid hostname gets `("Invalid hostname", 400)`, no request, and the same answer whatever the tiers hold |
| `Service.PopularHitSkipsFetch` | metaicon.py:47-55 | a popular hit is served as is, with no request, whatever the network does |
| `Service.PopularEntryMeansNoRequest` | metaicon.py:47-59 | a domain with a popular entry, exact or `www.`, causes no request; a valid one gets the decoded icon, or the placeholder when the entry does not decode |
| `Service.FetchOutcomeDecides` | metaicon.py:50-59 | after a popular miss: an exception gives the placeholder, bytes are served, and "no icon" gives no response |
| `Service.HttpsFailureServesPlaceholder` | metaicon.py:92-97 | a failed HTTPS request leads to the placeholder after requesting the HTTPS and the HTTP URL, whatever the HTTP answer (the `NameError` is caught at line 56) |
| `Service.NoResponseExactlyOnFaviconMiss` | metaicon.py:50-55 | the handler returns nothing exactly when the hostname is valid, the popular tier misses, the page loads, no link is usable and `favicon.ico` is not 200 |
| `Service.MetaiconIntended` | metaicon.py:41-59 | the repaired handler: the 400 text for an invalid hostname; a popular hit served and an undecodable entry answered with the placeholder; after a popular miss, the repaired fetch's icon when it yields one and the placeholder for every other outcome, with the fetch's requests |
| `Service.IntendedAgreesOverHttps` | metaicon.py:41-59 | when the site answers over HTTPS, the repaired handler differs from the original only where the original has no response |
| `Service.HttpOnlySiteFetches` | metaicon.py:92-97 | on a site that answers only over HTTP, `get_icon` raises while the intended fetch yields the linked icon |
| `Service.RetryResultDiscarded` | metaicon.py:94-95 | on that site the handler serves the placeholder while the repaired one serves the site's icon |
| `Service.FaviconMissFallsOff` | metaicon.py:116-117 | on a site with no icon link and a 404 `favicon.ico` the handler has no response while the repaired one serves the placeholder |

## Left out

- HTTP (`get`, metaicon.py:27-34) is a function of the URL alone. The
  User-Agent header, the 2-second timeout, TLS and redirect handling are not
  modelled. Only the final URL, the status and the body of a response are kept.
- HTML parsing (metaicon.py:97, 101) is a parameter and is assumed not to raise.
  Its output is the `<link>` elements in document order, each given as its
  `rel` tokens and optional `href`.
- Image decoding, bicubic resizing and PNG encoding (metaicon.py:126-132) are
  one parameter that either yields bytes or raises. Pixels are not modelled.
- The placeholder (metaicon.py:62-75: SHA-256 of the domain, first six hex
  digits as a colour, a filled 32×32 PNG) is a parameter applied to the domain.
  It is assumed not to raise.
- `urljoin` (reference resolution, section 5.2 of RFC 3986) is uninterpreted.
- `base64.b64decode` is a parameter that may raise. The contents of the popular
  table are an arbitrary map of strings.
- Flask routing, the `/` route (metaicon.py:36-38), `send_file`, `b.seek(0)`,
  logging and timing (metaicon.py:22-25, 44, 57, 63, 84, 89-90, 98, 113, 123,
  129, 134) are not modelled. `send_file` is assumed not to raise. Flask's
  treatment of a `None` return is represented by `NoResponse`.
- Hostname.IsValidHostname: for names of at most 255 characters the model
  requires 7-bit ASCII without a line feed. Python's `re` also lets
  IGNORECASE `[A-Z]` and `\d` match some non-ASCII characters, and lets `$`
  match before a final `\n`; those cases are outside the model.
- Hostname.IsValidHostname: the empty string is excluded by precondition,
  since `hostname[-1]` raises `IndexError` there; Flask's `<string:domain>`
  never passes it.
- `x.lower()` on `rel` tokens is modelled as ASCII lowercasing. For the
  comparison with `icon` and `apple-touch-icon` this gives the same verdict,
  because no non-ASCII character lowercases to a lone letter of those words.

## Findings

| source | as written | input that shows it | evidently intended | confidence | as-written member | corrected member |
|---|---|---|---|---|---|---|
| metaicon.py:94-95 | the HTTP retry's response is discarded, so `response` is unbound at line 97 and the handler serves the placeholder | domain `a`, HTTPS raises, HTTP answers a page linking `i.png`, which renders | `response = get(f"http://{domain}")` | not executed | `Service.RetryResultDiscarded` | `Favicon.GetIconIntended` |
| metaicon.py:116-117 | a non-200 `favicon.ico` makes `get_icon` return `None` and the handler fall off its end (line 55) with no response | domain `a`, page without icon links, `favicon.ico` answers 404 | serve the placeholder, as for any other failure of the live tier | not executed | `Service.FaviconMissFallsOff` | `Service.MetaiconIntended` |
