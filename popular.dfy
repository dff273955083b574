/**
 * The precomputed popular-icon tier (`get_popular_icon`): a read-only map from
 * domain to base64 text, consulted first under the exact domain and then under
 * `"www." + domain`; an empty stored string counts as a miss.
 */
module PopularIcons {
  import opened Base

  /** What the tier yields: decoded bytes, `None`, or the exception from `b64decode`. */
  datatype Popular = Hit(icon: Bytes) | Miss | Undecodable

  /** `POPULAR_ICONS.get(key)`. */
  function Get(icons: map<string, string>, key: string): (v: Option<string>)
    ensures v.Some? <==> key in icons
    ensures v.Some? ==> v.value == icons[key]
  {
    if key in icons then Some(icons[key]) else None
  }

  /** Python truthiness of `get`'s result: `None` and `""` are false. */
  predicate Truthy(v: Option<string>) {
    v.Some? && v.value != ""
  }

  /** The key holds a non-empty encoded icon. */
  predicate Stored(icons: map<string, string>, key: string) {
    key in icons && icons[key] != ""
  }

  /** `get` is truthy exactly when the key holds a non-empty string. */
  lemma TruthyIffStored(icons: map<string, string>, key: string)
    ensures Truthy(Get(icons, key)) <==> Stored(icons, key)
  {
  }

  /** Decoding the stored text; `None` stands for `b64decode` raising. */
  function Decoded(bytes: Option<Bytes>): Popular {
    if bytes.Some? then Hit(bytes.value) else Undecodable
  }

  /** `get_popular_icon(domain)`, with the base64 decoder as a parameter. */
  function GetPopularIcon(icons: map<string, string>, b64decode: string -> Option<Bytes>, domain: string): (r: Popular)
    ensures Stored(icons, domain) ==> r == Decoded(b64decode(icons[domain]))
    ensures !Stored(icons, domain) && Stored(icons, "www." + domain) ==>
      r == Decoded(b64decode(icons["www." + domain]))
    ensures r.Miss? <==> !Stored(icons, domain) && !Stored(icons, "www." + domain)
  {
    var first := Get(icons, domain);
    var result := if Truthy(first) then first else Get(icons, "www." + domain);
    if Truthy(result) then Decoded(b64decode(result.value)) else Miss
  }

  /** An exact hit never looks at the `www.` entry. */
  lemma ExactHitIgnoresWww(icons: map<string, string>, b64decode: string -> Option<Bytes>, domain: string, other: string)
    requires Stored(icons, domain)
    ensures GetPopularIcon(icons["www." + domain := other], b64decode, domain) ==
            GetPopularIcon(icons, b64decode, domain)
  {
    assert "www." + domain != domain by {
      assert |"www." + domain| != |domain|;
    }
  }

  /** An empty stored value behaves exactly as a missing key. */
  lemma EmptyValueIsMiss(icons: map<string, string>, b64decode: string -> Option<Bytes>, domain: string, key: string)
    requires key in icons && icons[key] == ""
    ensures GetPopularIcon(icons, b64decode, domain) == GetPopularIcon(icons - {key}, b64decode, domain)
  {
  }
}
