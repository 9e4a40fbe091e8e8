/**
  `getCertbotDomains`: the list of names a certificate is requested for,
  built from a domain and an optional subdomain.
 */
module CertbotDomains {
  import opened Wrappers
  import opened Php

  /** The InvalidArgumentException `assertDomain` raises in throwing mode. */
  datatype InvalidArgument = InvalidArgument(message: string)

  /** `strtolower(trim($s))`: the trimmed text with its ASCII capitals lowered. */
  function Normalize(s: string): (r: string)
    ensures |r| <= |s|
    ensures |r| == |Trim(s)|
    ensures forall k :: 0 <= k < |r| ==> r[k] == LowerChar(Trim(s)[k])
    ensures r != [] ==> !IsTrimChar(r[0]) && !IsTrimChar(r[|r| - 1])
  {
    ToLower(Trim(s))
  }

  /**
    `getCertbotDomains($domain, $subdomain, $throw)`. `assertDomain` is a
    validation helper outside this model: it answers whether the normalised
    domain is acceptable, or raises in throwing mode.
   */
  function GetCertbotDomains(domain: Option<string>, subdomain: Option<string>, throw: bool,
                             assertDomain: (string, bool) -> Result<bool, InvalidArgument>)
    : (r: Result<Option<seq<string>>, InvalidArgument>)
    ensures var d := Normalize(if domain.Some? then domain.value else "");
      && (r.Failure? <==> assertDomain(d, throw).Failure?)
      && (r == Success(None) <==> assertDomain(d, throw) == Success(false))
      && (r.Success? && r.value.Some? ==>
            1 <= |r.value.value| <= 2 &&
            forall k :: 0 <= k < |r.value.value| ==> EndsWith(r.value.value[k], d))
  {
    var d := Normalize(if domain.Some? then domain.value else "");
    var sub := if subdomain.Some? then Normalize(subdomain.value) else "";
    match assertDomain(d, throw)
    case Failure(e) => Failure(e)
    case Success(valid) =>
      if !valid then Success(None)
      else if sub == "www" then Success(Some([d, sub + "." + d]))
      else if sub != "" then Success(Some([sub + "." + d]))
      else Success(Some([d]))
  }

  /** The three shapes of the list, by subdomain, once the domain is accepted. */
  lemma DomainsBySubdomain(domain: string, subdomain: Option<string>, throw: bool,
                           assertDomain: (string, bool) -> Result<bool, InvalidArgument>)
    requires assertDomain(Normalize(domain), throw) == Success(true)
    ensures var d, r := Normalize(domain), GetCertbotDomains(Some(domain), subdomain, throw, assertDomain);
      var sub := if subdomain.Some? then Normalize(subdomain.value) else "";
      && (sub == "www" ==> r == Success(Some([d, "www." + d])))
      && (sub != "www" && sub != "" ==> r == Success(Some([sub + "." + d])))
      && (sub == "" ==> r == Success(Some([d])))
  {
    assert "www" + "." == "www.";
  }

  /** A missing subdomain and an empty or blank one all give the domain alone. */
  lemma NoSubdomainIsDomainAlone(domain: string, blank: string, throw: bool,
                                 assertDomain: (string, bool) -> Result<bool, InvalidArgument>)
    requires assertDomain(Normalize(domain), throw) == Success(true)
    requires AllTrimChars(blank)
    ensures GetCertbotDomains(Some(domain), None, throw, assertDomain) == Success(Some([Normalize(domain)]))
    ensures GetCertbotDomains(Some(domain), Some(blank), throw, assertDomain) == Success(Some([Normalize(domain)]))
  {
    TrimIgnoresPadding(blank, [], []);
    assert blank + [] + [] == blank;
  }

  /** Whitespace around either argument makes no difference. */
  lemma PaddingIgnored(domain: string, sub: string, p: string, q: string, throw: bool,
                       assertDomain: (string, bool) -> Result<bool, InvalidArgument>)
    requires AllTrimChars(p) && AllTrimChars(q)
    ensures GetCertbotDomains(Some(p + domain + q), Some(p + sub + q), throw, assertDomain)
         == GetCertbotDomains(Some(domain), Some(sub), throw, assertDomain)
  {
    TrimIgnoresPadding(p, domain, q);
    TrimIgnoresPadding(p, sub, q);
  }
}
