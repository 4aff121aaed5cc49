/** The `/pages` prober: for each customer domain, whether a hosted Zendesk
    login page answers and which Zendesk alias, if any, the customer's
    `help.` or `support.` host points at.

    The network is an input. A `Network` answers the HTTP GET of a URL with a
    status (None: the request threw) and the CNAME lookup of a hostname with
    its alias chain (None: the lookup rejected). */
module Zendesk {
  import opened Wrappers
  import opened JsString

  /** The vendor apex that a support alias must end with. */
  const ZendeskDomain: string := ".zendesk.com"

  /** The apex the login URL is built on. It is spelled `zendisk`, not
      `zendesk`, and it is not the apex above. */
  const LoginApex: string := ".zendisk.com"

  datatype Network = Network(get: string -> Option<int>, resolveCname: string -> Option<seq<string>>)

  /** A network on which every request fails. */
  const Unreachable: Network := Network(url => None, host => None)

  /** One entry of the response: the value of a `Pages` object. */
  datatype PagesRecord = PagesRecord(domain: string, loginPage: Option<string>, supportPage: Option<string>)

  /** `getBaseDomain`: the text of `domain` before its first `.`, or all of it
      when it has no `.`. */
  function BaseDomain(domain: string): (base: string)
    ensures base <= domain && '.' !in base
    ensures '.' !in domain ==> base == domain
    ensures '.' in domain ==> |base| < |domain| && domain == base + "." + domain[|base| + 1..]
  {
    FirstField(domain, '.');
    var base := Split(domain, '.')[0];
    assert '.' in domain ==> domain == domain[..|base|] + [domain[|base|]] + domain[|base| + 1..];
    base
  }

  function LoginPageUrl(baseDomain: string): string
  {
    "http://" + baseDomain + LoginApex
  }

  function HelpHost(domain: string): string
  {
    "help." + domain
  }

  function SupportHost(domain: string): string
  {
    "support." + domain
  }

  predicate IsVendorAlias(cname: string)
  {
    EndsWith(cname, ZendeskDomain)
  }

  /** `i` is the position of the first vendor alias in `cnames`. */
  predicate FirstVendorAliasAt(cnames: seq<string>, i: int)
  {
    0 <= i < |cnames| && IsVendorAlias(cnames[i]) &&
    forall j :: 0 <= j < i ==> !IsVendorAlias(cnames[j])
  }

  /** `cnames.find(c => c.endsWith(ZENDESK_DOMAIN))`. */
  function FindVendorAlias(cnames: seq<string>): (r: Option<string>)
    ensures r.None? <==> forall i :: 0 <= i < |cnames| ==> !IsVendorAlias(cnames[i])
    ensures r.Some? ==> exists i :: FirstVendorAliasAt(cnames, i) && cnames[i] == r.value
  {
    if cnames == [] then None
    else if IsVendorAlias(cnames[0]) then
      assert FirstVendorAliasAt(cnames, 0);
      Some(cnames[0])
    else
      var r := FindVendorAlias(cnames[1..]);
      assert forall i :: 0 <= i < |cnames[1..]| ==> cnames[1..][i] == cnames[i + 1];
      assert r.Some? ==> exists i :: FirstVendorAliasAt(cnames[1..], i) && cnames[1..][i] == r.value;
      assert forall i :: FirstVendorAliasAt(cnames[1..], i) ==> FirstVendorAliasAt(cnames, i + 1);
      r
  }

  /** One alias check as the `try` block runs it: a rejected lookup is caught
      and finds nothing. */
  function AliasCheck(lookup: Option<seq<string>>): (r: Option<string>)
    ensures r.None? <==> lookup.None? || forall i :: 0 <= i < |lookup.value| ==> !IsVendorAlias(lookup.value[i])
    ensures r.Some? ==> lookup.Some? && exists i :: FirstVendorAliasAt(lookup.value, i) && lookup.value[i] == r.value
  {
    match lookup
    case None => None
    case Some(cnames) => FindVendorAlias(cnames)
  }

  /** JavaScript truthiness of a `string | null | undefined`: the empty string
      is false. */
  predicate Truthy(s: Option<string>)
    ensures s.None? ==> !Truthy(s)
    ensures s.Some? && IsVendorAlias(s.value) ==> Truthy(s)
  {
    s.Some? && s.value != ""
  }

  // The specification of one domain's pipeline, stated on values.

  /** A login page, when there is one, is a URL that answered 200, and it is
      never taken for a vendor alias. */
  function ExpectedLoginPage(domain: string, net: Network): (r: Option<string>)
    ensures r.Some? ==> net.get(r.value) == Some(200)
    ensures r.Some? ==> !IsVendorAlias(r.value)
  {
    var url := LoginPageUrl(BaseDomain(domain));
    if net.get(url) == Some(200) then Some(url) else None
  }

  /** A support page, when there is one, ends with the vendor apex. */
  function ExpectedSupportPage(domain: string, net: Network): (r: Option<string>)
    ensures r.Some? ==> IsVendorAlias(r.value)
  {
    var help := AliasCheck(net.resolveCname(HelpHost(domain)));
    if help.Some? then help else AliasCheck(net.resolveCname(SupportHost(domain)))
  }

  function ExpectedPages(domain: string, net: Network): PagesRecord
  {
    PagesRecord(domain, ExpectedLoginPage(domain, net), ExpectedSupportPage(domain, net))
  }

  /** The hostnames whose CNAME chains the pipeline asks for, in order. */
  function DnsQueries(domain: string, net: Network): seq<string>
  {
    if AliasCheck(net.resolveCname(HelpHost(domain))).Some? then [HelpHost(domain)]
    else [HelpHost(domain), SupportHost(domain)]
  }

  /** `domains.map(...)`: the pipeline for `domains[i]` sees the network as
      `nets(i)`, so pipelines of the same batch are independent. */
  function ExpectedList(domains: seq<string>, nets: nat -> Network): seq<PagesRecord>
  {
    seq(|domains|, i requires 0 <= i < |domains| => ExpectedPages(domains[i], nets(i)))
  }

  /** The mutable `pages` object one pipeline fills in. */
  class Pages {
    const domain: string
    var loginPage: Option<string>
    var supportPage: Option<string>

    constructor (domain: string)
      ensures this.domain == domain && loginPage == None && supportPage == None
    {
      this.domain := domain;
      loginPage := None;
      supportPage := None;
    }

    function Record(): PagesRecord
      reads this
    {
      PagesRecord(domain, loginPage, supportPage)
    }
  }

  /** The async body of the `domains.map` callback for one domain. The ghost
      `queried` lists the CNAME lookups it makes. */
  method ProbeDomain(domain: string, net: Network) returns (pages: Pages, ghost queried: seq<string>)
    ensures fresh(pages)
    ensures pages.Record() == ExpectedPages(domain, net)
    ensures queried == DnsQueries(domain, net)
  {
    pages := new Pages(domain);
    var baseDomain := BaseDomain(domain);

    // get login page
    var loginPageUrl := LoginPageUrl(baseDomain);
    var response := net.get(loginPageUrl);
    if response.Some? && response.value == 200 {
      pages.loginPage := Some(loginPageUrl);
    }

    // get help page
    var helpPageUrl := HelpHost(domain);
    queried := [helpPageUrl];
    var helpCnames := net.resolveCname(helpPageUrl);
    if helpCnames.Some? {
      var zendeskHostPage := FindVendorAlias(helpCnames.value);
      VendorMatchIsTruthy(helpCnames.value);
      if Truthy(zendeskHostPage) {
        pages.supportPage := zendeskHostPage;
      }
    }

    if Truthy(pages.supportPage) {
      return;
    }

    // get support page
    var supportPageUrl := SupportHost(domain);
    queried := queried + [supportPageUrl];
    var supportCnames := net.resolveCname(supportPageUrl);
    if supportCnames.Some? {
      var zendeskHostPage := FindVendorAlias(supportCnames.value);
      VendorMatchIsTruthy(supportCnames.value);
      if Truthy(zendeskHostPage) {
        pages.supportPage := zendeskHostPage;
      }
    }
  }

  /** The handler's `Promise.all(domains.map(...))`: one fresh `Pages` per
      domain, in input order. */
  method ProbeAll(domains: seq<string>, nets: nat -> Network) returns (list: seq<Pages>)
    ensures |list| == |domains|
    ensures forall i :: 0 <= i < |list| ==> fresh(list[i]) && list[i].Record() == ExpectedList(domains, nets)[i]
    ensures forall i, j :: 0 <= i < j < |list| ==> list[i] != list[j]
  {
    ghost var expected := ExpectedList(domains, nets);
    list := [];
    for i := 0 to |domains|
      invariant |list| == i
      invariant forall k :: 0 <= k < i ==> fresh(list[k]) && list[k].Record() == expected[k]
      invariant forall k, l :: 0 <= k < l < i ==> list[k] != list[l]
    {
      var pages: Pages;
      ghost var queried: seq<string>;
      pages, queried := ProbeDomain(domains[i], nets(i));
      assert pages.Record() == expected[i];
      list := list + [pages];
    }
  }

  /** A vendor alias is never the empty string, so the truthiness tests of
      lines 61, 68 and 77 agree with "a match was found". */
  lemma VendorMatchIsTruthy(cnames: seq<string>)
    ensures Truthy(FindVendorAlias(cnames)) <==> FindVendorAlias(cnames).Some?
  {
  }
}
