/** What the `/pages` prober promises about each result record and about the
    batch, proved of the value-level specification in module Zendesk (which
    the methods `ProbeDomain` and `ProbeAll` are proved to compute). */
module ZendeskProperties {
  import opened Wrappers
  import opened JsString
  import opened Zendesk

  /** `lookup` succeeded and its chain holds `host`. */
  predicate InChain(lookup: Option<seq<string>>, host: string)
  {
    lookup.Some? && host in lookup.value
  }

  // Base label

  /** `getBaseDomain` of a label followed by a `.` is that label. */
  lemma {:induction false} BaseDomainOfLabel(first: string, rest: string)
    requires '.' !in first
    ensures BaseDomain(first + "." + rest) == first
  {
    SplitFirstField(first, '.', rest);
  }

  // Login page

  /** The login page is present exactly when the GET of the lookalike URL
      answered 200, and then it is that URL. */
  lemma LoginPageOnlyOn200(domain: string, net: Network)
    ensures var url := "http://" + BaseDomain(domain) + ".zendisk.com";
      && (ExpectedLoginPage(domain, net).Some? <==> net.get(url) == Some(200))
      && (ExpectedLoginPage(domain, net).Some? ==> ExpectedLoginPage(domain, net).value == url)
  {
  }

  // The alias match

  /** `find` over a chain split in two: the first part is searched first. */
  lemma {:induction false} FindVendorAliasAppend(front: seq<string>, back: seq<string>)
    ensures FindVendorAlias(front + back)
         == if FindVendorAlias(front).Some? then FindVendorAlias(front) else FindVendorAlias(back)
    decreases |front|
  {
    if front != [] {
      assert (front + back)[0] == front[0];
      assert (front + back)[1..] == front[1..] + back;
      FindVendorAliasAppend(front[1..], back);
    } else {
      assert front + back == back;
    }
  }

  // The support page

  /** A support page is always a vendor alias taken from the `help.` or the
      `support.` chain; in particular it is the probed hostname itself only
      when that hostname stands in one of the chains. */
  lemma SupportPageIsVendorAlias(domain: string, net: Network)
    ensures var page := ExpectedSupportPage(domain, net);
      page.Some? ==>
        && IsVendorAlias(page.value)
        && EndsWith(page.value, ".zendesk.com")
        && (InChain(net.resolveCname(HelpHost(domain)), page.value) ||
            InChain(net.resolveCname(SupportHost(domain)), page.value))
  {
  }

  /** Priority: a match in the `help.` chain is the support page, whatever
      the `support.` chain holds, and `support.` is never looked up. */
  lemma HelpTakesPriority(domain: string, net: Network, cnames: seq<string>)
    requires net.resolveCname(HelpHost(domain)) == Some(cnames)
    requires exists i :: 0 <= i < |cnames| && IsVendorAlias(cnames[i])
    ensures ExpectedSupportPage(domain, net) == FindVendorAlias(cnames)
    ensures ExpectedSupportPage(domain, net).Some?
    ensures DnsQueries(domain, net) == [HelpHost(domain)]
  {
  }

  /** Fallback: when the `help.` lookup fails or has no vendor alias, the
      support page is the first vendor alias of the `support.` chain, and
      none when that lookup fails too or has no vendor alias either. */
  lemma SupportIsFallback(domain: string, net: Network)
    requires AliasCheck(net.resolveCname(HelpHost(domain))).None?
    ensures ExpectedSupportPage(domain, net) == AliasCheck(net.resolveCname(SupportHost(domain)))
    ensures DnsQueries(domain, net) == [HelpHost(domain), SupportHost(domain)]
  {
  }

  /** No support page exactly when neither chain yields a vendor alias. */
  lemma NoSupportPageIffNoMatch(domain: string, net: Network)
    ensures ExpectedSupportPage(domain, net).None?
        <==> (forall i :: 0 <= i < |AliasChain(net.resolveCname(HelpHost(domain)))| ==>
                !IsVendorAlias(AliasChain(net.resolveCname(HelpHost(domain)))[i])) &&
             (forall i :: 0 <= i < |AliasChain(net.resolveCname(SupportHost(domain)))| ==>
                !IsVendorAlias(AliasChain(net.resolveCname(SupportHost(domain)))[i]))
  {
    NoMatchIffNoVendorAlias(net.resolveCname(HelpHost(domain)));
    NoMatchIffNoVendorAlias(net.resolveCname(SupportHost(domain)));
  }

  lemma NoMatchIffNoVendorAlias(lookup: Option<seq<string>>)
    ensures AliasCheck(lookup).None?
        <==> forall i :: 0 <= i < |AliasChain(lookup)| ==> !IsVendorAlias(AliasChain(lookup)[i])
  {
    match lookup
    case None =>
    case Some(cnames) =>
      assert AliasChain(lookup) == cnames;
  }

  /** A failed lookup is no chain at all. */
  function AliasChain(lookup: Option<seq<string>>): seq<string>
  {
    match lookup
    case None => []
    case Some(cnames) => cnames
  }

  // Independence

  /** What one pipeline reads of the network: the GET of the login URL, the
      `help.` lookup, and the `support.` lookup only when `help.` did not
      match. Two networks that agree there give the same record. */
  lemma PagesDependOnlyOnProbes(domain: string, net1: Network, net2: Network)
    requires net1.get(LoginPageUrl(BaseDomain(domain))) == net2.get(LoginPageUrl(BaseDomain(domain)))
    requires net1.resolveCname(HelpHost(domain)) == net2.resolveCname(HelpHost(domain))
    requires AliasCheck(net1.resolveCname(HelpHost(domain))).None? ==>
               net1.resolveCname(SupportHost(domain)) == net2.resolveCname(SupportHost(domain))
    ensures ExpectedPages(domain, net1) == ExpectedPages(domain, net2)
  {
  }

  /** The login page ignores DNS, and the support page ignores HTTP. */
  lemma LoginAndSupportIndependent(domain: string, net1: Network, net2: Network)
    ensures net1.get(LoginPageUrl(BaseDomain(domain))) == net2.get(LoginPageUrl(BaseDomain(domain))) ==>
              ExpectedLoginPage(domain, net1) == ExpectedLoginPage(domain, net2)
    ensures ExpectedSupportPage(domain, net1) == ExpectedSupportPage(domain, Network(net2.get, net1.resolveCname))
  {
  }

  /** A domain whose requests all fail gets neither page. */
  lemma UnreachableDomainHasNoPages(domain: string)
    ensures ExpectedPages(domain, Unreachable) == PagesRecord(domain, None, None)
  {
  }

  // The batch

  /** One record per domain, in input order, each computed from its own
      domain and its own view of the network. */
  lemma ListPreservesOrder(domains: seq<string>, nets: nat -> Network)
    ensures |ExpectedList(domains, nets)| == |domains|
    ensures forall i :: 0 <= i < |domains| ==>
              ExpectedList(domains, nets)[i].domain == domains[i] &&
              ExpectedList(domains, nets)[i] == ExpectedPages(domains[i], nets(i))
  {
    forall i | 0 <= i < |domains|
      ensures ExpectedList(domains, nets)[i] == ExpectedPages(domains[i], nets(i))
    {
    }
  }

  /** Isolation: when every request of the pipeline for `domains[j]` fails,
      that entry has neither page and every other entry is unchanged. */
  lemma FailingDomainIsolated(domains: seq<string>, nets: nat -> Network, j: nat)
    requires j < |domains|
    ensures var failing := (i: nat) => if i == j then Unreachable else nets(i);
      && ExpectedList(domains, failing)[j] == PagesRecord(domains[j], None, None)
      && forall i :: 0 <= i < |domains| && i != j ==>
           ExpectedList(domains, failing)[i] == ExpectedList(domains, nets)[i]
  {
    var failing := (i: nat) => if i == j then Unreachable else nets(i);
    ListPreservesOrder(domains, nets);
    ListPreservesOrder(domains, failing);
    UnreachableDomainHasNoPages(domains[j]);
  }
}
