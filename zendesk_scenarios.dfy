/** Worked examples of the prober on concrete networks. */
module ZendeskScenarios {
  import opened Wrappers
  import opened JsString
  import opened Zendesk
  import opened ZendeskProperties

  /** An alias chain of one vendor alias is matched by that alias. */
  lemma SingleAliasMatches(cname: string)
    requires IsVendorAlias(cname)
    ensures FindVendorAlias([cname]) == Some(cname)
  {
  }

  /** `help.<name>.<tld>` is an alias of `<name>.zendesk.com` and the login
      page `http://<name>.zendisk.com` answers 200: both pages are found
      (for instance `acme.com`, with `acme.zendesk.com`). */
  lemma HelpAliasAndLogin(name: string, tld: string)
    requires '.' !in name
    ensures var domain := name + "." + tld;
      var net := Network(
        url => if url == "http://" + name + ".zendisk.com" then Some(200) else None,
        host => if host == "help." + domain then Some([name + ".zendesk.com"]) else None);
      ExpectedPages(domain, net)
        == PagesRecord(domain, Some("http://" + name + ".zendisk.com"), Some(name + ".zendesk.com"))
  {
    var domain := name + "." + tld;
    BaseDomainOfLabel(name, tld);
    var alias := name + ".zendesk.com";
    assert alias[|alias| - |ZendeskDomain|..] == ZendeskDomain;
    assert FindVendorAlias([alias]) == Some(alias);
  }

  /** `help.beta.io` does not resolve, `support.beta.io` is an alias of
      `beta.zendesk.com` and the login request fails: only the support page
      is found, from the `support.` host. */
  lemma SupportFallbackWithoutLogin()
    ensures var net := Network(
        url => None,
        host => if host == "support.beta.io" then Some(["beta.zendesk.com"]) else None);
      ExpectedPages("beta.io", net) == PagesRecord("beta.io", None, Some("beta.zendesk.com"))
  {
    assert HelpHost("beta.io") == "help.beta.io" != "support.beta.io";
    assert SupportHost("beta.io") == "support.beta.io";
    assert IsVendorAlias("beta.zendesk.com");
  }

  /** Neither host points at the vendor and the login page answers 404:
      nothing is found. */
  lemma NothingFound()
    ensures var net := Network(
        url => Some(404),
        host => if host == "help.gamma.net" then Some(["gamma.example-cdn.net"]) else None);
      ExpectedPages("gamma.net", net) == PagesRecord("gamma.net", None, None)
  {
  }

  /** A `help.` chain that only reaches the vendor on its second hop still
      matches, and the alias found is the vendor name, not the probed host. */
  lemma SecondHopMatches()
    ensures var net := Network(
        url => None,
        host => if host == "help.delta.org" then Some(["help.delta.org.cdn.net", "delta.zendesk.com"])
                else if host == "support.delta.org" then Some(["other.zendesk.com"]) else None);
      ExpectedSupportPage("delta.org", net) == Some("delta.zendesk.com")
  {
  }
}
