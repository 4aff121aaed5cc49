# Zendesk page prober: a Dafny model

The `/pages` route of this service receives a list of customer domains. For
each domain it looks for a hosted Zendesk presence, and it answers one
`Pages` record per domain, in input order:

- `loginPage`: the URL `http://<base>.zendisk.com`, where `<base>` is the
  domain's text before its first `.`. It is set only when a GET of that URL
  answers status 200. The apex is spelled `zendisk`, not `zendesk`, in the
  code, and the model keeps that spelling.
- `supportPage`: the first alias in the CNAME chain of `help.<domain>` that
  ends with `.zendesk.com`. When there is none, or that lookup fails, it is
  the first such alias of `support.<domain>`. Otherwise it stays null.

The network is an input to the model. A `Network` value answers the GET of a
URL with `Some(status)`, or `None` when the request throws. It answers the
CNAME lookup of a hostname with `Some(chain)`, or `None` when the lookup
rejects. The batch gets a function `nets: nat -> Network`. The pipeline for
`domains[i]` sees the network as `nets(i)`, so the pipelines of one batch
stay independent, even for repeated domains.

Files, one module each:

- `wrappers.dfy` (`Wrappers`): `Option`, which stands for `null` and for a
  failed call.
- `js_string.dfy` (`JsString`): the JavaScript `split` and `endsWith` that the
  route uses. `Split` is proved to be the inverse of `Join` in both directions.
- `zendesk.dfy` (`Zendesk`): the model itself.
  - `BaseDomain`, the alias match `FindVendorAlias` and the value-level
    specification `ExpectedPages` / `ExpectedList`.
  - The mutable `Pages` class.
  - `ProbeDomain`, the per-domain callback. It updates a `Pages` object step
    by step, with the early return of line 68.
  - `ProbeAll`, the order-preserving map over `domains`.
  - Both methods are proved to compute the specification.
- `zendesk_properties.dfy` (`ZendeskProperties`): the promised properties.
  They cover the login rule, priority and fallback, the suffix invariant,
  independence, order and isolation.
- `zendesk_scenarios.dfy` (`ZendeskScenarios`): worked examples on concrete
  networks.

JavaScript truthiness is modelled explicitly (`Truthy`: present and not
empty) where the code tests `!!zendeskHostPage` and `pages.supportPage`.
`VendorMatchIsTruthy` proves that a vendor alias is never empty, so these
tests agree with "a match was found".

## Model

| member | source | states |
|---|---|---|
| JsString.Split | app/routes/zendesk.ts:8 | `split(".")` always gives at least one field, and no field contains the separator |
| JsString.JoinSplit | app/routes/zendesk.ts:8 | joining the fields of a split with the separator gives back the original string |
| JsString.SplitJoin | app/routes/zendesk.ts:8 | splitting a join of separator-free fields gives back exactly those fields |
| JsString.SplitFirstField | app/routes/zendesk.ts:8 | a separator-free prefix followed by the separator becomes the first field, and the rest is split on its own |
| JsString.FirstField | app/routes/zendesk.ts:8 | the first field is a prefix of the string; it is the whole string iff there is no separator; otherwise the separator follows it |
| Zendesk.BaseDomain | app/routes/zendesk.ts:7-9 | `getBaseDomain(d)` is a prefix of `d` without `.`; it is `d` when `d` has no `.`, and otherwise `d == base + "." + rest` |
| Zendesk.FindVendorAlias | app/routes/zendesk.ts:58-60 | `find` is none iff no alias ends with `.zendesk.com`; otherwise it is the alias at the first position that does |
| JsString.EndsWith | app/routes/zendesk.ts:58-60 | `endsWith` holds iff the string is at least as long as the suffix and is some prefix followed by exactly that suffix (case-sensitive) |
| Zendesk.AliasCheck | app/routes/zendesk.ts:55-66 | one `try` block (also lines 71-82): nothing is found iff the lookup rejected or no alias ends with `.zendesk.com`; otherwise the result is the alias at the first position that does |
| Zendesk.Truthy | app/routes/zendesk.ts:61 | the truthiness test of lines 61, 68 and 77: null is false, and every vendor alias is true |
| Zendesk.ExpectedLoginPage | app/routes/zendesk.ts:44-52 | a login page, when present, is a URL whose GET answered 200, and being built on the `zendisk` apex it never passes for a vendor alias |
| Zendesk.ExpectedSupportPage | app/routes/zendesk.ts:54-84 | a support page, when present, always ends with `.zendesk.com` |
| Zendesk.VendorMatchIsTruthy | app/routes/zendesk.ts:61-63 | a found alias is never the empty string, so the truthiness tests of lines 61, 68 and 77 hold iff a match was found |
| Zendesk.Pages.constructor | app/routes/zendesk.ts:36-40 | a new record holds the domain and two null pages |
| Zendesk.ProbeDomain | app/routes/zendesk.ts:35-85 | the callback returns a fresh `Pages` object equal to `ExpectedPages(domain, net)`; it looks up `help.<domain>` and then `support.<domain>` only if `help.` did not match |
| Zendesk.ProbeAll | app/routes/zendesk.ts:34-86 | one fresh and distinct `Pages` per domain, in input order, the i-th equal to the specification for `domains[i]` on `nets(i)` |
| ZendeskProperties.BaseDomainOfLabel | app/routes/zendesk.ts:7-9 | the base of `first + "." + rest` is `first` when `first` has no `.` |
| ZendeskProperties.LoginPageOnlyOn200 | app/routes/zendesk.ts:44-52 | `loginPage` is non-null iff the GET of `http://<base>.zendisk.com` answered 200, and then it is exactly that URL |
| ZendeskProperties.FindVendorAliasAppend | app/routes/zendesk.ts:58-60 | `find` over `front + back` is the match in `front` if there is one, otherwise the match in `back` |
| ZendeskScenarios.SingleAliasMatches | app/routes/zendesk.ts:58-60 | a one-entry chain holding a vendor alias matches that alias |
| ZendeskProperties.SupportPageIsVendorAlias | app/routes/zendesk.ts:54-82 | a non-null `supportPage` ends with `.zendesk.com` and is an entry of the `help.` or the `support.` chain, never a probed hostname unless a chain holds it |
| ZendeskProperties.HelpTakesPriority | app/routes/zendesk.ts:55-68 | if the `help.` chain has a vendor alias, `supportPage` is its first one, whatever `support.` holds, and `support.` is never looked up |
| ZendeskProperties.SupportIsFallback | app/routes/zendesk.ts:64-82 | if the `help.` lookup fails or has no vendor alias, `supportPage` is the `support.` lookup's match, or null if that lookup fails or has none; both hosts are looked up |
| ZendeskProperties.NoSupportPageIffNoMatch | app/routes/zendesk.ts:54-84 | `supportPage` is null iff neither chain has a vendor alias, counting a failed lookup as an empty chain |
| ZendeskProperties.NoMatchIffNoVendorAlias | app/routes/zendesk.ts:55-66 | one `try` block finds nothing iff its lookup failed or no alias in its chain ends with `.zendesk.com` |
| ZendeskProperties.PagesDependOnlyOnProbes | app/routes/zendesk.ts:43-84 | two networks that agree on the login GET, on the `help.` lookup and, when `help.` does not match, on the `support.` lookup give the same record |
| ZendeskProperties.LoginAndSupportIndependent | app/routes/zendesk.ts:43-84 | `loginPage` depends only on the HTTP answer, and `supportPage` does not depend on HTTP at all |
| ZendeskProperties.UnreachableDomainHasNoPages | app/routes/zendesk.ts:43-84 | a domain whose every request fails gets the record (domain, null, null) |
| ZendeskProperties.ListPreservesOrder | app/routes/zendesk.ts:34-40 | the list has one entry per domain, entry i carries `domains[i]` and is computed from `domains[i]` and `nets(i)` alone |
| ZendeskProperties.FailingDomainIsolated | app/routes/zendesk.ts:34-86 | when every request for entry j fails, entry j has no pages and every other entry is unchanged |
| ZendeskScenarios.HelpAliasAndLogin | app/routes/zendesk.ts:41-68 | `help.<name>.<tld>` aliased to `<name>.zendesk.com` and a 200 login give both pages |
| ZendeskScenarios.SupportFallbackWithoutLogin | app/routes/zendesk.ts:44-82 | `help.beta.io` unresolved, `support.beta.io` aliased to `beta.zendesk.com` and a failed login give only the support page |
| ZendeskScenarios.NothingFound | app/routes/zendesk.ts:44-84 | no vendor alias and a 404 login give (gamma.net, null, null) |
| ZendeskScenarios.SecondHopMatches | app/routes/zendesk.ts:55-62 | a vendor alias at the second position of the `help.` chain is the one found, not the first hop and not `support.`'s alias |

## Left out

- The Express router, request body parsing and `res.json` serialisation (lines 1-5, 29-32, 88-91) are transport plumbing. A missing or non-array `domains` throws at `domains.map` (line 35). A non-string entry (JSON `null`, a number, an object, an array) throws at `domain.split` inside `getBaseDomain` (line 8, called at line 41 outside every `try`); the template literals at lines 56 and 72 would not throw. That throw rejects `Promise.all` (line 34), so the whole batch is lost. None of this is modelled: domains are strings, and the isolation property (`FailingDomainIsolated`) holds for string entries only.
- Strings are sequences of Unicode scalar values, while JavaScript strings are sequences of UTF-16 code units. Splitting on `.` and testing the ASCII suffix `.zendesk.com` agree on well-formed strings, but a string with a lone surrogate cannot be represented.
- `axios.get` and `dns.resolveCname` (lines 11-19, 46) are foreign network calls. They become the `Network` input. By default axios throws on a non-2xx status, so a thrown GET and a non-200 status both give null. `Option<int>` covers both.
- `ProbeDomain`: a network answer is a fixed function of the URL or hostname within one pipeline. Time and retries are not modelled, and a call that never returns is not modelled either. The code sets no timeout, so such a call would stall the whole batch.
- `Promise.all`, async/await and the interleaving of pipelines are not modelled. The batch is a sequential loop. Pipelines share no state except the fresh records each one creates, so only the order-preserving result matters.
- Logging in the empty `catch` blocks and input validation: the code does neither.
