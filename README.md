# Authorization decisions for a distributed ledger service, modelled in Dafny

This project models the request-authorization engine of the `authz` package
(`net/http/authz/authorizer.go`). For each request that engine:

1. trims every trailing `/` from the request URI and looks the result up in the
   route-to-policy map; no policies means the "missing policy" error;
2. joins, policy by policy, the process-local grants (the builtin `public`/`any`
   grant and the grants added by `GrantInternal`) with the grant list decoded from
   the replicated store under `prefix + policy`; the first decoding error aborts
   the join and is returned wrapped;
3. scans the joined grants and permits the request at the first grant whose guard
   holds (`access_token`, `x509`, `localhost` or `any`), else returns
   `ErrNotAuthorized`.

Modules, leaf first:

- `Wrappers` (`wrappers.dfy`): `Option` and `Result`.
- `X509Match` (`x509_match.dfy`): subject names (`Name`), `MatchesString`,
  the `MatchesStrings` loop and `MatchesX509`. A multi-valued field of a pattern
  matches an ordered prefix of the subject's field. This is Dafny's `<=` on sequences.
- `Guards` (`guards.dfy`): `Grant`, the credential record `Credentials`, the
  foreign decoders `Foreign`, `AccessTokenGuardData`, the reference meaning
  `GuardHolds`/`Admits`, and the `Authorized` loop proved against it.
- `Registry` (`registry.dfy`): the builtin grants, `AppendGrant` and `Seed`
  (the map updates of `NewAuthorizer` and `GrantInternal`), `StoredGrants`,
  `PolicyGrants` and `GrantsFor`, the value `grantsByPolicies` computes.
- `Authz` (`authorizer.dfy`): `TrimTrailingSlashes`, `RoutePolicies`, the
  decision function `Decide`, and the class `Authorizer`. Its mutable field
  `extraGrants` is a `map<string, seq<Grant>>`. Its constructor, `GrantInternal`,
  `GrantsByPolicies` and `Authorize` are methods proved against the functions above.

The foreign libraries are arbitrary total functions, bundled in the datatype
`Foreign` and passed in. These are `name.Parse`, `name.Format`, the JSON decoding
of an access-token payload into `{ID}` (`None` when it fails) and the protobuf
decoding of a stored grant list. The replicated store is a snapshot
`map<string, seq<byte>>` passed to each call; an absent key is a read that
returned nil. The creation timestamp of an internal grant is a string parameter.

Behaviour of the code that the model keeps as written:

- An `access_token` grant compares the decoded ID with the presented token
  with no emptiness check (authorizer.go:81). A grant whose payload fails to
  decode, or whose ID is empty, therefore admits every request whose token is `""`
  (`Guards.MalformedTokenGrantAdmitsEmptyToken`). An absent token is not
  excluded.
- An `x509` grant admits a request when ANY presented certificate subject matches
  the pattern (authorizer.go:89-93). It does not require every certificate
  to match.
- `GrantInternal` panics when the subject cannot be formatted (authorizer.go:48-50).
  The model returns `false` and changes nothing, so a caller can see that
  nothing was registered.
- Grants decoded from the store are used as they are: their `policy` field is not
  compared with the policy they were stored under.

## Model

| member | source | states |
|---|---|---|
| `X509Match.MatchesString` | net/http/authz/authorizer.go:135-137 | definition: the pattern is empty or equals the value |
| `X509Match.MatchesX509` | net/http/authz/authorizer.go:111-121 | definition: the conjunction of the nine field checks, exact-or-empty for common name and serial number, ordered prefix for the seven list fields |
| `X509Match.MatchesStrings` | net/http/authz/authorizer.go:123-133 | the loop returns true iff the pattern is an ordered prefix of the value list (its length is at most the list's and it equals the list's leading elements) |
| `X509Match.PrefixByLength` | net/http/authz/authorizer.go:124-131 | the prefix test is exactly "not longer, and equal position by position", which is the check the loop performs |
| `X509Match.EmptyPrefixMatchesAll` | net/http/authz/authorizer.go:123-133 | an empty multi-valued pattern matches every list |
| `X509Match.PrefixExamples` | net/http/authz/authorizer.go:123-133 | `["Acme"]` matches `["Acme","Eng"]` and matches neither `[]` nor `["Other"]` |
| `X509Match.PrefixIsOrdered` | net/http/authz/authorizer.go:127-131 | matching is by position, not by set: a list never matches a different list of the same length holding the same values |
| `X509Match.ReorderedExample` | net/http/authz/authorizer.go:127-131 | example: `["Acme","Eng"]` and `["Eng","Acme"]` hold the same values, and the first does not match the second |
| `X509Match.MatchesStringExactly` | net/http/authz/authorizer.go:135-137 | an empty single-valued pattern matches every value; a non-empty one matches exactly itself |
| `X509Match.EmptyPatternMatchesAll` | net/http/authz/authorizer.go:111-121 | a pattern with all nine fields empty matches every subject name |
| `X509Match.OrganizationPatternMatches` | net/http/authz/authorizer.go:111-121 | a pattern that sets only the organization list matches exactly the names whose organization list starts with it |
| `X509Match.MatchesX509Reflexive` | net/http/authz/authorizer.go:111-121 | every subject name, used as a pattern, matches itself |
| `X509Match.MatchesX509Transitive` | net/http/authz/authorizer.go:111-121 | if p matches q and q matches x then p matches x |
| `X509Match.LongerPatternNarrows` | net/http/authz/authorizer.go:115 | appending a value to the organizational-unit pattern only removes names from the set it matches |
| `Guards.AccessTokenGuardData` | net/http/authz/authorizer.go:105-109 | definition: the ID the token decoder yields for the guard data, or `""` when it fails |
| `Guards.GuardHolds` | net/http/authz/authorizer.go:79-100 | definition: one arm of the switch; `access_token` compares the decoded ID with the token, `x509` needs a parsed pattern and a matching certificate subject, `localhost` reads the loopback flag, `any` holds, any other type does not |
| `Guards.Admits` | net/http/authz/authorizer.go:77-103 | definition: some grant of the list satisfies its guard |
| `Guards.Authorized` | net/http/authz/authorizer.go:77-103 | the scan with early returns yields true iff some grant's guard holds: `any` always, `localhost` iff loopback, `access_token` iff the decoded ID equals the token, `x509` iff the pattern parses and some certificate subject matches; unknown types and unparsable patterns never match and the scan continues |
| `Guards.AdmitsAppend` | net/http/authz/authorizer.go:78-102 | a joined grant list admits a request iff one of its two parts does |
| `Guards.AdmitsMonotone` | net/http/authz/authorizer.go:78-102 | adding grants before or after never turns a permit into a denial |
| `Guards.AdmitsMember` | net/http/authz/authorizer.go:78-102 | a list admits a request iff some member admits it, whatever its position |
| `Guards.DeadGrantIsSkipped` | net/http/authz/authorizer.go:84-88 | a grant that admits nothing, such as an unparsable x509 grant, can be inserted anywhere without changing the outcome |
| `Guards.AnyAdmitsEveryone` | net/http/authz/authorizer.go:98-99 | an `any` grant admits every request, including one with no credentials |
| `Guards.LocalhostAdmitsLoopbackOnly` | net/http/authz/authorizer.go:94-97 | a `localhost` grant admits a request iff it came over loopback |
| `Guards.AccessTokenAdmitsExactToken` | net/http/authz/authorizer.go:80-83 | an access-token grant whose payload decodes to ID `id` admits exactly the requests whose token is `id` |
| `Guards.MalformedTokenGrantAdmitsEmptyToken` | net/http/authz/authorizer.go:105-108 | an access-token payload that fails to decode raises no error; it reads as ID `""`, so the grant admits exactly the requests whose token is `""` |
| `Guards.UnparsableX509NeverAdmits` | net/http/authz/authorizer.go:85-88 | an x509 grant whose pattern fails to parse admits no request |
| `Guards.X509AdmitsMatchingCert` | net/http/authz/authorizer.go:89-93 | a parsed x509 pattern admits a request iff some presented certificate subject matches it |
| `Guards.UnknownGuardNeverAdmits` | net/http/authz/authorizer.go:79-100 | a grant of any other guard type admits nothing |
| `Registry.AppendGrant` | net/http/authz/authorizer.go:38 | the grant is added at the end of its own policy's list, that policy becomes a key, and every other policy's list is unchanged |
| `Registry.WithPolicy` | net/http/authz/authorizer.go:37-39 | the selected grants come from the list and carry the policy asked for |
| `Registry.SeedByPolicy` | net/http/authz/authorizer.go:37-39 | seeding appends, under each policy, the seeded grants of that policy in their order after what was there |
| `Registry.SeedBuiltins` | net/http/authz/authorizer.go:21 | seeding an empty map with the builtin grants yields exactly `public` mapped to the one `any` grant |
| `Registry.AppendKeepsFiled` | net/http/authz/authorizer.go:51-56 | appending a grant under its own policy keeps every local grant filed under its own policy |
| `Registry.BuiltinsFiled` | net/http/authz/authorizer.go:21 | the initial local map files each grant under its own policy |
| `Registry.InternalGrant` | net/http/authz/authorizer.go:51-56 | definition: the grant with guard type `x509`, the formatted subject as guard data, policy `internal` and the given creation time |
| `Registry.StoredGrants` | net/http/authz/authorizer.go:158-166 | definition: an absent store key gives an empty list; a present one gives whatever the grant-list decoder returns |
| `Registry.PolicyGrants` | net/http/authz/authorizer.go:157-165 | definition: one iteration of the join, the policy's local list followed by its decoded stored list, or the decoding error |
| `Registry.GrantsFor` | net/http/authz/authorizer.go:154-169 | definition: the per-policy lists joined in policy order, or the error of the first policy whose stored list fails to decode |
| `Registry.Seed` | net/http/authz/authorizer.go:37-39 | definition: the local map after appending each of the given grants, in order, under its own policy |
| `Registry.FiledLocal` | net/http/authz/authorizer.go:51-56 | when every local grant is filed under its own policy, every grant listed for policy p carries policy p |
| `Registry.GrantsForFails` | net/http/authz/authorizer.go:156-167 | the join fails iff the stored list of some listed policy fails to decode |
| `Registry.GrantsForFirstError` | net/http/authz/authorizer.go:161-164 | once the policies so far have failed, the whole join fails with that same first error |
| `Registry.GrantsForAdmits` | net/http/authz/authorizer.go:154-169 | on success every policy's list decoded, and the joined list admits a request iff the local-plus-stored list of some one listed policy does |
| `Registry.GrantsForHasLocal` | net/http/authz/authorizer.go:157 | on success the joined list contains every local grant of every listed policy |
| `Registry.GrantsForOkIgnoresLocal` | net/http/authz/authorizer.go:157-165 | whether the join fails does not depend on the local grants |
| `Authz.TrimTrailingSlashes` | net/http/authz/authorizer.go:60 | the key is the longest prefix of the request URI that does not end in `/`, and only `/` characters were removed |
| `Authz.RoutePolicies` | net/http/authz/authorizer.go:60 | definition: the policy list of the trimmed request URI, or the empty list when the route is absent |
| `Authz.Decide` | net/http/authz/authorizer.go:59-75 | definition: missing policy when the route's list is empty, else the store error of the join, else permitted iff the joined grants admit the request, else not authorized |
| `Authz.TrailingSlashIgnored` | net/http/authz/authorizer.go:60 | a request URI with one more trailing `/` selects the same route |
| `Authz.TrimIdempotent` | net/http/authz/authorizer.go:60 | trimming an already trimmed key changes nothing |
| `Authz.Authorizer.constructor` | net/http/authz/authorizer.go:30-41 | the new authorizer keeps the prefix and route map, its local grants are exactly `public` mapped to the builtin `any` grant, and the registry invariant holds |
| `Authz.Authorizer.GrantInternal` | net/http/authz/authorizer.go:46-57 | when the subject formats, exactly one `x509` grant under `internal` with the formatted subject is appended to the end of the `internal` list and no other policy changes; when it does not (the source panics), nothing changes; the invariant is kept |
| `Authz.Authorizer.GrantsByPolicies` | net/http/authz/authorizer.go:154-169 | the loop with its early return computes the join of local and decoded stored lists over the policies in order, or the first decoding error |
| `Authz.Authorizer.Authorize` | net/http/authz/authorizer.go:59-75 | the method renders the decision for the request given the current local grants and the store snapshot |
| `Authz.MissingPolicyIffNoPolicies` | net/http/authz/authorizer.go:60-63 | "missing policy" is returned iff the trimmed URI has no or an empty policy list, and it is distinct from a denial |
| `Authz.MissingPolicyIgnoresRequest` | net/http/authz/authorizer.go:60-63 | whether "missing policy" is returned does not depend on grants, store or credentials |
| `Authz.StoreFailureIff` | net/http/authz/authorizer.go:65-68 | a wrapped store error is returned iff the route has policies and the stored list of one of them fails to decode |
| `Authz.PermittedIff` | net/http/authz/authorizer.go:59-75 | a request is permitted iff the route has policies, every stored list decodes, and the grants of some one of its policies admit the request |
| `Authz.NotAuthorizedIff` | net/http/authz/authorizer.go:70-72 | a request is denied iff the route's grants load and no grant among them admits it |
| `Authz.PublicRoutePermitsEveryone` | net/http/authz/authorizer.go:21 | a route whose policies include `public`, with the builtin `public` list, permits every request once the store reads succeed |
| `Authz.InternalGrantVisible` | net/http/authz/authorizer.go:46-57 | after registration, a request with a certificate matching the registered subject is permitted on every route that lists `internal`, once the store reads succeed |

## Left out

- The client SDK's grant request builders (`AuthorizationGrant.java`): they only marshal requests and hold no decision logic.
- Raft replication and stale reads (`Stale()`): the store is one snapshot per call, with no model of staleness.
- The protobuf wire format, JSON decoding, and the name parser and formatter: their bodies are not part of this model, so they are arbitrary functions in `Foreign`. Partial JSON decoding is folded into that function's result.
- Extracting the token, certificates and loopback flag from an `http.Request` and its context: the model takes the extracted `Credentials`, with each certificate reduced to its subject name.
- The clock behind a grant's creation time: it is an arbitrary string parameter.
- Concurrency: the source takes no lock around `extraGrants`, and the model is sequential.
- `equalX509Name`: nothing in the source calls it.
- Subject-name fields that matching does not read (`Names`, `ExtraNames`): `Name` has only the nine fields that are compared.
- `Authz.Authorizer.GrantInternal`: the source panics when formatting fails; the model returns `false` instead and leaves the state unchanged.
