# FoxGuard: what the gateway does, proved

FoxGuard compiles the state of a database into a firewall, a reverse proxy and a DNS zone, and an
agent on the gateway reconciles the machine onto them. This project models both halves in Dafny
and proves what they are for. `dafny verify dfyconfig.toml` checks everything.

Each compiler is modelled with its input, the program it emits as a small abstract syntax, an
evaluator for that syntax, and a direct policy that knows nothing of the syntax; the theorems say
that evaluating the emitted program gives the policy's answer. Each reconciler and each service of
the control plane that updates state in place is a class whose methods state their whole outcome
for every answer of the commands they run, beside theorems over all runs.

| part | modules |
|---|---|
| shared | `Wrappers`, `Ordering` (keys, stable sorting), `Net` (addresses as bits), `Grammar`, `GrammarMeaning`, `Text` |
| nftables compiler | `NftModel`, `NftProgram` (evaluator), `NftGenerator`, `NftValidation`, `NftPolicy`, `NftCorrectness`, `NftForward`, `NftInput`, `NftReferences`, `NftNarrowing`, `NftLockdown`, `NftStability`, `NftReordering` |
| HAProxy compiler | `HaproxyModel`, `HaproxyProgram` (evaluator), `HaproxyGenerator`, `HaproxyValidation`, `HaproxyPolicy`, `HaproxyFiles`, `HaproxyFilters`, `HaproxySignOn`, `HaproxyCorrectness`, `HaproxyRates`, `HaproxyRows`, `HaproxyPassthrough`, `HaproxyFrontend`, `HaproxyIdentity`, `HaproxyMeaning` (from the rows to the verdict), `GroupClaim` |
| agent | `ProxyApplier`, `ManagedFiles`, `DnsApplier`, `Routes`, `MissingRoutes`, `Geo`, `WireGuardConfig`, `WireGuardRoundTrip`, `WireGuardSection`, `WireGuardPeers`, `Agent` (the poll) |
| control plane | `Lifecycle` (one step as a function), `LifecycleSafety`, `LiveSessions`, `Expiry`, `KillSwitch`, `ControlPlane` (the steps as methods), `RateLimit`, `DnsZone`, `DnsMeaning`, `DnsNarrowing`, `DnsRegain`, `Policies`, `PolicyImport` |

## How the pieces meet

* A packet carries its addresses, interfaces, connection state and transport. It is well formed
  when both addresses are of one family and ICMP matches that family; nothing else is assumed of it.
* Addresses are values, so two spellings of one address cannot differ; the code compares texts and
  the database hands it canonical ones.
* A specification is valid when the validator, modelled check by check, finds no problem. Theorems
  about emitted firewall programs require validity and nothing more. Those about the proxy also
  require that the files are the rendered ones and that the set of peers exists, as the service
  that builds the specification always adds it (`backend/foxguard/services/proxy.py`).
* Commands (`nft`, `haproxy -c`, `systemctl`, `ip`, `wg`, `dnsmasq --test`) are parameters: each
  theorem holds for every combination of answers. `nft -f` is a transaction, the first verdict
  wins, a HAProxy condition is a conjunction, a reload or restart that succeeds serves what is on
  disk, and a kernel `route add` refuses a network that is already routed.
* A rate limit counts the requests its stick table tracked of the caller in its period; all that is
  assumed of the counts is that a longer look back finds no fewer.
* A function that a program and its policy both read is pinned in a lemma of its own, by what it
  means and in literal terms: the order of rules (`NftForward.RuleOrder`), the access rules of a door
  (`HaproxyFilters.EmittedInForce`), the transition tables (`Lifecycle.AdminTable`), the sections of
  a configuration (`WireGuardSection.SectionHolds`), the defaults of a document
  (`PolicyImport.RuleDefaults`), the rows behind a zone (`DnsMeaning.ZoneMeans`).
* The groups of a peer are joined with commas, as the code does; the comment on that function says
  spaces (`backend/foxguard/proxy/haproxy.py`, line 643).
* Python's `re.match` with a trailing `$` accepts one final line break; the grammars here do too.

## Where the code does not do what it is meant to

Each is stated by a lemma on a concrete or general input, beside the exact condition under which
the code does what it should.

* Several sign-on rows on one door share the variable of the first
  (`HaproxyRows.DoorFaithfulExactly`, `HaproxyRows.TwoRowsTurnAMemberAway`).
* A passthrough service on both doors is judged by its external rules, so its tunnel side asks
  nobody (`HaproxyPassthrough.InsideHonouredExactly`, `HaproxyPassthrough.StrangersLetInExactly`).
* Every rate limit of a service is held against one counter, over the period of the first
  (`HaproxyRates.LimitsExactly`, `HaproxyRates.SlowLimitHoldsNobody`).
* A rate limit on a passthrough service, which validation accepts, holds nobody
  (`HaproxyPassthrough.PassthroughJudges`, `HaproxyPassthrough.UnmetIsOverRate`,
  `HaproxyPassthrough.LimitHoldsNobody`).
* Validation lets a service take the sign-in page's host name or one of the slugs `fg_sso`,
  `fg_dashboard`, `fg_no_service` (`HaproxyFrontend.IsolatedExactly`).
* `sso_revoked.map` has none of the managed prefixes, so a refused configuration removes the
  revocation list, and the agent still believes the earlier configuration is in place
  (`ProxyApplier.RollbackIsExact`, `Agent.InPlaceExactly`, `Agent.RevocationsLost`).
* The remembered ruleset digest can differ from what nftables holds, until the next ruleset that
  goes through (`Agent.TruthfulExactly`, `Agent.DigestCanLie`).
* Lockdown takes peers out of the quarantine set and out of the rules that refused them, so the
  firewall by itself accepts packets it refused before: of peers that were confined, and new
  connections of peers a rule refused (`NftLockdown.LockdownWidensExactly`,
  `NftLockdown.LockdownWidensTheFirewall`, `NftLockdown.NewConnectionWidened`). The agent closes
  this by taking the peers off the interface, where they stay (`KillSwitch.LockdownHolds`).
* A live session belongs to an active peer, except where an administrator revokes the key of an
  active user peer and quarantines it (`LiveSessions.LiveSessionsExactly`,
  `LiveSessions.KeyRevocationLeavesSession`); deleting an account keeps the session invariant exactly
  when no device of it is active (`LiveSessions.AccountDeletionExactly`,
  `LiveSessions.AccountDeletionBreaksIt`).
* Quarantining a disabled peer, or a sign-in, can make a DNS zone invalid
  (`DnsRegain.ZoneSurvivesRegaining`, `DnsNarrowing.QuarantiningDisabledCanBreak`,
  `DnsRegain.SigningInCanBreak`).
* A policy document can pass validation and never settle, or lose a rule in a pruning import
  (`PolicyImport.ImportSettles`, `PolicyImport.StrayNameNeverSettles`,
  `PolicyImport.PruningLosesTheRule`).
* A network asked for twice is reported as routed by somebody else (`Routes.UnhinderedProblems`,
  `Routes.AskedForTwice`).
* A recorded route that somebody else removed is not put back while it is wanted; it comes back once
  a poll has stopped wanting it (`MissingRoutes.AllTunnelledExactly`,
  `MissingRoutes.MissingThroughout`, `MissingRoutes.GoneAndBack`).
* A dry run of the agent still rebuilds the country map, exactly when an ordinary one would
  (`Agent.Agent.ReconcileProxy`, `Agent.DryRunBuilds`).

## Model

| member | source | states |
|---|---|---|
| `NftForward.ForwardChainCorrect` | backend/foxguard/nftables/generator.py:734-823 | for every validated specification and well-formed packet, evaluating the emitted forward chain, with sets looked up by their emitted names, gives the verdict of the direct policy: traffic that is not the tunnel's, invalid, confined peers, established, ICMP errors, the deciding rule, intra-zone, internet exit outside internal networks, drop |
| `NftForward.AclPairMeans` | backend/foxguard/nftables/generator.py:477-502 | the two lines of a rule, one per family, decide a packet exactly when the rule applies to it, with the action of the rule |
| `NftForward.EndpointMatchMeans` | backend/foxguard/nftables/generator.py:435-457 | the tokens of one side hold exactly when the packet is of the line's family and the address is in the group, zone or network; a side that excludes the family matches nothing of it |
| `NftForward.SortedRulesDecide` | backend/foxguard/nftables/generator.py:771-780 | the first applicable rule of the sorted list is the one applicable rule that no other comes before, by priority and then by id in code point order, and none applies when none is found |
| `NftForward.RuleOrder` | backend/foxguard/nftables/model.py:255-271 | the key rules are sorted by orders them as the policy does: by priority, and by id in code point order where priorities are equal |
| `NftForward.DecidesIsUnique` | backend/foxguard/nftables/model.py:255-271 | in a valid specification at most one rule decides a packet |
| `NftInput.InputChainCorrect` | backend/foxguard/nftables/generator.py:602-706 | the emitted input chain gives the verdict of the direct policy: invalid, what a confined peer may still reach (portal, resolver, ping), established, then open or restricted |
| `NftInput.QuarantineAllowedMeans` | backend/foxguard/nftables/generator.py:618-663 | the lines for confined sources accept exactly portal, resolver and ping traffic of sources in the quarantine set |
| `NftInput.PortalDestinationMeans` | backend/foxguard/nftables/generator.py:709-731 | the portal clause holds for exactly the portal's address of the packet's family, and for any address when the portal has none of its own |
| `NftInput.NatChainCorrect` | backend/foxguard/nftables/generator.py:826-855 | a packet is masqueraded exactly when it leaves through the WAN from an address of a group or zone with an internet exit |
| `NftCorrectness.NameIsUnique` | backend/foxguard/nftables/generator.py:104-135 | validation makes set names injective over owner and family, hyphens and underscores collapsing |
| `NftCorrectness.LookupByName` | backend/foxguard/nftables/generator.py:548-594 | looking a set up by its emitted name finds the addresses of its own declaration and no others |
| `NftCorrectness.RenderedSetsRepresent` | backend/foxguard/nftables/generator.py:505-594 | the declared sets, looked up by name, hold exactly the members of each group, each zone with its routes, the confined peers and the internal networks |
| `NftCorrectness.ZoneMembersMean` | backend/foxguard/nftables/generator.py:514-528 | the members of a zone are its active peers' addresses and the networks routed in it, in the family asked for |
| `NftReferences.ReferencesResolve` | backend/foxguard/nftables/generator.py:857-874 | every set a rule of any chain names is declared, in the family the match asks, and no name is declared twice |
| `NftValidation.ValidateSpec` | backend/foxguard/nftables/generator.py:193-382 | the list of problems is empty exactly for the valid specifications: gateway, slugs and set names, routes and their carriers, peers and their addresses, rules |
| `NftValidation.ValidatePeers` | backend/foxguard/nftables/generator.py:332-363 | no problem exactly when ids are distinct, groups and zones are known, addresses parse, are of their family and belong to one peer, and an active peer has one |
| `NftValidation.ValidateCarriers` | backend/foxguard/nftables/generator.py:307-322 | no problem exactly when no network is carried by two peers; the carriers returned are exactly those claimed |
| `NftValidation.RegisterSlug` | backend/foxguard/nftables/generator.py:223-244 | a slug passes exactly when it is well formed and its set name is free among those seen |
| `NftValidation.ValidateRule` | backend/foxguard/nftables/generator.py:369-379 | no problem exactly when the rule id is well formed, both sides name something known and the ports fit the protocol |
| `NftNarrowing.ForwardNarrows` | backend/foxguard/nftables/generator.py:734-823 | quarantining any set of active peers turns the verdict on tunnel packets from or to a moved address into drop, established or not, and changes no other forward verdict |
| `NftNarrowing.InputNarrows` | backend/foxguard/nftables/generator.py:602-706 | quarantining changes the input verdict only for moved sources off portal, resolver and ping, and only to drop |
| `NftNarrowing.ValidAfter` | backend/foxguard/services/killswitch.py:69-86 | a validated specification stays valid when any active peers are quarantined |
| `NftReordering.RenderingIsStable` | backend/foxguard/nftables/generator.py:857-885 | reordering groups, zones, routes inside zones, peers, rules, internal networks and portal addresses keeps validity and renders the same program, element for element |
| `NftReordering.ShuffledValid` | backend/foxguard/nftables/generator.py:193-382 | a reordered specification validates whenever the original does |
| `NftStability.ShuffledStable` | backend/foxguard/nftables/generator.py:403-414 | the program is the same under any permutation of the lists |
| `HaproxyCorrectness.ServiceRulesJudge` | backend/foxguard/proxy/haproxy.py:884-1071 | on an HTTP door the emitted rules stop a request exactly when the policy as emitted refuses it, and with the same reason: sign-on rows sharing the first one's variable, rate limits sharing the service's one counter; what passes carries the headers the policy grants |
| `HaproxyRates.LimitsExactly` | backend/foxguard/proxy/haproxy.py:673-681 | on an HTTP door that lets some request in: whatever was requested before, the rules let it in exactly when every limit, over its own period, is kept, if and only if no covering limit has a longer period than the first limit of the service and each is backed by a covering one of that period with at most its rate; and they also give the intended reason if and only if the backing one comes no later |
| `HaproxyRates.TablesMean` | backend/foxguard/proxy/haproxy.py:673-681 | every service with a rate limit finds the stick table declared for it, over the period of its first limit |
| `HaproxyRates.OnePeriodInOrder` | backend/foxguard/proxy/model.py:371-376 | limits of the one period of the service, a single limit in particular, are in order |
| `HaproxyRates.SlowLimitHoldsNobody` | backend/foxguard/proxy/haproxy.py:926-938 | an instance: a service validation accepts, a hundred a minute inside and ten an hour outside; over ten in the hour and not in a minute a request the policy refuses is let in outside |
| `HaproxyRows.DoorJudgesAsIntended` | backend/foxguard/proxy/haproxy.py:884-1071 | with agreeing sign-on rows and rate limits in order the emitted rules give exactly the intended verdict, reason included: all covering filters, each rate limit over its own period, no deny, an allow or none listed, public or some authenticator |
| `HaproxyRows.DoorPassesAsIntended` | backend/foxguard/proxy/haproxy.py:884-1071 | with agreeing sign-on rows and rate limits that agree they let in exactly the requests meant to be let in |
| `HaproxyPolicy.JudgePasses` | backend/foxguard/proxy/haproxy.py:903-971 | a request passes exactly when every covering filter passes, a rate limit by the requests of its own period, no rule in force on the door denies it and one allows it or none is in force that could, and the door is public or some authenticator that covers it is satisfied |
| `HaproxyFilters.FiltersRun` | backend/foxguard/proxy/haproxy.py:903-939 | the emitted filter rules stop a request with the reason of the first covering filter that does not pass as it is enforced, rate limits by the one counter of the service or, on a passthrough service, not at all; and otherwise they change nothing but which counter is used |
| `HaproxyFilters.DenyRulesRun` | backend/foxguard/proxy/haproxy.py:941-944 | a request is refused exactly when some deny rule matches its source |
| `HaproxyFilters.AllowRulesRun` | backend/foxguard/proxy/haproxy.py:946-954 | one refusal under the negations of all allow rules refuses exactly when there are allow rules and none matches |
| `HaproxyFilters.EmittedInForce` | backend/foxguard/proxy/model.py:357-365 | the rules emitted for a door are those in force on it: all of them inside, those that name no set of tunnel addresses outside |
| `HaproxyMeaning.JudgeMeans` | backend/foxguard/proxy/haproxy.py:884-1071 | over the rows of the service themselves: a request is let in exactly when every filter of the door is met, no rule in force denies it, one allows it or none is in force that could, and some authenticator of the door is public or satisfied |
| `HaproxyMeaning.RefusalMeans` | backend/foxguard/proxy/haproxy.py:1005-1044 | what an HTTP caller nobody knows is told: that they may not, exactly when they are signed in and the first sign-on row of the door asks for more; to sign in where there is a sign-on; else for a password in the name of the first row that asks for one; else for a token; else no |
| `HaproxyMeaning.DoorOkMeans` | backend/foxguard/proxy/haproxy.py:511-540 | a door passes validation exactly when the service is not published on it, or some authenticator covers it and a public one is the only one that does |
| `HaproxyMeaning.FrontendMeans` | backend/foxguard/proxy/haproxy.py:776-835 | from end to end, over the rows: a request for the name of a published service, under a slug and name of its own and with agreeing sign-on rows and rate limits, passes the whole frontend exactly when filters, access rules and authenticators let it in, and goes to the service's backend |
| `HaproxySignOn.SessionTermsMean` | backend/foxguard/proxy/haproxy.py:1171-1183 | the conjunction over the variables holds exactly for a cookie that verifies under the pinned algorithm, is unexpired and is not revoked |
| `HaproxySignOn.AuthzRun` | backend/foxguard/proxy/haproxy.py:1132-1168 | the authorisation variable ends at 1 exactly when the person is in a required group, if any is required, and an administrator, if one is |
| `HaproxySignOn.SetupRun` | backend/foxguard/proxy/haproxy.py:1077-1129 | after the setup rules each variable holds what the cookie says, and no other variable changed |
| `HaproxyCorrectness.AdmitRulesRun` | backend/foxguard/proxy/haproxy.py:974-1004 | a disjunction encoded as assignments: the flag ends at 1 exactly when it was 1 or some authenticator is satisfied |
| `HaproxyCorrectness.NotAllowedRun` | backend/foxguard/proxy/haproxy.py:1005-1025 | signed in, in order and still refused is answered before the redirect to the sign-in page, and only then |
| `HaproxyRows.RowsAgreeExactly` | backend/foxguard/proxy/haproxy.py:970-981 | several sign-on rows on one door share one variable that is set up for the first: the rows mean what they say for every person if and only if some row asks nothing or each asks at least what the first asks |
| `HaproxyRows.DoorFaithfulExactly` | backend/foxguard/proxy/haproxy.py:970-981 | on a door some request reaches with nothing but a sign-on to admit it, rate limits kept, the emitted rules give the intended verdict on every such request if and only if the rows agree |
| `HaproxyRows.TwoRowsTurnAMemberAway` | backend/foxguard/proxy/haproxy.py:970-981 | a service validation accepts, for "an administrator, or anybody in ops": the policy lets a signed-in member of ops in, and the emitted rules stop the request as not allowed |
| `HaproxyRows.MeetsMeansMembership` | backend/foxguard/proxy/haproxy.py:1149-1160 | for a person issued the claim of their groups, a row is met exactly when one of its groups is among them and the administrator demand is met |
| `GroupClaim.PatternMeansMembership` | backend/foxguard/services/sso.py:83-105 | for comma-free slugs the delimited pattern is a substring of the joined claim exactly when the slug is in the list |
| `GroupClaim.IssuedClaimMeansMembership` | backend/foxguard/services/sso.py:108-117 | the same for the claim issued from the rows of the group table: zones never count |
| `GroupClaim.MemberSlugsMean` | backend/foxguard/services/sso.py:108-117 | the slugs of the issued claim are those of the groups, zones left out, in code point order |
| `HaproxyPassthrough.PassthroughJudges` | backend/foxguard/proxy/haproxy.py:1212-1231 | a passthrough frontend gives the verdict of its front door, the external one when it has one, if and only if it does not let a request past a rate limit of that door it exceeds |
| `HaproxyPassthrough.UnmetIsOverRate` | backend/foxguard/proxy/haproxy.py:926 | what passes although some covering filter is not met is exactly what passes over a covering rate limit |
| `HaproxyPassthrough.LimitHoldsNobody` | backend/foxguard/proxy/haproxy.py:926 | an instance: a service with a rate limit that validation accepts, and a request over the rate that the policy refuses is let in |
| `HaproxyPassthrough.BothDoorsAskNobody` | backend/foxguard/proxy/haproxy.py:1228-1231 | a passthrough service on both doors that validates asks nobody: it passes exactly on access rules and filters other than rate limits of the external door |
| `HaproxyPassthrough.InsideHonouredExactly` | backend/foxguard/proxy/haproxy.py:1228-1231 | for a validated service on both doors the frontend agrees with the tunnel-side policy on a request exactly when the external rules and filters other than rate limits do |
| `HaproxyPassthrough.StrangersLetInExactly` | backend/foxguard/proxy/haproxy.py:1228-1231 | with filters and rules the same on both doors, let in against the tunnel-side policy are exactly the requests that pass over a rate limit or, while the tunnel side is not public, from no peer's address |
| `HaproxyPassthrough.OneDoorIsHonoured` | backend/foxguard/proxy/haproxy.py:1228-1231 | a service on one door is judged by the policy of that door, except exactly where it passes over a rate limit of it |
| `HaproxyPassthrough.InsideIsOpenToo` | backend/foxguard/proxy/haproxy.py:1228-1231 | an instance: a service validation accepts, and a stranger its tunnel side refuses is let in |
| `HaproxyPassthrough.RatesIgnored` | backend/foxguard/proxy/haproxy.py:926-939 | whatever the request counters show, the frontend of a passthrough service lets the same requests in |
| `HaproxyFrontend.FrontendIsolates` | backend/foxguard/proxy/haproxy.py:776-835 | on the shared frontend a request runs through the rules of its own service and no others, even where two slugs share variable names |
| `HaproxyFrontend.FrontendJudges` | backend/foxguard/proxy/haproxy.py:776-835 | a request for a published service gets that service's verdict and reason as emitted, and the intended ones where sign-on rows agree and rate limits are in order; it goes to that service's backend, whatever else is published on the door |
| `HaproxyFrontend.IsolatedExactly` | backend/foxguard/proxy/haproxy.py:776-835 | a service of a validated specification meets its own rules and reaches its own upstream if and only if its slug is none the configuration declares a backend for and its host name is not the sign-in page's |
| `HaproxyFrontend.OwnBackend` | backend/foxguard/proxy/haproxy.py:700-732 | a backend name is its service's alone exactly when the slug is not `fg_sso`, `fg_dashboard` or `fg_no_service` while those backends are declared |
| `HaproxyFrontend.PreambleRun` | backend/foxguard/proxy/haproxy.py:795-804 | identity headers sent by the caller are gone before any rule can set one, and the peer label is the one the tunnel address proves |
| `HaproxyIdentity.IdentityIsOurs` | backend/foxguard/proxy/haproxy.py:1048-1067 | headers on a passed request are the proxy's own; behind sign-on alone the user header is the subject of a valid session |
| `HaproxyIdentity.SharedWithSignIn` | backend/foxguard/proxy/haproxy.py:859-881 | a request under the sign-in page's host name is answered 404 off its path, so a service of that name is never reached |
| `HaproxyIdentity.SlugSharedWithSignIn` | backend/foxguard/proxy/haproxy.py:859-881 | the same for a service whose slug is `fg_sso`, which validation accepts |
| `HaproxyIdentity.UnknownHost` | backend/foxguard/proxy/haproxy.py:835 | a host nothing is published under meets no rule and no service |
| `HaproxyFiles.FileNameInjective` | backend/foxguard/proxy/haproxy.py:137-155 | set, token, address-filter and map files never share a name |
| `HaproxyFiles.RenderFiles` | backend/foxguard/proxy/haproxy.py:549-581 | every file a rule refers to is present under its own name with its own contents |
| `HaproxyFiles.SetFileMeans` | backend/foxguard/proxy/haproxy.py:549-581 | looking an address up in a set file answers exactly whether it is in that set |
| `HaproxyFiles.LabelsMean` | backend/foxguard/proxy/haproxy.py:631-639 | an address answers with the label of its peer, the last one's if two share it, and with nothing if it is nobody's |
| `HaproxyFiles.GroupTextsMean` | backend/foxguard/proxy/haproxy.py:642-648 | an address answers with the groups of its peer, or not at all where the peer has none |
| `HaproxyFiles.GroupTextMeans` | backend/foxguard/proxy/haproxy.py:642-648 | the text for a peer's groups is their slugs in code point order with commas between, and a slug stands between two commas in it exactly when it is one of them |
| `HaproxyMeaning.NamesApart` | backend/foxguard/proxy/haproxy.py:125-135 | no two services share a stick table, a list of accounts or a backend |
| `HaproxyMeaning.OptionMeans` | backend/foxguard/proxy/haproxy.py:214-224 | an extra option is accepted exactly when it is one line that begins with a small letter or a digit |
| `GrammarMeaning.HostnameMeans` | backend/foxguard/proxy/model.py:538-539 | a host name is accepted exactly when it is labels of small letters, digits and inner hyphens, at most 63 characters each, joined by dots, at most 253 in all with a final line break counted |
| `GrammarMeaning.SlugMeans` | backend/foxguard/nftables/generator.py:57-59 | a slug is at most 24 characters, a set name at most 48, of small letters, digits, hyphens and underscores, the first a letter or digit; one final line break is let through |
| `GrammarMeaning.TableMeans` | backend/foxguard/nftables/generator.py:60 | a table name is at most 24 small letters, digits and underscores, a letter first |
| `GrammarMeaning.InterfaceMeans` | backend/foxguard/nftables/generator.py:61-62 | an interface name is at most 15 letters, digits and characters of `_.@-` |
| `GrammarMeaning.RuleIdMeans` | backend/foxguard/nftables/generator.py:63 | a rule id is at most 64 letters, digits and characters of `_.:-` |
| `GrammarMeaning.UsernameMeans` | backend/foxguard/proxy/haproxy.py:100 | an account name is at most 64 letters, digits and characters of `._-`, a letter or digit first |
| `GrammarMeaning.Sha256Means` | backend/foxguard/proxy/model.py:74 | a token digest is 64 digits and letters up to f, in small letters |
| `Net.CidrMeans` | backend/foxguard/nftables/generator.py:141-149 | a text is a network exactly when its length fits the family, and it then holds the addresses of that family that agree with the one written on that many bits: host bits do not count |
| `HaproxyValidation.ValidateSpec` | backend/foxguard/proxy/haproxy.py:167-224 | no problem exactly for the valid specifications: paths, binds, domain, source sets, dashboard, services and extra options |
| `HaproxyValidation.ValidatePolicy` | backend/foxguard/proxy/haproxy.py:374-541 | no problem exactly when authenticators, filters, access rules, accounts and tokens are acceptable and every door is either public alone or guarded |
| `HaproxyValidation.ValidateServices` | backend/foxguard/proxy/haproxy.py:282-371 | no problem exactly when each service is acceptable and no two share a slug, a host name on one door or a listening port |
| `HaproxyValidation.ClaimName` | backend/foxguard/proxy/haproxy.py:313-346 | a host name passes on a door exactly when no earlier service nor the dashboard holds it there |
| `HaproxyValidation.ValidateDashboard` | backend/foxguard/proxy/haproxy.py:227-264 | no problem exactly when the dashboard's name, address and port are acceptable and it does not lead back to the proxy |
| `ProxyApplier.Applier.Apply` | agent/foxguard_agent/proxy.py:228-293 | which answer a call gives for all command results; on return disk and daemon hold what was asked for; "synced" means memory equals the changed files; a failure leaves configuration and files as they were, unmanaged files of the request excepted |
| `ProxyApplier.Applier.CurrentFiles` | agent/foxguard_agent/proxy.py:179-190 | exactly the files of the maps directory with a managed prefix |
| `ProxyApplier.Applier.SyncMaps` | agent/foxguard_agent/proxy.py:297-324 | true exactly when there is a socket, something changed, every changed file is a pattern file and every push succeeds; then memory holds every change |
| `ProxyApplier.Applier.Restore` | agent/foxguard_agent/proxy.py:343-362 | files that were there are written back, the ones that were not are removed, and the configuration is the previous one |
| `ProxyApplier.ApplyFaithfully` | agent/foxguard_agent/proxy.py:228-293 | every failure leaves the disk rolled back; whatever a call answers, a daemon that served the disk goes on serving the disk |
| `ProxyApplier.RollbackIsExact` | agent/foxguard_agent/proxy.py:343-362 | a failed install leaves the maps directory as it was if and only if no unmanaged file of the request was already there |
| `ProxyApplier.RollbackLosesRevocations` | backend/foxguard/proxy/haproxy.py:1074 | `sso_revoked.map` is such a file: a refused configuration takes the revocation list off the disk |
| `ManagedFiles.RenderedManaged` | agent/foxguard_agent/proxy.py:64 | of the files a rule refers to, the names of all but the revocation list are among those the agent manages |
| `ManagedFiles.RenderedPushable` | agent/foxguard_agent/proxy.py:297-324 | every file a rule refers to can be pushed over the runtime socket |
| `ManagedFiles.ErrorPagesNeedReload` | agent/foxguard_agent/proxy.py:297-324 | error pages are managed and cannot be pushed, so a change to one needs a reload |
| `ProxyApplier.RevocationsAreNeverCurrent` | agent/foxguard_agent/proxy.py:228-252 | a request carrying that file is never found to be current |
| `ProxyApplier.InstalledMeans` | agent/foxguard_agent/proxy.py:254-261 | a file asked for is on disk as requested, a managed file not asked for is gone, any other file is untouched |
| `ProxyApplier.InstalledIsCurrent` | agent/foxguard_agent/proxy.py:228-252 | an installed request has nothing left to install if and only if all its names are managed |
| `ProxyApplier.SyncKeepsFaith` | agent/foxguard_agent/proxy.py:297-324 | pushing the changes over the socket keeps memory and disk together |
| `DnsApplier.Applier.Apply` | agent/foxguard_agent/dns.py:150-210 | which answer a call gives for all command results; on return the disk holds the zone asked for, on failure it is what it was; a resolver that served the disk goes on serving it |
| `DnsApplier.Applier.Restore` | agent/foxguard_agent/dns.py:212-219 | both files are as they were before, absent ones removed |
| `Agent.Agent.RunOnce` | agent/foxguard_agent/main.py:162-235 | one poll: each digest moves to what is desired exactly when its own part was due and did not fail; what was not due is not touched; the country map is left alone exactly when the proxy was not due or map and stamp were settled; the report tells exactly what failed; the DNS zone remembered is on disk, and so are configuration and managed files of the proxy artefact remembered |
| `Agent.Agent.Polls` | agent/foxguard_agent/main.py:162-235 | over any polls and answers: the remembered DNS zone is on disk, the ruleset digest is the one the ruleset answers alone give and the truth exactly when the last ruleset nftables took went through, configuration and managed files of the remembered proxy artefact are in place, and the whole artefact is exactly while no artefact refused since its install named an unmanaged file of it |
| `Agent.InPlaceExactly` | agent/foxguard_agent/main.py:132-159 | what is kept of the remembered artefact is all of it if and only if nothing unmanaged of it was refused since |
| `Agent.RevocationsLost` | backend/foxguard/proxy/haproxy.py:575 | every artefact carries the revocation list, so it is off the disk exactly from a refusal to the next install |
| `Agent.Agent.PollRuleset` | agent/foxguard_agent/main.py:60-112 | nftables, WireGuard, routes, up to the first failure; the live ruleset changes when nftables accepts it, the digest only when everything does |
| `Agent.Agent.ReconcileDns` | agent/foxguard_agent/main.py:115-129 | fails exactly when the applier, or in a dry run the checker, refuses; a dry run changes nothing |
| `Agent.Agent.ReconcileProxy` | agent/foxguard_agent/main.py:132-159 | the country map first, and it never fails the configuration; map and stamp are left alone exactly when they were settled for these countries, in a dry run too; a warning exactly when the map is then not the one asked for; fails exactly when the applier, or in a dry run the checker, refuses; the disk holds the artefact or is rolled back |
| `Agent.Agent.EnsureGeo` | agent/foxguard_agent/proxy.py:106-137 | what is answered in every case; map and stamp are left alone if and only if they were settled: the codes are no countries, or none are wanted and both files are absent, or the stamp names the wanted ones, or there is no dataset and an empty map without stamp; it warns if and only if the map on disk is then not the one asked for, that is, the countries could not be mapped |
| `Agent.DryRunBuilds` | agent/foxguard_agent/main.py:132-159 | an instance: a dry run that finds no map leaves one behind, built for the country asked for |
| `Agent.TruthfulAfter` | agent/foxguard_agent/main.py:60-112 | one poll from any state: one that puts nothing into nftables changes nothing; after one that does the digest is the truth if and only if everything went through or nothing was remembered before |
| `Agent.TruthfulExactly` | agent/foxguard_agent/main.py:60-112 | after any polls the remembered ruleset is the one nftables holds if and only if the last ruleset nftables took went through or nothing was remembered before it, or none was taken and it was true at the start |
| `Agent.DigestCanLie` | agent/foxguard_agent/main.py:60-112 | forward, half of it, and back: the digest is the first ruleset while nftables holds the second |
| `Agent.InPlaceAfterRefusal` | agent/foxguard_agent/main.py:132-159 | after a refused proxy configuration the remembered one is still on disk if and only if the two share no unmanaged file |
| `Agent.RefusalForgetsRevocations` | agent/foxguard_agent/main.py:132-159 | so with revocations in both the proxy digest no longer says what is on disk |
| `Routes.Router.Apply` | agent/foxguard_agent/routes.py:223-271 | table, record and problems after a call, to the last route, for all answers of `ip`; without our own addresses nothing is changed |
| `Routes.Router.Plan` | agent/foxguard_agent/routes.py:191-221 | what is acceptable and not recorded is added, what is recorded and no longer wanted is removed, the rest is refused; unknown local addresses refuse everything |
| `Routes.Sift` | agent/foxguard_agent/routes.py:208-217 | the loop keeps exactly the acceptable networks, in order, and counts the rest |
| `Routes.Router.Install` | agent/foxguard_agent/routes.py:247-267 | added are exactly the networks nobody routes and `ip` does not fail on; each of the others is one problem |
| `Routes.Router.Withdraw` | agent/foxguard_agent/routes.py:236-245 | gone are exactly those routes to withdraw that point into the tunnel and that `ip` does not fail on |
| `Routes.OnlySafeRoutesCome` | agent/foxguard_agent/routes.py:126-149 | a route that comes was asked for, is no default route, holds none of our or the protected addresses, replaces nothing and is recorded |
| `Routes.WantedMeans` | agent/foxguard_agent/routes.py:126-149 | wanted are exactly the networks of the request that pass the guards |
| `Routes.SettledIsStill` | agent/foxguard_agent/routes.py:223-271 | when record and request agree nothing happens, whatever `ip` would answer |
| `Routes.UnhinderedProblems` | agent/foxguard_agent/routes.py:247-267 | and the problems are the refused entries alone if and only if no new network is asked for twice |
| `Routes.Router.ApplyTwice` | agent/foxguard_agent/routes.py:223-271 | once reconciled a second call does nothing, even to routes others changed or removed in between |
| `Routes.Router.Live` | agent/foxguard_agent/routes.py:223-271 | over any polls and foreign changes, with the trace of it: what a poll adds was wanted by that poll, is safe by its addresses and recorded; what a poll takes away was recorded at that moment, pointed into the tunnel and was added by an earlier poll; the networks ever added are exactly those some poll of the trace reports as added |
| `Routes.AskedForTwice` | agent/foxguard_agent/routes.py:247-267 | a free network asked for twice is added once, and the call reports one problem |
| `MissingRoutes.TunnelledExactly` | agent/foxguard_agent/routes.py:191-271 | a wanted network is routed into the tunnel after a call if and only if it was before, or nobody routed it, it was not recorded and `ip` does not fail on it |
| `MissingRoutes.AllTunnelledExactly` | agent/foxguard_agent/routes.py:191-271 | with nothing in the way every wanted network is routed afterwards if and only if every wanted and recorded one was routed into the tunnel before |
| `MissingRoutes.MissingThroughout` | agent/foxguard_agent/routes.py:218-221 | over any polls and foreign changes a route that is recorded and gone stays recorded and gone up to any point if and only if until then no poll left it out and nobody else put it back |
| `MissingRoutes.GoneAndBack` | agent/foxguard_agent/routes.py:218-271 | an instance for every acceptable network: a recorded route that is gone is still recorded and gone after a poll that wants it, and routed into the tunnel after one more that does not and one that does |
| `Geo.EntriesMean` | agent/foxguard_agent/geo.py:248-272 | the map holds an entry for an address and country exactly when the country is wanted and some well-formed row covers the address with it |
| `Geo.CountryMeans` | agent/foxguard_agent/geo.py:248-272 | with consistent rows the longest match answers exactly the country of the address, when wanted |
| `Geo.PartialMapDecides` | backend/foxguard/proxy/model.py:496-522 | a filter over mapped countries decides as with the whole world mapped |
| `Geo.MapServesEveryFilter` | backend/foxguard/proxy/model.py:496-522 | so every geography filter of a specification is decided by the map built for the union of named countries |
| `Geo.GeoCountriesMean` | backend/foxguard/proxy/model.py:497-522 | the countries asked for are those of every geography filter of any service, each once and in code point order, and where all are country codes they are their own normal form |
| `Geo.NormaliseMeans` | agent/foxguard_agent/geo.py:227-232 | blank entries aside, a request is accepted exactly when every entry, trimmed and in capitals, is a country code; wanted are exactly those, each once and in code point order |
| `Text.UppercaseMeans` | agent/foxguard_agent/geo.py:227-232 | small letters become the capitals they stand for, and nothing else changes |
| `Geo.AtMostMeans` | agent/foxguard_agent/geo.py:248-272 | addresses of one family are compared by the first bit in which they differ, those of two families not at all |
| `Geo.StampRoundTrip` | agent/foxguard_agent/geo.py:178-183 | reading the stamp gives back the countries written |
| `Geo.RequestIsNormal` | agent/foxguard_agent/geo.py:227-232 | the sorted codes a specification asks for are their own normal form, so the stamp matches them |
| `Geo.Builder.Build` | agent/foxguard_agent/geo.py:185-222 | which answer a build gives; the map on disk is the one for the wanted countries; both files are left alone if and only if they were settled; with a crash after any file operation the stamp stays honest |
| `Geo.Builder.Write` | agent/foxguard_agent/geo.py:274-289 | cut off anywhere, a stamp that is read is true of the map; uncut, map and stamp are the new ones |
| `Geo.Builder.Forget` | agent/foxguard_agent/geo.py:291-293 | cut off anywhere the stamp stays honest; uncut both files are gone |
| `Geo.Builder.Life` | agent/foxguard_agent/geo.py:185-222 | over any builds, crashes and new datasets the stamp stays honest |
| `LifecycleSafety.NextSound` | backend/foxguard/services/sessions.py:54-113 | every step keeps: sessions belong to user peers, at most one live session each, with the peer's own authentication time, and an active user peer has one |
| `LifecycleSafety.ExactlyOneSession` | backend/foxguard/services/sessions.py:75-113 | from an empty database, over any run, an active user peer has exactly one live session and its authentication time is the peer's |
| `LifecycleSafety.ServersOwnNoSession` | backend/foxguard/api/routes/portal.py:134-247 | over any run no server peer owns a session |
| `LifecycleSafety.StepOfPeer` | backend/foxguard/services/peer_state.py:55-121 | where one step can take one peer: revoked stays, disabled is left only by an administrator's step on it, active is reached only by a server's key, a person's sign-in or an administrator for a server |
| `Lifecycle.AdminTable` | backend/foxguard/services/peer_state.py:55-82 | an administrator may move a peer anywhere, unless it is revoked; that is final |
| `Lifecycle.SelfServiceTable` | backend/foxguard/services/peer_state.py:74-100 | a peer may only make itself active, and only from staging or quarantine |
| `LifecycleSafety.RevokedIsFinal` | backend/foxguard/services/peer_state.py:55-82 | over any run without its deletion a revoked peer stays revoked |
| `LifecycleSafety.DisabledHolds` | backend/foxguard/services/peer_state.py:55-80 | over any run without an administrator's step on it a disabled peer stays disabled |
| `LifecycleSafety.RevokedKeyIsUseless` | backend/foxguard/api/routes/enroll.py:89-110 | a server without a key is not active after any run that neither issues it one nor patches it |
| `LiveSessions.StepKeepsExactly` | backend/foxguard/api/routes/peers.py:455-464 | with every live session at an active peer, any step keeps it so if and only if it is not the committed revocation, with quarantine, of the key of an active user peer |
| `LiveSessions.LiveSessionsExactly` | backend/foxguard/api/routes/peers.py:455-464 | from an empty database live sessions belong to active peers throughout a run if and only if no step of it is such a revocation |
| `LiveSessions.KeyRevocationLeavesSession` | backend/foxguard/api/routes/peers.py:455-464 | the one such step: the peer is quarantined and its session goes on |
| `LiveSessions.AccountDeletionExactly` | backend/foxguard/models.py:576-578 | dropping the sessions of a person's devices with the account keeps the session invariant if and only if none of those devices is active |
| `LiveSessions.AccountDeletionBreaksIt` | backend/foxguard/models.py:576-578 | an active device left without its session breaks the invariant, whatever else there is |
| `ControlPlane.Database.CreatePeer` | backend/foxguard/api/routes/peers.py:139-207 | accepted exactly for a new peer; the peer is in staging, in its groups, without key or sign-in, and nothing else changes |
| `ControlPlane.Database.EnrollPeer` | backend/foxguard/api/routes/enroll.py:65-125 | accepted exactly for a server that has a key, shows it and is neither disabled nor revoked; it is active and enrolled now, and nothing else changes |
| `ControlPlane.Database.SignIn` | backend/foxguard/api/routes/portal.py:203-223 | accepted exactly for a person's peer neither disabled nor revoked; it is active, its live sessions end and one new one carries the expiry by its groups, and nothing else changes |
| `ControlPlane.Database.SignOut` | backend/foxguard/api/routes/portal.py:387-420 | accepted exactly for a person's peer; its live sessions end, from active it goes to quarantine, and nothing else changes |
| `ControlPlane.Database.UpdatePeer` | backend/foxguard/api/routes/peers.py:216-289 | accepted exactly when the peer stays where it is, or is not revoked and no person's peer is made active; it is then in the state and groups asked for, its sessions end if it leaves the active state, and nothing else changes |
| `ControlPlane.Database.CreateKey` | backend/foxguard/api/routes/peers.py:395-439 | accepted exactly for server peers, which then have a key |
| `ControlPlane.Database.RevokeEnrollmentKey` | backend/foxguard/api/routes/peers.py:445-477 | the key is gone, and the peer quarantined if asked and not revoked; its sessions stay, and nothing else changes |
| `ControlPlane.Database.RevokeSessions` | backend/foxguard/services/sessions.py:54-72 | exactly the live sessions of the peer end |
| `ControlPlane.Database.Open` | backend/foxguard/services/sessions.py:75-113 | the earlier sessions end, one new one carries the expiry by the peer's lifetime, and the peer remembers when |
| `ControlPlane.Database.Trigger` | backend/foxguard/services/killswitch.py:115-215 | the loop gives the database of the kill switch as one step, the guard inside it never refusing; affected are exactly the peers in a source state of the mode |
| `ControlPlane.Database.FindExpired` | backend/foxguard/services/expiry.py:105-171 | found are exactly the active user peers never authenticated or past their deadline, each with its live session |
| `ControlPlane.Database.SweepExpired` | backend/foxguard/services/expiry.py:174-218 | the loop gives the database of the sweep as one step |
| `Expiry.LifetimeIsShortest` | backend/foxguard/services/sessions.py:26-42 | the shortest lifetime among the peer's groups, the default only when none has its own |
| `Expiry.JoiningNeverLengthens` | backend/foxguard/services/sessions.py:26-42 | one more group never lengthens a lifetime some group already limits |
| `Expiry.DeadlineOfSession` | backend/foxguard/services/expiry.py:77-102 | for a signed-in person the deadline is the earlier of the stored expiry and what the groups say now |
| `Expiry.SweepIsExact` | backend/foxguard/services/expiry.py:174-218 | a sweep quarantines exactly the active user peers whose session is past its stored or recomputed expiry, and changes nobody else |
| `Expiry.NobodyOutlivesTheirSession` | backend/foxguard/services/expiry.py:174-218 | after a sweep an active user peer has a live session whose stored expiry is still ahead, whatever was done to the groups |
| `Expiry.NobodyOutlivesTheirSignIn` | backend/foxguard/services/expiry.py:174-218 | from a sign-in, over any run without a new sign-in or deletion of the peer, to a sweep: the peer is not active past the expiry computed at the sign-in, whatever happened to groups and lifetimes |
| `Expiry.SweepTwice` | backend/foxguard/services/expiry.py:174-218 | a second sweep at the same moment does nothing |
| `Expiry.SweptRowsAreExpired` | backend/foxguard/services/expiry.py:187-195 | a sweep ends exactly the live sessions of the peers it quarantines, as expired and now, and leaves every other row as it was |
| `KillSwitch.LockdownHolds` | backend/foxguard/services/killswitch.py:20-23 | after a lockdown, over any run without an administrator's step on a peer, it has no access, no place on the interface and no live session |
| `KillSwitch.QuarantineBuysLittle` | backend/foxguard/services/killswitch.py:13-18 | after quarantine mode some single step that is no administrator's brings a peer back if and only if it was neither disabled nor revoked and, for a server, has a key |
| `KillSwitch.QuarantineSilences` | backend/foxguard/services/killswitch.py:9-11 | the specification with its active peers quarantined mirrors the database after quarantine mode, and with it no tunnel packet from or to a peer is forwarded, open connections included |
| `NftLockdown.LockdownWidensExactly` | backend/foxguard/services/killswitch.py:25-41 | the forward chain accepts a packet after lockdown and not before if and only if it is tunnel traffic, not invalid, and either ongoing or a path error with a confined end, or acceptable by networks alone and refused before by confinement or by the rule that decided |
| `NftLockdown.LockdownWidensTheFirewall` | backend/foxguard/services/killswitch.py:25-41 | in particular an open connection of a confined peer, dropped before, is accepted after |
| `NftLockdown.LockdownWidensInputExactly` | backend/foxguard/services/killswitch.py:25-41 | the same for the input chain: exactly what a confined source may not reach and anybody else may |
| `NftLockdown.NewConnectionWidened` | backend/foxguard/services/killswitch.py:69-86 | a valid specification and a new connection of a peer that was never confined: refused by its group before, accepted by a later rule after |
| `RateLimit.RateLimiter.Check` | backend/foxguard/services/ratelimit.py:99-111 | refused exactly when at least the maximum of failures since the last reset lie in the window ending now; told to wait until the oldest of them leaves it, in whole seconds |
| `RateLimit.RateLimiter.Prune` | backend/foxguard/services/ratelimit.py:79-88 | the log left is exactly the failures of the full history that are in the window |
| `RateLimit.RateLimiter.Collect` | backend/foxguard/services/ratelimit.py:90-95 | dropping idle keys changes no answer, now or later |
| `RateLimit.RateLimiter.RecordFailure` | backend/foxguard/services/ratelimit.py:113-117 | the failure joins the history, and the log stays a faithful account of it |
| `RateLimit.RateLimiter.Reset` | backend/foxguard/services/ratelimit.py:119-122 | the failures of the key, and of no other, are forgotten |
| `RateLimit.RateLimiter.Remaining` | backend/foxguard/services/ratelimit.py:124-127 | the failures left before the next check refuses |
| `RateLimit.WaitingIsEnough` | backend/foxguard/services/ratelimit.py:107-111 | a caller told to wait at a spent budget who waits and fails no more is let through |
| `RateLimit.NeverOverBudget` | backend/foxguard/services/ratelimit.py:53-58 | when each failure follows a passed check and at most n attempts are in flight, no window holds more than the maximum plus n minus one |
| `RateLimit.Attempts` | backend/foxguard/services/ratelimit.py:99-122 | the same of the limiter itself: over any calls of at most n attempts at once, each failure after a check that passed, no window holds more than the maximum plus n minus one, attempts under way included |
| `RateLimit.Overrun` | backend/foxguard/services/ratelimit.py:99-117 | the bound is attained for every maximum and every n by calls whose checks all pass |
| `DnsZone.BuildSpec` | backend/foxguard/services/dns.py:96-228 | the loops give the zone of the database: additions in order, grouped by address, then aliases whose target exists |
| `DnsMeaning.ZoneMeans` | backend/foxguard/services/dns.py:96-228 | the zone lists a name under an address exactly when a row leads it there: the gateway, a peer with a label that is neither disabled nor revoked, the portal, an enabled service answering inside, the dashboard, or a record |
| `DnsMeaning.AliasesMean` | backend/foxguard/services/dns.py:183-211 | an alias is in the zone exactly when a record makes its qualified name one for a qualified name the zone leads somewhere |
| `DnsMeaning.ExternalMeans` | backend/foxguard/services/dns.py:147-174 | excused from lying in the zone are exactly the names of the portal, of services and of the dashboard that end in no dot and zone |
| `DnsMeaning.GatewayAnswers` | backend/foxguard/services/dns.py:101-115 | the gateway's address answers first of all to the gateway's own name, whatever is published on it |
| `DnsMeaning.PeerAnswers` | backend/foxguard/services/dns.py:101-130 | a tunnel address answers first to the name of a peer that has it, whatever portal, service or record names it too |
| `DnsMeaning.QualifyMeans` | backend/foxguard/services/dns.py:69-74 | blanks, dots behind and capitals do not count; a name of the zone is left alone and any other gets the zone behind it |
| `Text.StrippedMeans` | backend/foxguard/services/dns.py:69-74 | stripping takes blanks from both ends and all of them |
| `DnsZone.QualifyTwice` | backend/foxguard/services/dns.py:69-74 | qualifying a qualified name changes nothing |
| `DnsZone.ValidateSpec` | backend/foxguard/dns/dnsmasq.py:145-260 | no problem exactly when the zone is valid and the resolver's settings are acceptable: port, cache, hosts path, listeners, reverse pools, upstreams, raw options; every host is looked at, however many are wrong |
| `DnsZone.ValidateCnames` | backend/foxguard/dns/dnsmasq.py:238-257 | no problem exactly when aliases are in the zone, distinct, shadow no host, do not point at themselves and lead to a host name |
| `DnsNarrowing.GroupedMeans` | backend/foxguard/services/dns.py:101-112 | a name is listed under an address exactly when it was added for it, and no address is listed twice |
| `DnsNarrowing.HostsOkMeans` | backend/foxguard/dns/dnsmasq.py:196-236 | the host part validates exactly when every added name may be served and leads to one address per family |
| `DnsNarrowing.ZoneSurvives` | backend/foxguard/services/dns.py:96-228 | a zone that validates still validates whenever only peer states differ and no peer gains a name or starts to serve |
| `DnsNarrowing.ZoneSurvivesMove` | backend/foxguard/services/proxy.py:95-124 | so it survives moving any peers to disabled or revoked, and any named peers to quarantined or staging |
| `DnsRegain.ZoneSurvivesRegaining` | backend/foxguard/services/dns.py:96-228 | a valid zone survives moving any peers to staging, quarantine or active, by a sign-in or an enrolment for one, if and only if each name regained by a peer or a reopened service may be served, nothing else answers it in the same family with another address, no alias in use carries it, and every alias it revives is acceptable |
| `DnsRegain.SigningInCanBreak` | backend/foxguard/services/dns.py:139-228 | an instance: a zone that validates, and does not once a peer signs in and the service behind it reopens under a name a record took |
| `DnsRegain.MovedAdditions` | backend/foxguard/services/dns.py:114-128 | what the zone holds after such a move: what stands, all of it where the move is to active, and the names that peers and, when they become active, services regain |
| `DnsNarrowing.QuarantiningDisabledCanBreak` | backend/foxguard/services/dns.py:66 | quarantining a disabled peer gives it its name back, which a record may have taken: the zone validates before and not after |
| `DnsNarrowing.OneAddressEach` | backend/foxguard/dns/dnsmasq.py:196-236 | in a validated zone a name has one address of each family |
| `DnsNarrowing.OneHop` | backend/foxguard/dns/dnsmasq.py:238-257 | in a validated zone an alias leads to a host name, which is no alias, and each alias is defined once |
| `Policies.ValidateDocument` | backend/foxguard/services/policies.py:198-227 | no problem exactly when version, references, group names and networks of the rules are acceptable |
| `Policies.PolicyStore.ComputeDiff` | backend/foxguard/services/policies.py:230-274 | answers exactly for acceptable documents, with what is created, updated and removed, touching nothing |
| `Policies.PolicyStore.ApplyDocument` | backend/foxguard/services/policies.py:282-339 | the tables after an import; refused, nothing changes; the diff reported is the one of the tables before |
| `Policies.PolicyStore.ExportDocument` | backend/foxguard/services/policies.py:141-153 | every group and rule once, groups by slug, rules by priority and reference |
| `PolicyImport.ExportRestores` | backend/foxguard/services/policies.py:109-153 | an export of consistent tables, each entry written out with every field, is accepted by any database; against the tables it came from its diff is empty and importing it changes nothing; a pruning import of it restores them from any others |
| `PolicyImport.RuleDefaults` | backend/foxguard/services/policies.py:172-187 | every field a rule payload has is kept in its place, source and destination apart; absent ones are its reference for a name, priority 100, enabled, anyone on both sides and any protocol |
| `PolicyImport.GroupDefaults` | backend/foxguard/services/policies.py:162-169 | the same of a group: its slug for a name, a plain group, no internet exit |
| `PolicyImport.ImportSettles` | backend/foxguard/services/policies.py:230-339 | after an import, pruning or not, the diff of the same document is empty if and only if payloads of one slug agree and every group a rule names, on a side of any kind, is left: in the document, or without prune in the database; and after a pruning import the document validates again if and only if it validates on its own |
| `PolicyImport.StrayNameNeverSettles` | backend/foxguard/services/policies.py:198-227 | a document that validates and never settles, pruning or not: a rule for anyone that carries the name of no group |
| `PolicyImport.PruningLosesTheRule` | backend/foxguard/services/policies.py:331-335 | a document that validates and whose only rule a pruning import loses: it names a group only the database has; afterwards the document does not validate any more |
| `PolicyImport.EmptyDiffChangesNothing` | backend/foxguard/services/policies.py:230-339 | where the preview is empty the import changes nothing, pruning or not |
| `PolicyImport.UnmentionedGroup` | backend/foxguard/services/policies.py:282-339 | without prune a group the document does not mention is as it was |
| `PolicyImport.UnmentionedRule` | backend/foxguard/services/policies.py:282-339 | without prune a rule the document does not mention is as it was |
| `PolicyImport.ImportKeepsConsistent` | backend/foxguard/services/policies.py:282-339 | after an import every rule names existing groups |
| `PolicyImport.PruneReplaces` | backend/foxguard/services/policies.py:282-339 | a pruning import of a self-contained document gives the tables the document describes, whatever was there |
| `PolicyImport.ExportIsTheDocument` | backend/foxguard/services/policies.py:141-187 | the export of a pruned import is the normalised document, entry for entry |
| `PolicyImport.SameDocumentSameExport` | backend/foxguard/services/policies.py:141-153 | restoring one document on two gateways gives the same export |
| `WireGuardConfig.InterfaceSection` | agent/foxguard_agent/wireguard.py:58-74 | the line loop gives the interface section as one text; `WireGuardSection.SectionHolds` says what it holds |
| `WireGuardConfig.RenderConfig` | agent/foxguard_agent/wireguard.py:77-85 | the section and one block per peer, by public key |
| `WireGuardConfig.ReadPeerSections` | agent/foxguard_agent/wireguard.py:114-135 | the line loop gives the set of normalised peer blocks |
| `WireGuardConfig.Interface.Sync` | agent/foxguard_agent/wireguard.py:87-111 | skipped exactly when the peer sections agree; otherwise the interface holds the section as it was, private key included, with the blocks of the peers asked for, or is as it was when a command fails |
| `WireGuardRoundTrip.SectionRoundTrip` | agent/foxguard_agent/wireguard.py:58-85 | parsing a rendered configuration gives the interface section it was rendered with, line for line |
| `WireGuardSection.SectionHolds` | agent/foxguard_agent/wireguard.py:58-74 | of a configuration with one interface section, its header in any case, kept are exactly that header and the lines up to the next section, trimmed on the right, in order |
| `WireGuardSection.LineStays` | agent/foxguard_agent/wireguard.py:87-111 | after any sync, for any peers and any answers of `wg`, every line of the interface section, a private key for one, is still a line of it |
| `WireGuardSection.PrivateKeyKept` | agent/foxguard_agent/wireguard.py:58-74 | the lines `wg showconf` prints of an interface with a key, a port and a peer: the private key is among those kept, for every key |
| `WireGuardSection.RenderMeans` | agent/foxguard_agent/wireguard.py:77-85 | a rendered file is the section and the block of every peer, each once, by public key in code point order |
| `WireGuardSection.BlockMeans` | agent/foxguard_agent/wireguard.py:77-85 | a block is a blank line, the header, the public key and the allowed addresses with a comma and a blank between, in this order |
| `WireGuardSection.PeerHeadersMean` | agent/foxguard_agent/wireguard.py:114-135 | a peer section begins with its header in any case |
| `WireGuardPeers.RenderedSections` | agent/foxguard_agent/wireguard.py:114-135 | its peer sections are exactly those of the requested peers |
| `WireGuardPeers.SkippedExactlyWhenSame` | agent/foxguard_agent/wireguard.py:87-111 | against a rendered configuration a sync is skipped if and only if the two sets of peers are the same |
| `WireGuardPeers.SyncTwice` | agent/foxguard_agent/wireguard.py:87-111 | a second sync of the same peers is skipped and changes nothing, whatever `wg syncconf` would say; the interface section never changes |

## Left out

- FastAPI, SQLAlchemy, migrations, audit records and the dashboard: plumbing around the steps modelled here; a route is one step that commits or is rolled back.
- Real nft, HAProxy, dnsmasq, WireGuard and systemd: they appear only by the contracts listed above.
- The overlap of elements in an nft interval set, and the text of comments and log lines: they carry no verdict.
- Quarantine of networks behind a carrying peer: only tunnel addresses enter the quarantine set, so narrowing is stated for addresses and not for carried networks.
- The HTTP parts of HAProxy besides rules, access lists and backend choice: binds, timeouts, error pages and the text of extra options.
- Host names compare exactly here; HAProxy compares them without regard to case.
- How HAProxy approximates a sliding window, and the size and expiry of a stick table: a count is any number that does not shrink with a longer period.
- The contents of error pages and the conversion of line breaks when they are read back.
- Password, TOTP and OIDC checks, password hashes and tokens: they enter a step as whether they succeeded.
- Digests are the artefacts themselves, that is, injective.
- HaproxyIdentity.IdentityIsOurs: says that the user header is a verified subject only for doors where sign-on is the only authenticator, because elsewhere the code sets it from an unverified cookie.
- RateLimit.RateLimiter.Collect: the lock is one step per call, so interleavings inside a call are not modelled; calls of concurrent attempts interleave freely in `RateLimit.NeverOverBudget`.
- File writes that fail: they return here, as does every command.
- ProxyApplier.Applier.Apply: does not model symbolic links in the maps directory.
- Agent.Agent.EnsureGeo: says when there is a warning, not its text; the header lines of the map file are not modelled, so an empty map written again for other countries counts as left alone although its header changes.
- Geo.Builder.Build: the same of an empty map without a stamp, which is rewritten whenever there is no dataset.
- Agent.Agent.PollRuleset: takes the outcomes of nftables, WireGuard and routes as answers; `Routes` and `WireGuardConfig` model those parts.
- Geo.EntriesMean: `summarize_address_range` is any function that covers exactly the range.
- Account deletion is not a step of a run; `LiveSessions.AccountDeletionExactly` says why.
- DnsZone.ValidateSpec: says when there is a problem, not the wording of each; upstreams enter as parsed.
- HaproxyValidation.ValidateSpec: says when there is a problem, not which of several comes first.
- Policies.PolicyStore.ApplyDocument: database collation and check constraints on imported values are not modelled.
- Letter case outside ASCII, and line breaks other than `\n` in the WireGuard configuration.
- Iteration order over Python dicts and sets, where the outcome does not depend on it: the models take an arbitrary order.
- Lowest free tunnel address, listen port allocation, endpoint joining, allowed-IP computation and the TOTP replay guard: easy members.
