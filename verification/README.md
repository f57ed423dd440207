# Verification of the proxy's stateful core

The program is a transparent proxy. Its IN side takes the client's TCP streams and datagrams, gives DNS
names fake addresses, routes each connection by rules, and carries it through a tunnel; its OUT side takes
the streams off the tunnels. IN and OUT find each other over Redis. This project models the parts of it
that keep state, and proves what holds of them over whole runs. `dafny verify dfyconfig.toml` checks it.

| part | files | form |
|---|---|---|
| fake-IP allocator and resolver | `FakeIpTable`, `FakeIpNets`, `FakeIpRuns`, `FakeIpDns` | row table, runs of assignments with their clock readings; `FakeAuthority` and `FakeIpResolver` as classes over one database |
| routing rules and the rule cache | `Rules`, `RuleCache`, `Matching`, `RuleMeaning`, `PrefixStability`, `MatchStability`, `Router` | `Router` as a class; the grouping loop against a definition of the cache; the nested folds of the match in closed form; what registrations leave as it was |
| tunnel map, label index, selection | `Selection`, `SelectionMeaning`, `Rotation`, `TunnelManager` | `TunnelManager` as a class; index and selection loops against functions, and these against a search over the tunnels |
| OUT accept loops and permits | `OutHandlers`, `OutLoops` | a class for the set of active ids; the loops as a step system |
| match protocol over Redis, and its mailbox | `MatchProtocol`, `MatchPairing`, `MatchLeases`, `MatchOrder`, `MatchQueues`, `MatchMailbox`, `MatchLoss` | a step system: any number of IN and OUT calls, keys with a time to live, channels that may lose messages, time |
| UDP address translation | `UdpNat`, `UdpLife`, `UdpRelay`, `UdpForwarder` | a step system over all interleavings; `UdpForwarder` and `Association` as classes that take its steps in place |
| tunnel header, sniffing, HTTP/2 bodies | `TunnelHeader`, `Utf8Text`, `HeaderReader`, `Sniffing`, `Http2Body` | imperative readers and writers over chunked streams against functions on bytes |

`Prelude`, `Ids`, `Bytes`, `Addresses` and `Seqs` hold shared types, big-endian and UTF-8 bytes, stable sorting and
deduplication.

## Reading the results

Hash maps are iterated in an arbitrary order (`Seqs.HashOrder`), SQL picks an arbitrary row where the query
leaves it open, and every critical section that runs under one guard is one step. I/O outcomes, clock
readings, routing answers and what the TLS parser says are inputs, and the theorems hold for all of them.

What a step or a function answers is also stated without the definition that computes it: the leases, locks,
queues and steps of the match protocol, the accept loops and the relayed datagrams by the steps taken and
their clocks, rules and label groups by the rules in force, the index and the selection by the tunnels' fields, fake
addresses and headers octet by octet.

Some properties one would expect turn out to need a condition. Each is stated with the condition under
which it holds, exactly where possible, and with a run or input on which it fails:

- A row of the fake-IP table serves its name to the end of a run if and only if no later call recycles it, and
  a call can recycle it if and only if its own key has no row, the row's last lease has run out by the clock
  reading of that call, and no other row's ran out earlier (`FakeIpRuns.LeaseGuarantee`,
  `FakeIpRuns.LosableExactly`). `now` is read before the mutex is taken, so with readings out of order this
  can happen inside seven days (`FakeIpRuns.ReorderedClockBreaksLease`).
- The IPv6 resolver reads only the low 64 bits of the host part (`FakeIpRuns.SameFakeId`,
  `FakeIpRuns.AliasedAddresses`).
- Fallbacks are exclusive except exactly when a fallback stands before the matching rules of its own group: on
  an updated cache that takes a rule of priority i64::MAX and no lower match (`Matching.FallbackExclusivity`,
  `Matching.MaxPriorityMixes`), on the one ungrouped list the router is built with any priority will do
  (`Matching.SeedExclusivity`, `Matching.UngroupedSeedMixes`).
- Registering or unregistering an OUT whose rules lie above p leaves the leading groups as they are up to the
  order inside each group. That order is the hash map's: no order can change it if and only if no priority up
  to p holds rules of two other OUTs (`PrefixStability.RulesFixedExactly`), for the labels of one connection,
  rules of two other OUTs that match it (`PrefixStability.LabelsFixedExactly`). Deduplicated, as `match` returns
  them, they are fixed then too, and only then where the matching IN rules up to p name no other OUT by its id
  (`MatchStability.MatchFixedExactly`); IN rules that list two OUTs in both orders hide the hash order
  (`MatchStability.DeduplicationHidesOrder`). An OUT without any rules can thus change which of two others is
  tried first (`PrefixStability.HashOrderMovesLabels`).
- Deduplicating the label groups can change the tag of the final fall-through to direct, and nothing else: if
  and only if the ANY group that is new last and the one that comes last carry different last ANY tags
  (`SelectionMeaning.DeduplicationKeepsSelection`, `SelectionMeaning.DeduplicationCanChangeTag`).
- The one-slot mailbox loses a stream exactly when anything but its own waiter reaches the slot first
  (`MatchMailbox.MailboxDelivers`, `MatchLoss.SecondStreamDisplacesFirst`).
- Rotation through a label uses two top-priority tunnels equally often, up to one, if and only if each lists the
  label once (`Rotation.RotationFairExactly`).
- `connections` bounds the tunnels of one accept loop that hold a permit; a tunnel that reaches its lifetime
  limit of 4096 streams gives its permit back and stays in the tunnel map. An OUT can have more tunnels with a
  permit than `connections` while a loop serves it if and only if its earlier loops left one
  (`OutHandlers.CanExceedExactly`, `OutHandlers.ReturningOutExceeds`).
- The UDP receive loop stops when a datagram cannot be written, its association has ended and is not yet
  removed, or the socket of a new association is refused; when receiving fails; when resolving a new original
  panics; and when a task joined with it fails. Otherwise it goes on (`UdpNat.LoopAliveExactly`,
  `UdpNat.LateDatagramStopsLoop`).
- Forwarding keeps the two UDP maps inverse only because the receive loop asks for the associated
  destination first (`UdpNat.SendKeepsInverse`).
- A header with other option bits set than the top one is read but never written
  (`TunnelHeader.HeaderRebuilt`, `TunnelHeader.UnwrittenOption`).
- Cuts of one stream into reads that end sniffing on its bytes end it alike if the TLS parser stays silent on
  the first byte of a record alone, and need not otherwise (`Sniffing.SameNameForEveryCut`,
  `Sniffing.EarlyAnswerDiffers`).
- An empty DATA frame before the end of a body looks like its end (`Http2Body.CopyIsWhole`,
  `Http2Body.EmptyFrameCutsCopy`).

## Model

| member | source | states |
|---|---|---|
| FakeIpTable.ApplyKeepsWellFormed | src/lib/in/fake_ip_dns/fake_authority.rs:83-147 | one assignment keeps ids 1..n, (type, name) unique and octets of the right length, and the row whose id it answers holds exactly the call's key, address and expiry |
| FakeIpTable.RunWellFormed | src/lib/in/fake_ip_dns/fake_authority.rs:83-147 | so in every run from the empty table, by SELECT-then-write under the mutex and without the unique index |
| FakeIpRuns.RowsShowLastCalls | src/lib/in/fake_ip_dns/fake_authority.rs:85-147 | every row shows the last call of the run for its key |
| FakeIpRuns.RecycledExactly | src/lib/in/fake_ip_dns/fake_authority.rs:109-131 | a call may recycle a row if and only if its own key has no row, the lease of the row's key has run out, and no other key's with a row ran out earlier, all in terms of the calls so far |
| FakeIpRuns.LosableExactly | src/lib/in/fake_ip_dns/fake_authority.rs:85-147 | while a row serves, the next call may take it from its key if and only if that holds |
| FakeIpRuns.ServesExactly | src/lib/in/fake_ip_dns/fake_authority.rs:85-147 | a row serves from its call to the end of the run if and only if no later call recycles it |
| FakeIpRuns.RowLease | src/lib/in/fake_ip_dns/fake_authority.rs:85-147 | while no later call reads a clock past a lease of the key, the row handed out keeps the key and follows its latest call |
| FakeIpRuns.LeaseGuarantee | src/lib/in/fake_ip_dns/fake_authority.rs:73-147 | the row of a call serves to the end exactly when never recycled, which holds when no later call exposes the key, as within the lease; while it serves, its address resolves to the name it was given for, trailing dots trimmed, with the real address last assigned to that (type, name) |
| FakeIpRuns.MonotoneWithinLease | src/lib/in/fake_ip_dns/fake_authority.rs:31 | with a clock that never goes back, seven days from the call is within the lease |
| FakeIpRuns.NoSharing | src/lib/in/fake_ip_dns/fake_authority.rs:109-131 | two different keys get the same id only when some call in between read a clock past a lease of the first; with ordered clocks, only when the first one's lease has run out |
| FakeIpRuns.SevenDays | src/lib/in/fake_ip_dns/fake_authority.rs:31 | with an ordered clock no other key gets a row within 604,800,000 milliseconds of its call |
| FakeIpRuns.AfterSevenDays | src/lib/in/fake_ip_dns/fake_authority.rs:109-131 | and a new key gets an only row by recycling if and only if that long has passed, else by an insert |
| FakeIpRuns.ReorderedClockBreaksLease | src/lib/in/fake_ip_dns/fake_authority.rs:74-83 | a run in which clock readings reach the mutex out of order and a row is recycled inside its lease |
| FakeIpRuns.LiveIsWindow | src/lib/in/fake_ip_dns/fake_authority.rs:81-131 | the unexpired rows are exactly the keys assigned in the last seven days |
| FakeIpRuns.SizeIsPeak | src/lib/in/fake_ip_dns/fake_authority.rs:109-147 | the table is exactly as large as the most keys any seven days of the run needed |
| FakeIpRuns.Capacity | src/lib/in/fake_ip_dns/fake_authority.rs:109-160 | all ids fit the IPv4 net if and only if no seven days needed more keys than it has addresses |
| FakeIpRuns.AddressesInNet | src/constants.rs:25-27 | within that capacity every IPv4 answer has the first octets 198 and 18 or 19, its addition does not overflow, and the resolver recovers the id |
| FakeIpNets.ConvertedIsAddress | src/lib/in/fake_ip_dns/fake_authority.rs:149-160 | octet by octet, the IPv4 answer for an id of the net is 198.18.0.0 plus the id and the IPv6 one 2001:db8:: followed by the id in eight octets |
| FakeIpNets.FakeV4Exactly | src/lib/in/fake_ip_dns/fake_ip_resolver.rs:46-55 | an IPv4 address is taken for fake if and only if its first octets are 198 and 18 or 19, and its id is what the others say |
| FakeIpNets.FakeV6Exactly | src/lib/in/fake_ip_dns/fake_ip_resolver.rs:46-55 | an IPv6 address if and only if its first octets are 20:01:0d:b8, and its id is the last eight read as a signed number |
| FakeIpRuns.AddressRoundTrip | src/lib/in/fake_ip_dns/fake_authority.rs:149-160 | for ids in range the resolver's subtraction undoes the allocator's addition, in both families |
| FakeIpRuns.OctetsRoundTrip | src/lib/in/fake_ip_dns/fake_ip_resolver.rs:74-82 | the stored octets decode to the address they were made from |
| FakeIpRuns.SameFakeId | src/lib/in/fake_ip_dns/fake_ip_resolver.rs:46-55 | two fake IPv6 addresses stand for the same id if and only if they agree modulo 2^64; two IPv4 ones only if equal |
| FakeIpRuns.AliasedAddresses | src/lib/in/fake_ip_dns/fake_ip_resolver.rs:46-55 | two different addresses of the IPv6 net that always resolve alike |
| FakeIpRuns.ResolveNeverPanics | src/lib/in/fake_ip_dns/fake_ip_resolver.rs:58-95 | after any run no lookup meets octets of the wrong length, an address outside the nets is passed through, and a row is found exactly for ids 1..n of the address's type |
| FakeIpRuns.TrimDotsStops | src/lib/in/fake_ip_dns/fake_ip_resolver.rs:72 | exactly the trailing dots go |
| FakeIpDns.Database.SelectExpired | src/lib/in/fake_ip_dns/fake_authority.rs:112-119 | a row that expired longest ago, and none only when no row has expired |
| FakeIpDns.FakeAuthority.AssignFakeIp | src/lib/in/fake_ip_dns/fake_authority.rs:73-160 | extends the run by exactly this call, with the statement its SELECTs allow, and answers the address of the id that run assigns, octet by octet |
| FakeIpDns.FakeIpResolver.ResolveIp | src/lib/in/fake_ip_dns/fake_ip_resolver.rs:34-95 | answers as specified, and for the address of a call whose row no later call has taken with the name it was assigned for |
| Seqs.SortIsStable | src/lib/route/router.rs:135 | sorting by a key keeps the order of the elements of each key |
| Seqs.UniqueDistinct | src/lib/route/router.rs:73-76 | deduplication leaves no repeats |
| Rules.DomainMatchIsLabelSuffix | src/lib/route/rule.rs:180-185 | the string test holds if and only if the pattern's dot-separated labels end the domain's, for all strings |
| RuleMeaning.NegationFlips | src/lib/route/rule.rs:77-108 | for a connection that has what the condition looks at exactly one of a rule and its negation matches, else neither does |
| RuleMeaning.AnswersWithLabels | src/lib/route/rule.rs:260-273 | a matching rule answers with its labels whatever matched before, a fallback unless something did |
| RuleMeaning.DomainRuleMatches | src/lib/route/rule.rs:173-205 | a domain rule matches if and only if the labels of one of its domains end those of the name |
| RuleMeaning.DomainExamples | src/lib/route/rule.rs:180-185 | a domain matches itself and what is below it, and not a name that only ends in the same letters |
| RuleMeaning.AddressRuleMatches | src/lib/route/rule.rs:122-155 | an address rule matches if and only if its nets hold the address and its ports the port, a list left out constraining nothing |
| RuleMeaning.GeoIpRuleMatches | src/lib/route/rule.rs:77-108 | a region rule matches if and only if its codes and those of the address meet |
| RuleMeaning.DomainPatternRuleMatches | src/lib/route/rule.rs:220-247 | a pattern rule matches if and only if one of its patterns accepts the name |
| RuleCache.InForce | src/lib/route/router.rs:124-133 | in any hash order the rules in force are those of the IN side, first, and of every OUT |
| RuleCache.GroupRules | src/lib/route/router.rs:135-150 | sorting and the grouping loop compute the cache as defined: non-empty groups, one per priority, ascending, each its rules in source order |
| RuleCache.CacheUnique | src/lib/route/router.rs:124-155 | the definition admits one cache |
| RuleCache.CachePermutes | src/lib/route/router.rs:124-155 | the cache holds every rule in force as often as it occurs and nothing else |
| RuleCache.HashOrderPermutesGroups | src/lib/route/router.rs:128-133 | another hash order gives the same priorities and permutes rules only inside groups |
| RuleCache.CachesAgree | src/lib/route/router.rs:124-155 | sources that agree on all priorities up to p have caches with the same groups up to p |
| Matching.GroupShape | src/lib/route/router.rs:49-65 | the inner fold in closed form: a leading fallback only where nothing matched before, then what the plain rules emit |
| Matching.MatchShape | src/lib/route/router.rs:36-77 | the match on an updated cache in closed form |
| Matching.FallbackExclusivity | src/lib/route/router.rs:44-77 | a fallback's labels appear if and only if nothing else matches, and then alone and from one fallback, exactly when no plain rule of priority i64::MAX mixes in |
| Matching.NotMixedBelowMax | src/lib/route/rule.rs:251-273 | priorities below i64::MAX never mix in |
| Matching.InFallbackWins | src/lib/route/router.rs:128-133 | an IN fallback beats every OUT fallback in any hash order |
| Matching.MaxPriorityMixes | src/lib/route/rule.rs:251-273 | a rule configured with i64::MAX after a fallback does mix with it |
| Matching.SeedExclusivity | src/lib/route/router.rs:29-77 | on the cache the router starts with, exclusivity fails exactly when something matches and the first rule that would speak is a fallback |
| Matching.UngroupedSeedMixes | src/lib/route/router.rs:29-33 | that happens for ordinary priorities, for which it never does after an update |
| RuleMeaning.MatchMeaning | src/lib/route/router.rs:36-77 | on an updated cache each group returned holds the labels and tags of the matching rules of one priority, priorities rising, and none is left out, when any matches and no fallback mixes in; when none matches, those of the first fallback |
| RuleMeaning.SeedMeaning | src/lib/route/router.rs:29-77 | before the first update, the labels of all matching rules in one group, or those of the first fallback |
| PrefixStability.PrefixStable | src/lib/route/router.rs:36-77 | caches that agree up to p give every connection the same leading label groups |
| PrefixStability.LeadPermuted | src/lib/route/router.rs:79-155 | for any two hash orders, changing an OUT whose rules lie above p leaves the same priorities up to p, each group a permutation |
| PrefixStability.RulesFixedExactly | src/lib/route/router.rs:124-155 | no pair of hash orders changes the leading groups if and only if no priority up to p holds rules of two other OUTs |
| PrefixStability.LabelsFixedExactly | src/lib/route/router.rs:36-72 | no pair of hash orders changes a connection's leading label groups if and only if no priority up to p holds rules of two other OUTs that match it |
| PrefixStability.OutChangeKeepsPrefix | src/lib/route/router.rs:36-155 | so registering or unregistering such an OUT leaves every connection's leading label groups up to the order inside each, and exactly where no two other OUTs match at one priority |
| PrefixStability.HashOrderMovesLabels | src/lib/route/router.rs:128-133 | registering an OUT without rules changes which of two others comes first |
| MatchStability.MatchFixedExactly | src/lib/route/router.rs:36-77 | so are the deduplicated groups `match` returns, if no priority up to p holds rules of two other OUTs that match the connection, and only if, where matching IN rules up to p name no other OUT by its id |
| MatchStability.DeduplicationHidesOrder | src/lib/route/router.rs:73-76 | IN rules that name two OUTs in both orders, for which two OUTs match at one priority and what `match` returns is fixed all the same |
| Routers.Router.Match | src/lib/route/router.rs:36-77 | label groups without repeats; told by the rules in force, those of the matching rules by priority, in one group before the first update, or of the first fallback, with fallbacks exclusive exactly when they do not mix |
| Routers.Router.RegisterTunnel | src/lib/route/router.rs:79-102 | the OUT has the latest registration's rules, each with its own priority where it has one and else the registration's, and one tunnel more; the cache is that of the rules in force, and below this OUT's rules it is the old one up to the order inside groups |
| Routers.Router.UnregisterTunnel | src/lib/route/router.rs:104-122 | the OUT goes with its last tunnel, an unknown OUT changes nothing; the cache likewise |
| Selection.UpdateLabelToTunnelsMap | src/lib/in/tunnel_manager.rs:236-261 | the entry of a label holds exactly the tunnels that list it, or for which it is PROXY or the id of their OUT, each as often as that, by rising priority and stably; no other label has one |
| Selection.TopsAreBest | src/lib/in/tunnel_manager.rs:274-292 | the run of top-priority active tunnels under a label is exactly its active carriers of least priority value |
| Selection.FromIndexIsBest | src/lib/in/tunnel_manager.rs:274-295 | a tunnel is picked under a label if and only if an active one carries it, and it is a best one |
| Selection.ScanGroup | src/lib/in/tunnel_manager.rs:78-109 | the inner loop returns at the first DIRECT or custom label with an active tunnel, else knows the first PROXY/ANY and the last ANY |
| Selection.SelectLoop | src/lib/in/tunnel_manager.rs:71-127 | the loop with its early returns selects what the first settling group settles on, else the last ANY |
| SelectionMeaning.SelectRefines | src/lib/in/tunnel_manager.rs:67-127 | selection through the index is the search over the tunnels' own labels, OUTs and priorities, for PROXY and ANY written out |
| SelectionMeaning.SelectNone | src/lib/in/tunnel_manager.rs:67-127 | nothing is selected if and only if no group offers a way out and no label is ANY |
| SelectionMeaning.DeduplicationKeepsSelection | src/lib/route/router.rs:73-76 | selecting over deduplicated groups gives the same tunnel, and the same tag if and only if a group settles or the ANY group new last and the last ANY group end in the same tag |
| SelectionMeaning.LastNewAnyAt | src/lib/route/router.rs:73-76 | the last ANY group after deduplication is the one whose first occurrence comes last |
| SelectionMeaning.DeduplicationCanChangeTag | src/lib/in/tunnel_manager.rs:122-124 | groups for which they do |
| Rotation.TopsDistinct | src/lib/in/tunnel_manager.rs:242-256 | a label listed once per tunnel rotates over distinct tunnels |
| Rotation.RotationFair | src/lib/in/tunnel_manager.rs:278-294 | over any number of consecutive selections the use counts of two top-priority active tunnels that list the label once differ by at most one, whatever the others list, and as many selections as there are places use each once |
| Rotation.RotationFairExactly | src/lib/in/tunnel_manager.rs:242-294 | they differ by at most one over every stretch of selections if and only if both list the label once |
| TunnelManagers.OpenCoherent | src/lib/in/tunnel_manager.rs:181-196 | opening keeps the router's tunnel sets equal to the tunnel map grouped by OUT, none empty |
| TunnelManagers.CloseCoherent | src/lib/in/tunnel_manager.rs:209-220 | and so does closing |
| TunnelManagers.TunnelManager.Open | src/lib/in/tunnel_manager.rs:181-196 | tunnel map, index and router agree again, with exactly this tunnel and its OUT's rules added |
| TunnelManagers.TunnelManager.Close | src/lib/in/tunnel_manager.rs:204-221 | they agree again without it, and the OUT's rules stay exactly while it has a tunnel |
| TunnelManagers.TunnelManager.SelectTunnel | src/lib/in/tunnel_manager.rs:67-127 | selects as the search over the tunnels in force and their fields says, an active one of them, and advances the counter |
| TunnelManagers.TunnelManager.OutLabelsAreIndexed | src/lib/in/tunnel_manager.rs:181-261 | every label a cached OUT rule emits has an entry in the index that lists a tunnel of that OUT |
| OutHandlers.ActiveOuts.AcceptOut | src/lib/match_server/redis_match_server.rs:66-120 | whatever others do to the set between its turns, accepts the first scanned, else first announced, id not active when its lock is taken, by a claim step of the accept loops; otherwise its last turn changes nothing |
| OutHandlers.ActiveOuts.Deactivate | src/lib/match_server/redis_match_server.rs:148-156 | takes the step of a loop that finds its OUT gone: that id, of that match name, and no other |
| OutHandlers.SingleHandler | src/lib/match_server/redis_match_server.rs:74-161 | in every run an id is active if and only if a loop can still call `match_out` for it, and then exactly one |
| OutLoops.ServesExactly | src/lib/in/tunnel_manager.rs:157-234 | a loop serves an OUT if and only if it claimed it and has not found it gone, whatever failed or was accepted since |
| OutLoops.ActiveExactly | src/lib/match_server/redis_match_server.rs:66-161 | an OUT is active if and only if some loop claimed it and has not found it gone |
| OutLoops.FailedAcceptGoesOn | src/lib/in/tunnel_manager.rs:228-231 | after a failed accept the loop takes a permit again, with nothing else changed |
| OutLoops.HeldExactly | src/lib/in/tunnel_manager.rs:174-176 | a tunnel holds a permit of the loop that accepted it until it is released |
| OutHandlers.PermitsConserved | src/lib/in/tunnel_manager.rs:157-234 | a loop's free permits, its own and those its tunnels hold always add up to `connections`; it is stuck if and only if its tunnels hold them all |
| OutHandlers.OutWithinConnections | src/lib/in/tunnel_manager.rs:167-176 | in every run an OUT has at most its loop's `connections` tunnels with a permit if and only if its other loops left no more of them than the permits this loop has not given out |
| OutHandlers.CanExceedExactly | src/lib/in/tunnel_manager.rs:157-234 | a run can go on to where the OUT has more, with the loop still serving, if and only if earlier loops left a tunnel with a permit |
| OutHandlers.ReturningOutExceeds | src/lib/in/tunnel_manager.rs:167-170 | a run in which an OUT that left and came back has more tunnels with a permit than `connections` |
| MatchPairing.StepKeepsInv | src/lib/match_server/redis_match_server.rs:139-405 | every step of every call keeps the protocol invariant |
| MatchPairing.Pairing | src/lib/match_server/redis_match_server.rs:139-405 | in every interleaving a tunnel id a `match_out` ever returned, even one that then failed to get its stream, was made by exactly one `match_in`, which took this call's lock, read its data, is the OUT asked for, and returned the id too or failed on an error seen after its reply had gone out; no other `match_out` ever returned it |
| MatchPairing.LockSeparation | src/lib/match_server/redis_match_server.rs:340-357 | two OUT calls that took the lock of one match key took it at least five seconds apart |
| MatchPairing.RenewalNeverCutsIn | src/lib/match_server/redis_match_server.rs:312-384 | a call ended by its renewal never took a lock, and between lock and reply the renewal has no step |
| MatchLeases.RenewalExactly | src/lib/match_server/redis_match_server.rs:312-324 | from the steps of any run and their clocks: a renewal ends its call if and only if no SET and no renewal in time wrote the OUT's key less than five seconds before, else the call waits on |
| MatchLeases.CheckExactly | src/lib/match_server/redis_match_server.rs:148-161 | the check finds the OUT active if and only if one did |
| MatchLeases.InTimeNeverExpires | src/lib/match_server/redis_match_server.rs:295-324 | a call that renews less than five seconds after each set or renewal of its own never loses its lease |
| MatchLeases.GetExactly | src/lib/match_server/redis_match_server.rs:359-361 | the GET under the lock finds the data the IN call was made with if and only if its SET or a renewal in time came less than thirty seconds before, else the call fails |
| MatchLeases.InTimeDataStays | src/lib/match_server/redis_match_server.rs:182-215 | data renewed in time is there if and only if its SET or some renewal is less than thirty seconds back |
| MatchLeases.TryLockExactly | src/lib/match_server/redis_match_server.rs:338-357 | the SET NX misses if and only if some call took this lock less than five seconds before; then the call waits for the next announcement, else it goes on |
| MatchOrder.AnnouncerOrder | src/lib/match_server/redis_match_server.rs:286-328 | what a running call's announcing task can do next, exactly, from its latest steps: set and publish the key once, then renew it again and again, under the connection's mutex |
| MatchOrder.MatcherOrder | src/lib/match_server/redis_match_server.rs:330-400 | what its matching task can do next, exactly: announcement, mutex, lock, data, reply, starting over only when the lock was taken |
| MatchOrder.RunsExactly | src/lib/match_server/redis_match_server.rs:286-405 | a call runs until it replies, finds its key or the data gone, or a command of it fails |
| MatchOrder.InOrder | src/lib/match_server/redis_match_server.rs:139-232 | what a `match_out` call and its caller can do next, exactly |
| MatchQueues.ReceivesFirst | src/lib/match_server/redis_match_server.rs:170-178 | `match_out` returns the first reply that reached it while it listened and was not lost |
| MatchQueues.PopsFirst | src/lib/match_server/redis_match_server.rs:330-336 | a `match_in` call takes the announcements to its OUT since it subscribed in their order, those lost left out |
| MatchQueues.PublishExactly | src/lib/match_server/redis_match_server.rs:363-400 | publishing names the tunnel as this call's, which returns unless it saw an error |
| MatchPairing.StreamPairing | src/lib/tunnel/http2/plug_http2_tunnel_provider.rs:151-165 | the TCP stream an IN call ends up with is that of the OUT call it is paired with, and no other IN call has it |
| MatchMailbox.StepFate | src/lib/tunnel/http2/plug_http2_tunnel_provider.rs:135-165 | what each step does to a stream in the slot |
| MatchMailbox.MailboxDelivers | src/lib/tunnel/http2/plug_http2_tunnel_provider.rs:135-165 | a stream reaches its waiter if and only if the first step on its slot is that waiter's; otherwise it is lost for good |
| MatchLoss.SecondStreamDisplacesFirst | src/lib/tunnel/http2/plug_http2_tunnel_provider.rs:135-165 | a run of two matched pairs of one provider that loses the first stream while its IN call waits for it |
| MatchLoss.AnnouncementReaches | src/lib/match_server/redis_match_server.rs:205-207 | an announcement is queued at every running call of its OUT and at no other |
| MatchLoss.MatchCompletes | src/lib/match_server/redis_match_server.rs:139-405 | after any run a new OUT and a new IN call can be matched and joined by their stream, in no time |
| UdpNat.SendKeepsInverse | src/lib/in/udp_forwarder.rs:264-285 | a bare send keeps the maps inverse if and only if no other real destination is known by this original |
| UdpNat.StepKeepsInv | src/lib/in/udp_forwarder.rs:79-145 | every step keeps maps, history, sockets and the pending lookup consistent |
| UdpNat.TranslationConsistent | src/lib/in/transparent_proxy.rs:273-304 | in every run each association's maps are one-sided inverses, and an original goes to one real destination as long as the association lives |
| UdpNat.ReplyPresented | src/lib/in/udp_forwarder.rs:202-226 | a reply comes from the latest original used to reach its sender, else from the sender, through one shared socket bound there |
| UdpNat.ThereAndBack | src/lib/in/udp_forwarder.rs:202-285 | after a datagram to an original, replies from its destination come from that original until the client reaches it by another or the association is removed |
| UdpNat.AssociatedSkipsRouting | src/lib/in/udp_forwarder.rs:127-147 | an original already used goes where its first datagram went, whatever routing would say |
| UdpNat.ExpireKeepsInv | src/lib/in/udp_forwarder.rs:97-105 | removal drops no socket that another association still holds |
| UdpLife.PresentExactly | src/lib/in/udp_forwarder.rs:86-118 | in every run a source has an association if and only if one was made by a send for it and not removed since |
| UdpLife.EndedExactly | src/lib/in/udp_forwarder.rs:176-262 | and its task is over if and only if it ended, or a reply of it had no socket or could not be written, since |
| UdpNat.LoopAliveExactly | src/lib/in/transparent_proxy.rs:273-304 | over every run the receive loop is alive if and only if every forwarded datagram was written and met no association that had ended unremoved, receiving never failed, resolving never panicked, no socket of a new association was refused, and no joined task failed |
| UdpNat.LateDatagramStopsLoop | src/lib/in/transparent_proxy.rs:294-303 | a run in which a datagram between an association's end and its removal stops the receive loop |
| UdpNat.WholeLife | src/lib/in/udp_forwarder.rs:79-227 | a run in which a datagram goes out, its reply comes back from the original aimed at, and the association ends and is removed while its socket stays for whoever holds it |
| UdpForwarding.Association.Send | src/lib/in/udp_forwarder.rs:264-285 | an ended association fails with its maps untouched; else both maps are updated, even when writing then fails |
| UdpForwarding.UdpForwarder.Send | src/lib/in/udp_forwarder.rs:79-125 | in place, the forwarding step for this source's association, made when there is none; no other association changes; refused a socket for a new one, it ends the loop with nothing changed |
| UdpForwarding.UdpForwarder.GetAssociatedDestination | src/lib/in/udp_forwarder.rs:130-147 | the real destination of the original in this source's association |
| UdpForwarding.UdpForwarder.AnswerFrom | src/lib/in/udp_forwarder.rs:202-227 | in place, the reply step, with the failures that end the task |
| UdpForwarding.UdpForwarder.Expire | src/lib/in/udp_forwarder.rs:97-105 | in place, the association goes and only sockets somebody holds stay |
| UdpForwarding.ListenUdp | src/lib/in/transparent_proxy.rs:273-304 | from a new forwarder: while the loop is alive each source's datagrams have gone out in order, each where the first answer of routing for its original said, those without an answer left out; and it is alive as long as receiving works, routing does not panic on a new original and everything with a destination can be sent |
| UdpRelay.RelaysAsAnswered | src/lib/in/transparent_proxy.rs:276-302 | the same of every sequence of datagrams |
| UdpRelay.RelayedIsRun | src/lib/in/transparent_proxy.rs:273-304 | the loop left alone is one of the runs the properties above are about, with the datagrams received and routing's own answers as its receptions |
| TunnelHeader.WriteHeader | src/lib/tunnel/byte_stream_tunnel.rs:102-135 | the bytes of the header, or failure exactly when the name or the tag is longer than 255 bytes |
| TunnelHeader.HeaderLayout | src/lib/tunnel/byte_stream_tunnel.rs:102-135 | 0x00 or 0x80, the address and the port big-endian, and two texts behind a length byte |
| TunnelHeader.HeaderExample | src/lib/tunnel/byte_stream_tunnel.rs:102-135 | the bytes for 1.2.3.4:443 with the name "ab" |
| TunnelHeader.HeaderRoundTrip | src/lib/tunnel/byte_stream_tunnel.rs:102-286 | reading a written header gives its destination, name and tag, an empty text as none, flow label and scope zero, and leaves exactly what follows |
| TunnelHeader.HeaderRebuilt | src/lib/tunnel/byte_stream_tunnel.rs:243-286 | writing back what was read gives the same bytes after the first, and all of them if and only if the first was 0x00 or 0x80 |
| TunnelHeader.UnwrittenOption | src/lib/tunnel/byte_stream_tunnel.rs:246-259 | a header with option byte 0x01 that is read but not written so |
| TunnelHeader.HeaderTruncated | src/lib/tunnel/byte_stream_tunnel.rs:243-286 | every prefix that cuts a header short reads as an unexpected end, every longer one as that header |
| TunnelHeader.BadTextIsRefused | src/lib/tunnel/byte_stream_tunnel.rs:265-286 | a name or a tag that is no UTF-8 is refused as such |
| Utf8Text.ValidExactly | src/lib/tunnel/byte_stream_tunnel.rs:265-286 | bytes pass the test if and only if they are the encoding of characters |
| TunnelHeader.PrefixFree | src/lib/tunnel/byte_stream_tunnel.rs:102-135 | no header is a proper prefix of another |
| TunnelHeader.SameBytes | src/lib/tunnel/byte_stream_tunnel.rs:102-135 | two headers are written the same if and only if they mean the same |
| Bytes.DecodeBigEndian | src/lib/tunnel/byte_stream_tunnel.rs:108-116 | big-endian bytes read back as the number |
| Bytes.EncodeBigEndian | src/lib/tunnel/byte_stream_tunnel.rs:249-255 | and any bytes are those of the number they read as |
| HeaderReader.ByteStream.ReadExact | src/lib/tunnel/byte_stream_tunnel.rs:265-278 | whatever the chunks, exactly the next n bytes, or an unexpected end when there are fewer |
| HeaderReader.AcceptHeader | src/lib/tunnel/byte_stream_tunnel.rs:243-286 | whatever the chunks, reads the header as the parser on bytes does, errors included, and leaves the rest of the stream |
| Sniffing.Sniff | src/lib/in/transparent_proxy.rs:334-404 | stops at the first read that decides, for that reason, with every byte read so far; while none has decided it reads on |
| Sniffing.SniffedExactly | src/lib/in/transparent_proxy.rs:349-403 | it ends with the first read after which the client has closed, a read failed, nothing was there for the sixth time, the bytes do not start with 0x16 0x03, or the parser answers |
| Sniffing.TlsIsNeverRefused | src/lib/in/transparent_proxy.rs:367-379 | bytes that start with 0x16 0x03 end on a read only with the parser's answer |
| Sniffing.AnswerIsEarliest | src/lib/in/transparent_proxy.rs:364-379 | a name is the parser's answer for all bytes read, no shorter read had one or looked unlike TLS, and with a parser whose answers stand it is its answer for the whole stream |
| Sniffing.SameNameForEveryCut | src/lib/in/transparent_proxy.rs:349-403 | with a parser whose answers stand, any two cuts of a stream that get an answer get the same name, and if it is silent on a record's first byte alone, any two that end on content end alike |
| Sniffing.EarlyAnswerDiffers | src/lib/in/transparent_proxy.rs:366-379 | with a parser that is not, two cuts of one stream that end differently |
| Sniffing.StreamArrives | src/lib/in/transparent_proxy.rs:334-423 | for every cut and every exit, header, sniffed bytes and unread bytes parse at the OUT to the destination with exactly the client's bytes left |
| Http2Body.RecvAdapter.PollRead | src/lib/tunnel/http2/compat.rs:31-90 | delivered, pending and unpolled bytes stay the body in order, released capacity equals the bytes polled, and the read brings what comes next up to the room there is |
| Http2Body.ZeroRead | src/lib/tunnel/http2/compat.rs:40-86 | a read with room brings nothing if and only if nothing is pending and an empty chunk or the end of the body is next |
| Http2Body.ZeroReadAtEnd | src/lib/tunnel/http2/compat.rs:64-86 | with room and no empty chunks a read brings nothing only when the whole body has been delivered |
| Http2Body.ReadFills | src/lib/tunnel/http2/compat.rs:40-76 | a read brings all of what comes next or as much as there is room for, and keeps the rest |
| Http2Body.CopyAll | src/lib/tunnel/http2/compat.rs:31-90 | reading until a read brings nothing gets exactly what comes before the first empty chunk, and succeeds if and only if neither the response nor the body breaks before that |
| Http2Body.CopyIsWhole | src/lib/tunnel/http2/compat.rs:64-86 | which is the whole body if and only if nothing follows an empty chunk |
| Http2Body.EmptyFrameCutsCopy | src/lib/tunnel/http2/compat.rs:65-83 | an empty chunk ahead of data that cuts the copy short |
| Http2Body.SendStream.PollWrite | src/lib/tunnel/http2/compat.rs:104-139 | sends one non-empty prefix of the buffer, all of it unless that uses up the capacity, or nothing; fails, or reports nothing written of a non-empty buffer, only if the buffer could never be written whole |
| Http2Body.SendStream.WriteAll | src/lib/tunnel/http2/compat.rs:104-139 | repeated writes send the buffer's bytes once and in order, in frames that are never empty, and all of them if and only if enough capacity is granted and no send they take is refused |
| Http2Body.WaitingChangesNothing | src/lib/tunnel/http2/compat.rs:115-130 | to be kept waiting for capacity, at whatever time, changes nothing of what can be written |
| Http2Body.WrittenBodyCopies | src/lib/tunnel/http2/compat.rs:104-158 | a body whose frames are cut or joined on the way, with the shutdown's empty frame or without, is copied whole |
| Http2Body.CopyWritten | src/lib/tunnel/http2/compat.rs:31-158 | reading such a body until a read brings nothing gets exactly what was written to its sender |

## Left out

- SQLite and Redis themselves: a row table with the four statements used, and keys, times to live and channels with the commands used. SQL column types, the indexes and the `STRING` affinity are not modelled; the resolver's and the allocator's connections see one table.
- FakeIpTable.RunWellFormed: assumes that rows are written only by the allocator, starting from an empty table.
- Overflow: a debug build panics where the model wraps (`FakeIpTable.ConvertIdToFakeIp`); within the proved capacity neither happens for IPv4.
- DNS lookups, record rewriting and TTLs: only their calls into the allocator matter here.
- AES-GCM and serde: messages are taken as what they encode; a message that cannot be decrypted or parsed is a failure of the call that reads it. With a key configured, `decrypt` panics on a payload shorter than 12 bytes (src/lib/match_server/redis_match_server.rs:476), such as a match key that has expired and reads as empty; the model takes the panic as a failure of that call.
- Disconnects of a Redis connection beyond losing messages and failing the call; commands are atomic and see one clock.
- MatchPairing.Pairing: one match name and fresh UUIDs for match keys and tunnel ids; liveness is not stated, since a match needs somebody to keep announcing.
- MatchMailbox.MailboxDelivers: TLS, the socket options and the one-second timeout on reading the tunnel id happen before a stream arrives, and are not modelled.
- OutHandlers.SingleHandler: nothing is said about an OUT that is active but whose loop waits for a permit, beyond that it is the one loop. A scan of the keys is one turn under the lock, as in the source.
- GeoLite2, CIDR blocks and regular expressions: rule conditions are the predicates they denote. Invalid patterns and addresses are not modelled: the IN configuration panics on them, the OUT configuration skips them.
- Draining of HTTP/2 tunnels (`active_streams`, `closed_notify`): a tunnel is active and later is not. Tunnel ids are fresh.
- Rotation.RotationFair: counts selections without wrap-around of the counter at 2^64, with the tunnel state unchanged; selections through other labels advance the same counter.
- Selection.SelectLoop: the lock on the label index is held for one selection, so its index is one value.
- UdpNat.StepKeepsInv: the end of an association and the drop of its maps and sockets are one step; replies are taken one at a time.
- UdpForwarding.ListenUdp: one datagram at a time with nothing in between; the interleavings are those of `UdpNat`.
- PrefixStability.LabelsFixedExactly: compares label groups before deduplication; for what `match` returns see MatchStability.MatchFixedExactly.
- MatchStability.MatchFixedExactly: the only-if half is for IN rules that name no other OUT by its id. Ids of OUTs are fresh UUIDs, so a configuration cannot well know one.
- Sniffing.Sniff: does not end against a client that never stops sending undecided bytes; it says so by returning nothing. The TLS parser is an arbitrary function, and `SameNameForEveryCut` assumes that its answers stand. The branches on `determined` after it is set cannot be reached in the source either. The repository's README speaks of no traffic sniffing; the code sniffs the TLS server name, and the model follows the code.
- HeaderReader.AcceptHeader: read errors other than the end of the stream are not modelled; what is left of a stream that failed to parse is unspecified.
- TunnelHeader.WriteHeader: names and tags are the UTF-8 bytes of a string; the HTTP/2 tunnel, which sends them as `X-` headers instead, is not modelled.
- Http2Body.RecvAdapter.PollRead: wake-ups are not modelled; a body's events are a finite sequence.
- Http2Body.SendStream.PollWrite: capacity the connection takes back from a stream between two polls is not modelled.
- Sockets, TLS, QUIC, STUN, netfilter rules, logging and configuration.
