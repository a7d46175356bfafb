# A verified model of the L7 proxy

This project models the parts of the proxy that decide, validate, reload, mirror and fail over, and
proves what each of them promises. `dafny verify dfyconfig.toml` (Dafny 4.11) verifies all of it.

| file | component |
|---|---|
| `Foundations.dfy` | options, results, bytes, first-match search |
| `MirrorGraph.dfy` | the three-colour search for mirror cycles, as a class with its `state` and `stack` |
| `ConfigModel.dfy` | the config, the library calls it rests on, `ParseConfig` |
| `FieldValidation.dfy` | the checks of upstream hosts and of a rule's method, headers, hosts and client networks |
| `RuleKey.dfy` | which rules count as duplicates |
| `Validation.dfy` | `Validate`: the faults reported, exactly what passes, and what an accepted config guarantees |
| `RewriteTemplate.dfy` | capture references in regex rewrites |
| `Trie.dfy` | the byte trie on the heap |
| `Routing.dfy` | request conditions, the linear scan, the documented precedence |
| `RouteIndex.dfy` | the compiled index, its lookups, `finalize` |
| `Router.dfy` | the published index, `DecideRoute`, the config swap |
| `RoutingGuarantees.dfy` | what routing promises for a config that loaded |
| `ReloadMonitor.dfy` | the hot-reload loop, and its runs among file changes, timer, signals and readers |
| `MirrorPool.dfy` | the mirror worker pool as a transition system |
| `Failover.dfy` | the attempting transport, and where its documentation differs |
| `Proxy.dfy` | one request from routing through `rewrite` to the transport |

Conventions:

- A route pointer `&cfg.Routes[i]` is its position `i`, so "the same route" is the same position, not
  merely the same upstream.
- Paths, prefixes and rewrite templates are sequences of bytes. Names, hosts, methods and header
  texts, which are only compared, are strings.
- A library call is a function in the record `Lib` (regex engine, `url.Parse`, `ToLower`, ...). Used
  about them is only this: a regex matches exactly when it returns submatch indices, those are well
  formed, and the empty string is blank. The record also holds the duplicate key of each rule, which
  `LibFacts` fixes to `KeyText`.
- A context, the clock, the limiter, the gate and the upstreams are functions of everything that
  happened before (`Failover.World`), so each theorem holds for all their behaviours.
- A request body is a reader whose unread rest is state: a send takes from it what the base transport
  reads, in any amount, and only `GetBody` makes a new one.
- Concurrent parts are transition systems. Each step is one shared-memory action, and the theorems
  quantify over every run.
- `IsDecision` is what a decision has to be for one config and one request. It is written with the
  linear scan and the outbound path of each kind of route, not with the index.

Main results:

- The index (exact map, trie, regex list) picks the very route the linear scan picks, and the scan
  picks exactly the documented winner; `DecideRoute` returns the decision this determines.
- `findCycle` returns nil exactly for acyclic graphs, for every order of the roots: the finishing
  order is a rank in one case, the result a simple closed path in the other. In an accepted config
  the relation of all mirror entries is acyclic.
- No reload is lost, reloads keep their distance, a burst of changes ends in one trailing reload, and
  every request is decided on one published, validated config: for `DecideRoute` with other configs
  published between any two of its lookups, and for requests and reloads interleaved step by step.
- Every document that loads is published, and a document loads exactly when upstreams and routes are
  there and well formed, names and routes are unique, what is named is known, and no mirrors loop.
- The mirror pool never sends on or closes a closed queue, conserves its jobs, and drains; each target is
  sent to exactly when its own random number says so.
- A round trip makes at most two sends in the permitted order, both with the whole body, tells the
  gate about each admitted attempt once, leaks no deadline, and returns the last attempt's answer.
- `L7Proxy.Serve` puts the parts together: what the transport sends is the client's request on the
  path that one published config decides.

## Where the code and its documentation differ

The model follows the code.

- `docs/request-flow.md` ties failover to an upstream that cannot be reached. The code fails over
  after any error of the first attempt, a failing `GetBody` and a refusal by limiter or gate included:
  it keeps to the rule exactly when limiter and gate admitted the primary and its body was ready
  (`FailoverAsDocumented`; `RefusedPrimaryFailsOver` is a run that does not).
- `docs/request-flow.md` gives 503 for "every upstream unavailable (gate closed, no fallback)". The
  code answers 503 exactly when the last attempt was refused (`UnavailableMeansRefused`). The two
  differ in exactly two cases (`StatusAsDocumented`): the fallback is refused after the primary was
  tried and failed (`RefusedFallbackHidesFailure`), or the primary is refused and the request may not
  go to a fallback that would be admitted (`RefusedPrimaryIgnoresFallback`).
- `validateRewrite` rejects "//" so that a rewrite names no host. The outbound path of a prefix route
  can start with "//" all the same, when its rewrite is "/" (`RewriteDoublesSlash`, `DoubledSlash`).
- `validateRoutes` calls a rule a duplicate when its key has been seen. The key joins its parts with '|',
  which a regex may contain, so rules that differ can collide (`DifferentRulesMayCollide`).
- ADR-0009 describes a trailing two-second debounce. The code reloads at once and then keeps a
  cooldown of one second with at most one trailing reload.
- ADR-0010 says that the watcher stops after a delete. The code reports the delete and goes on.
- `resolveMirrors` reports a mirror without a host as a failure of the config parse. It is reachable
  with a config that parsed and validated: an empty mirror with ratio 0 passes `validateMirror` (see
  `EmptyMirrorValidatesButFails`).

## Model

| member | source | states |
|---|---|---|
| RouteIndexing.IndexAgreesWithScan | internal/routing/routing.go:96-194 | for every config, request and path the exact map, then the trie, then the regex list pick the very route the linear scan picks, ties and fall-through to shorter prefixes included, and none exactly when the scan finds none |
| Routing.ReferenceIsDocumented | internal/routing/routing_diff_test.go:20-55 | the scan picks route i if and only if i applies and exact beats prefix, a longer prefix beats a shorter one, prefix beats regex and config order breaks ties; none if and only if no route applies |
| Routers.Router.DecideRoute | internal/routing/routing.go:131-157 | whatever is published before and between its lookups, the result is the documented decision, errors included, for the one config published when it loaded the index |
| Routers.Router.Find | internal/routing/routing.go:141-153 | the lookups in order, in the index held, find what that index yields, whatever is published after the load and after each lookup |
| RouteIndexing.CandidateDecides | internal/routing/routing.go:143-156 | what the index yields settles the decision: no candidate is "route not found", and a candidate applies, carries its own remainder or submatches, and resolves only to the documented decision |
| RouteIndexing.DecisionIsUnique | internal/routing/routing.go:301-333 | config and request admit one decision only, so the contract of `DecideRoute` leaves nothing open |
| RouteIndexing.WinnerResolves | internal/routing/routing.go:301-333 | and every winning route resolves to a decision or an error |
| RouteIndexing.NewRouteIndex | internal/routing/routing.go:69-92 | every part of the index holds exactly the routes of its kind and key, in config order, and each name maps to its last upstream |
| RouteIndexing.RouteIndex.File | internal/routing/routing.go:80-90 | filing route i leaves the first i + 1 routes each in its own part in config order |
| RouteIndexing.IndexByName | internal/routing/routing.go:76-79 | a name maps to the last upstream that bears it, and no other name maps |
| Routing.MembersInOrder | internal/routing/routing.go:80-90 | a part holds route i if and only if the rule belongs there, at strictly increasing positions |
| RouteIndexing.RouteIndex.MatchExact | internal/routing/routing.go:96-103 | the first route in config order with this exact path whose conditions hold |
| RouteIndexing.RouteIndex.MatchPrefix | internal/routing/routing.go:107-122 | the longest prefix of the path, over all its prefixes, that has a route whose conditions hold, with the exact remainder of the path |
| RouteIndexing.TraversalFindsLongestPrefix | internal/routing/routing.go:112-120 | stopping the ordered traversal at the first accept is the search over all prefixes of the path from longest to shortest |
| RouteIndexing.LongestPrefixIsBest | internal/routing/routing.go:105-122 | the route found applies, beats every other applicable prefix route by length and then by config order, and the remainder starts where its prefix ends |
| RouteIndexing.LongestPassingIsBest | internal/routing/routing.go:105-122 | the same for any test of the routes, and the remainder starts where the prefix ends |
| RouteIndexing.RouteIndex.MatchRegex | internal/routing/routing.go:169-194 | the first regex route in config order whose conditions hold and whose compiled regex matches, with its submatch indices |
| Routing.WildcardIsStrictSubdomain | internal/routing/routing.go:250-267 | a pattern `*.d` matches a host if and only if the host is a non-empty label text followed by `.d` |
| Routing.PlainPatternIsTheHost | internal/routing/routing.go:250-267 | any other pattern matches exactly the one host |
| Routing.HostOnlyStrips | internal/routing/routing.go:270-277 | a port, and the brackets of an address without one, do not count |
| Routing.HeaderCondition | internal/routing/routing.go:220-248 | present, equals, prefix and contains ask for some value, the value, a value that starts with it, a value that has it inside; no operator is present or equals; an unknown one matches nothing |
| Routing.ConditionsCombine | internal/routing/routing.go:198-218 | no condition is no restriction; a method and each further header narrow a rule to the requests that also meet them |
| Routing.AlternativesCombine | internal/routing/routing.go:209-215 | a further host, or network, widens a rule that has some and restricts one that has none |
| Routing.ClientAddress | internal/routing/routing.go:279-299 | the client matches if and only if its address, without the port if there is one, parses and lies in a network that parses |
| RouteIndexing.RouteIndex.Finalize | internal/routing/routing.go:301-333 | upstream, timeout, target, mirrors and fallback are those of the winning route, and the first name without a host is the error |
| RouteIndexing.OutboundTarget | internal/routing/routing.go:309-316 | exact and prefix routes without a rewrite send the request path unchanged, a prefix rewrite replaces exactly the prefix, a regex route sends the expansion of its template |
| RouteIndexing.ResolveMirrors | internal/routing/routing.go:383-397 | all mirrors in order with host and ratio, or the first one that has no host |
| RouteIndexing.RouteIndex.Failover | internal/routing/routing.go:348-368 | one hop to the named upstream when it is known and has a host, otherwise none; whose host and timeout that is, `FallbackIsItsOwn` says |
| RouteIndexing.FallbackIsItsOwn | internal/routing/routing.go:359-367 | for any config the fallback has name, host and timeout of the upstream that is named, not of the one that names it |
| RouteIndexing.RouteIndex.UpstreamTimeout | internal/routing/routing.go:337-343 | the timeout of the last upstream of that name, 0 when there is none |
| RouteIndexing.TimeoutOfLast | internal/routing/routing.go:337-343 | an upstream that is the last of its name has its own timeout |
| RoutingGuarantees.PrefixRouteTarget | internal/routing/routing.go:455-462 | the outbound path of a prefix route is the prefix or its rewrite followed by the same rest as in the request path |
| RoutingGuarantees.ExactRouteTarget | internal/routing/routing.go:401-409 | an exact route sends its rewrite, or else the request path, which is its own path |
| RoutingGuarantees.RegexRouteTarget | internal/routing/routing.go:309-311 | a regex route sends its rewrite expanded with the submatches of its compiled regex in the request path |
| RoutingGuarantees.OutboundPathIsRooted | internal/config/config.go:439-463 | for a loaded config every decision's outbound path starts with '/', for each kind of route and whatever the rewrite and the captures are |
| RoutingGuarantees.RewriteDoublesSlash | internal/config/config.go:456-458 | a rewriting prefix route sends a path that starts with "//" if and only if its rewrite is "/" and what follows the prefix starts with '/' |
| RoutingGuarantees.DoubledSlash | internal/config/config.go:456-458 | prefix "/api" and rewrite "/" are well formed and turn "/api/x" into "//x" |
| PrefixTrie.Trie.constructor | internal/routing/trie.go:16-18 | a new trie is well formed and stores nothing |
| PrefixTrie.Trie.Insert | internal/routing/trie.go:21-32 | appends to the list of this string, leaves every other string's list alone, keeps the tree shape, and keeps every list equal to the inserts logged for its string in order |
| PrefixTrie.NothingIsShared | internal/routing/trie.go:11-14 | different strings reach different nodes with different child arrays |
| PrefixTrie.FollowReachesNodes | internal/routing/trie.go:22-30 | following child pointers along a string reaches exactly the node recorded for it, or nothing |
| PrefixTrie.TrieNode.Match | internal/routing/trie.go:41-50 | calls back on the stored prefixes of the path below this depth in order and stops at the first accept, whose value it returns |
| PrefixTrie.Trie.Match | internal/routing/trie.go:37-39 | the same for the whole path, from the root |
| PrefixTrie.OffersAreRegisteredPrefixes | internal/routing/trie.go:34-36 | the offers are exactly the prefixes of the path that have routes, each with its length as depth, in strictly decreasing depth |
| RewriteTemplate.ExpandRegexRewrite | internal/routing/routing.go:422-450 | never slices out of range on well-formed indices and yields the concatenated meanings of the template's tokens |
| RewriteTemplate.TokenizeSpells | internal/routing/routing.go:411-421 | every template has a proper tokenisation that spells it |
| RewriteTemplate.TokenizeIsTheOnlyOne | internal/routing/routing.go:411-421 | the token grammar is unambiguous |
| RewriteTemplate.TokenBoundary | internal/routing/routing.go:428-448 | tokens distribute over a cut of the template if and only if the cut does not part a lone '$' from a byte it binds to |
| RewriteTemplate.ExpansionDistributes | internal/routing/routing.go:428-448 | expansion distributes over such a cut |
| RewriteTemplate.ReferenceExpands | internal/routing/routing.go:414-420 | anywhere in a template `$n` stands for the text of group n, for nothing if that is unmatched or missing, and only one digit belongs to it |
| RewriteTemplate.ExpansionUndoesEscape | internal/routing/routing.go:417-420 | doubling every '$' and expanding gives back any string, for every match |
| RewriteTemplate.UnboundDollarsStay | internal/routing/routing.go:419-420 | a template in which no '$' meets '$' or a digit expands to itself |
| MirrorGraph.FindCycle | internal/config/config.go:676-719 | nil if and only if the graph is acyclic, for every order of the roots; nil comes with a rank that drops along every edge, a result is a closed walk along edges without repetition |
| MirrorGraph.Search.Dfs | internal/config/config.go:686-709 | terminates although targets need not be keys; without a cycle the stack is restored, the node is black and gray is again exactly the stack |
| MirrorGraph.Search.CloseAt | internal/config/config.go:692-698 | the search along the stack finds the gray node, and closing it there gives a simple closed walk |
| MirrorGraph.RankedIsAcyclic | internal/config/config.go:706-708 | a rank that drops along every edge leaves no closed walk of any length |
| MirrorGraph.AcyclicWalkIsShort | internal/config/config.go:674-675 | in an acyclic relation a walk repeats no node and is no longer than its node set |
| ConfigModel.Config.MapNamesToHosts | internal/config/config.go:127-145 | succeeds if and only if all hosts parse as http or https, then maps exactly the names, each to the parsed host of the last upstream that bears it; otherwise the field is untouched |
| ConfigModel.Config.CompileRegexes | internal/config/config.go:492-505 | succeeds if and only if all regexes compile, and then every regex rule carries its own regex compiled and nothing else changed |
| ConfigModel.ParseConfig | internal/config/config.go:732-751 | a config results if and only if the file decodes, all hosts parse and all regexes compile, and its value is fixed by the document |
| Validation.Validate | internal/config/config.go:148-158 | reports exactly the faults present; a reported cycle is a real one and one is reported if and only if the mirror edges have a cycle; empty if and only if the config is acceptable |
| Validation.AcceptedExactly | internal/config/config.go:148-158 | a config is accepted if and only if its upstreams and routes are there, well formed, unique and refer to known upstreams, and its mirrors do not loop, said without the faults |
| Validation.ValidateUpstreams | internal/config/config.go:160-206 | reports exactly the blank and duplicate names, the hosts that are no origin with the first reason, negative timeouts, and fallbacks to itself or to an unknown name, later names being known |
| FieldValidation.GoodHostIsOrigin | internal/config/config.go:208-245 | a host passes if and only if it has no white space and parses as an http or https origin: a host name, no path but "/", no query, no fragment, and a port, if any, from 1 to 65535 |
| Validation.ValidateRoutes | internal/config/config.go:247-279 | reports exactly the route faults; a duplicate is reported with the first route of its key |
| RuleKeys.SameRuleSameKey | internal/config/config.go:507-534 | rules that ask the same, up to the case of methods, hosts and header names and the shorthand for operators, are duplicates |
| RuleKeys.OneDifferenceIsEnough | internal/config/config.go:507-534 | rules that differ in the method, a path, the regex, or the text of one kind of condition only are none |
| RuleKeys.DifferentRulesMayCollide | internal/config/config.go:514-531 | but not only such rules: a separator inside a regex reads like the start of a host condition, so a pair of rules that differ can be rejected |
| Validation.ValidateRule | internal/config/config.go:281-349 | reports exactly the faults of the rule: not one matcher, ill-formed paths, regex or rewrite, a regex without rewrite, and the faults of its method, headers, hosts and client networks |
| Validation.RulePassesExactly | internal/config/config.go:281-349 | no fault if and only if one matcher is set, paths and rewrite start with '/' and have no white space, query or fragment, the rewrite does not start with "//", a regex compiles and has a rewrite, and the fields pass |
| FieldValidation.ValidateFields | internal/config/config.go:332-346 | reports exactly a method that is not upper case or unknown, and the faulty headers, host patterns and client networks by position |
| FieldValidation.ValidateHeaders | internal/config/config.go:357-394 | reports exactly the malformed names, repeated names with the first well-formed header of that name, and, for first occurrences, values that do not go with the operator |
| FieldValidation.GoodPatternIsNameOrSubdomains | internal/config/config.go:406-427 | a host pattern passes if and only if it is non-empty, has no white space, '/', '?', '#' or ':', and has no wildcard or a single one in front of a name |
| FieldValidation.TokenCharsAreNotDelimiters | internal/config/config.go:548-561 | the characters of header names are the visible ones that are no delimiters, as in section 3.2.6 of RFC 7230 |
| FieldValidation.FieldsPassExactly | internal/config/config.go:332-346 | no field fault if and only if the method is one of the nine in upper case or absent, header names are tokens and differ, values go with operators, host patterns and networks are well formed |
| Validation.ValidateMirror | internal/config/config.go:465-487 | reports exactly the mirror faults: ratio without upstream, unknown or own upstream, ratio out of range |
| Validation.BuildAdjacency | internal/config/config.go:644-665 | the lists hold exactly the mirror edges between distinct known upstreams, each once |
| Validation.MirrorEdgesAreHops | internal/config/config.go:646-664 | an edge is kept if and only if some route mirrors that way between distinct known upstreams |
| Validation.ValidateMirrorCycles | internal/config/config.go:638-672 | no error if and only if the kept edges are acyclic; the error names a simple closed walk |
| Validation.AcceptedMirrorsAreAcyclic | internal/config/config.go:465-487 | in an accepted config any chain of mirror hops, over all mirror entries, repeats no upstream and makes fewer hops than there are upstreams |
| Validation.AcceptedNames | internal/config/config.go:166-177 | accepted upstream names are non-empty and pairwise different |
| Validation.AcceptedHost | internal/config/config.go:179-181 | an accepted upstream host is an origin |
| Validation.AcceptedHostPattern | internal/config/config.go:396-404 | an accepted host condition is a name or stands for the subdomains of one |
| Validation.AcceptedFallback | internal/config/config.go:188-203 | an accepted fallback names another existing upstream |
| RoutingGuarantees.RouteLiesInOnePart | internal/config/config.go:284-303 | every route of an accepted config has one matcher and is filed once, in one part of the index |
| RoutingGuarantees.LoadedConfigResolves | internal/routing/routing.go:301-323 | for a loaded config a decision fails only with "route not found", if and only if no route applies, or on an empty mirror, if and only if the winning route has one |
| RoutingGuarantees.LoadedConfigFallback | internal/routing/routing.go:345-368 | the decision has a fallback if and only if its upstream names one, and then that other upstream is it, with that upstream's own parsed host and timeout |
| RoutingGuarantees.SoundDecision | internal/routing/routing.go:301-333 | in a loaded config the target is the parsed host of the winning route's upstream, with its own timeout and the request's query, the fallback that of the upstream it names, and each mirror the host of the upstream it names with its own ratio |
| RoutingGuarantees.LoadedView | internal/config/config.go:732-751 | a loaded config has the upstreams and routes of its document, with hosts parsed and regexes compiled |
| RoutingGuarantees.EmptyMirrorValidatesButFails | internal/config/config.go:467-473 | a concrete config that parses and validates and whose only route then always fails, because of an empty mirror with ratio 0 |
| Routers.Router.constructor | internal/routing/routing.go:491-495 | the router publishes the index of the given config |
| Routers.Router.SwapConfig | internal/routing/routing.go:660-662 | publishes a fresh index of the new config and leaves the old one alone |
| Routers.Router.UpdateConfig | internal/routing/routing.go:642-658 | the published index changes if and only if the document parses and validates; the two failure reasons are told apart |
| RoutingGuarantees.LoadedExactly | internal/routing/routing.go:642-658 | a document loads if and only if it is as `AcceptedExactly` says, so parsing adds no condition of its own |
| Routers.Router.ReloadConfig | internal/routing/routing.go:629-640 | appends to the published configs exactly when the document loads; otherwise the index stays |
| ReloadMonitor.Monitor.Reload | internal/routing/routing.go:532-542 | on cooldown only the source is kept; otherwise the file is read once, the cooldown starts and the published configs follow `ReloadConfig` |
| ReloadMonitor.Monitor.Dispatch | internal/routing/routing.go:549-599 | one turn follows the transition function and does what it has to (`IsObeyed`): a signal, a write, a creation, or a removal or renaming with the file there publishes a document that loads off cooldown and is kept on cooldown, the timer meets what is kept, and nothing else changes anything |
| ReloadMonitor.Monitor.Serve | internal/routing/routing.go:549-599 | whatever the loop receives, in any number and order, all published configs have loaded, the one in use is the last, and variables and published configs are those of the transition function, turn by turn (`EachIsObeyed`) |
| ReloadMonitor.EachIsObeyed | internal/routing/routing.go:549-599 | in any sequence of happenings each turn does what it has to, from the state the ones before left |
| ReloadMonitor.NoReloadIsLost | internal/routing/routing.go:524-542 | in every reachable state of a running loop each change received, told by the operations of its event and the presence of the file, and each signal ever raised and off the channel, is covered by a reload that read the file at or after it, or a reload is pending with its timer armed or fired |
| ReloadMonitor.PendingReloadHappens | internal/routing/routing.go:585-591 | the timer's fire reads the newest file and covers every change accepted so far |
| ReloadMonitor.PendingReloadComes | internal/routing/routing.go:585-591 | from every reachable running state with a pending reload, time passing, the timer firing and one turn perform it |
| ReloadMonitor.AttemptsAreSpaced | internal/routing/routing.go:623 | the i-th and j-th reload attempt of any run are at least j - i seconds apart |
| ReloadMonitor.CooldownMatchesTimer | internal/routing/routing.go:524-541 | on cooldown if and only if the timer is armed, for at most a second ahead, or its fire undelivered, and pending only on cooldown |
| ReloadMonitor.ChangesCoalesce | internal/routing/routing.go:533-538 | any number of steps within a cooldown cause no attempt, and leave a reload pending if and only if one was pending or a change was accepted |
| ReloadMonitor.OneTrailingReload | internal/routing/routing.go:585-591 | a cooldown with any number of accepted changes ends in exactly one reload, one without changes in none |
| ReloadMonitor.LastKnownGood | internal/routing/routing.go:627-658 | in any run the published configs only grow, each has loaded, each new one was loaded by a turn of the run, and there are no more new ones than reload attempts |
| ReloadMonitor.EveryLoadIsPublished | internal/routing/routing.go:642-662 | the configs published since the start are exactly those that the reload attempts loaded, in order |
| ReloadMonitor.DecisionsUseOneSnapshot | internal/routing/routing.go:141-156 | however reloads fall between the load, the lookups and `finalize` of a request, its decision is the documented one for the config published when it loaded the index, which had loaded itself |
| ReloadMonitor.NoRequestIsStuck | internal/routing/routing.go:141-156 | in every reachable state a request without a decision can take its next lookup or `finalize` |
| MirrorPool.PoolIsSafe | internal/mirroring/mirroring.go:87-117 | in every reachable state of any number of submitters, workers and stoppers nothing panics: no submitter past the test meets a closed queue, the queue is closed at most once, and outside the write lock `stopped` says whether it is closed |
| MirrorPool.JobsAreConserved | internal/mirroring/mirroring.go:103-135 | the decided calls are, each in one place, the dropped, queued, held and completed ones, as sets and in number; the held ones are those in the hand of a busy worker, and of one only |
| MirrorPool.QueueIsFifo | internal/mirroring/mirroring.go:112-121 | jobs leave in the order they were accepted, each once, the queue keeps its capacity, configured or 100, and every drop saw the pool stopped or the queue full |
| MirrorPool.SubmitDecides | internal/mirroring/mirroring.go:107-116 | a call is dropped at the test if and only if the pool is stopped, and at the queue if and only if that is full; otherwise its job joins the end of the queue |
| MirrorPool.WorkersStay | internal/mirroring/mirroring.go:60-78 | the pool keeps the number of workers it was made with, configured or 10 |
| MirrorPool.TargetsAreSettledOnce | internal/mirroring/mirroring.go:122-133 | a completed job has one outcome per target; ratio 0 or less is always skipped and ratio 1 or more never |
| MirrorPool.OutcomesAreAsDrawn | internal/mirroring/mirroring.go:122-133 | a settled target was sent to if and only if the number drawn for it lies below its ratio, and counts as sent if and only if that send returned no error |
| MirrorPool.Sample | internal/mirroring/mirroring.go:162-171 | for a random number in [0, 1) a target is sent if and only if the number is below its ratio |
| MirrorPool.StopDrains | internal/mirroring/mirroring.go:93-98 | when the `Stop` that closed the queue has returned, the queue is empty, all workers are gone and exactly the accepted jobs are complete |
| MirrorPool.WorkStepLowersLoad | internal/mirroring/mirroring.go:119-135 | every step of a worker lowers the measure of queued jobs and remaining targets |
| MirrorPool.ClosedPoolOnlyDrains | internal/mirroring/mirroring.go:107-117 | once the queue is closed no step of anyone raises that measure |
| MirrorPool.NoWorkerIsStuck | internal/mirroring/mirroring.go:119-135 | after the close every worker still there can take a step |
| MirrorPool.DrainIsBounded | internal/mirroring/mirroring.go:119-135 | in every run after the close the workers make no more steps than the measure at its start |
| MirrorPool.DrainEnds | internal/mirroring/mirroring.go:93-98 | when the workers of a closed pool have no step left they are all gone, the queue is empty, and the draining `Stop` can return |
| MirrorPool.SecondStopMayReturnEarly | internal/mirroring/mirroring.go:89-92 | a reachable state in which a second `Stop` has returned while a job is still queued |
| Failover.AttemptingTransport.RoundTrip | internal/proxy/proxy.go:256-285 | history, result and what is left of the body are those of the specified protocol, and nothing else changes: no URL object of a decision or an index is written |
| Failover.AttemptingTransport.Attempt | internal/proxy/proxy.go:297-305 | limiter, gate, send and record happen as specified for one attempt |
| Failover.AttemptingTransport.Send | internal/proxy/proxy.go:309-345 | deadline, body replay, send and release happen as specified for one send, on a copy of the URL; without `GetBody` the send uses up the request's own reader, with it a new one |
| Failover.BufferBody | internal/proxy/proxy.go:161-175 | the client's body is read whole, and then also kept for `GetBody`; a read that fails leaves exactly the part read and no `GetBody` |
| Failover.AttemptingTransport.Close | internal/proxy/proxy.go:354-358 | closes the body, then releases the deadline |
| Failover.RoundTripSends | internal/proxy/proxy.go:256-292 | the sends are none, primary, fallback, or primary then fallback, each with the whole body however much of it the primary has read; the fallback is used if and only if the primary was refused or failed, the context is live, the method is idempotent, the body can be sent again, and a configured fallback is admitted |
| Failover.WireIsSendTo | internal/proxy/proxy.go:309-332 | what goes out is the request up to scheme, host and deadline, field by field, with its whole body even when an earlier attempt has used up the reader; the deadline is the earlier of the attempt's own timeout and the request's deadline |
| Failover.EveryAdmissionIsRecorded | internal/proxy/proxy.go:294-305 | the gate is told the outcome of every admitted attempt once, in order and truthfully, and of no refused one |
| Failover.UnavailableMeansRefused | internal/proxy/proxy.go:194-212 | the answer is 503 if and only if limiter or gate refuse the last attempt, the fallback's after a failover and otherwise the primary's; that refusal is then the last event |
| Failover.ResultIsLastAnswer | internal/proxy/proxy.go:256-345 | the result is the last attempt's: the unavailable error if limiter or gate refused it, the replay's error if its body could not be replayed, and otherwise the status or the error that the upstream gave to the last send |
| Failover.StatusOfFailure | internal/proxy/proxy.go:194-212 | 503 for a refusal, else 504 for a deadline, nothing for a client gone, 413 for a body too big and 502 for the rest, in this order |
| Failover.StatusAsDocumented | internal/proxy/proxy.go:243-246 | "no upstream could serve the request" is what 503 means unless the fallback is refused after a tried primary, or an admissible fallback is not used after a refused primary |
| Failover.FailoverAsDocumented | docs/request-flow.md:40-48 | a failover follows a primary that could not be reached if and only if limiter and gate admitted the primary and its body was ready |
| Failover.RefusedFallbackHidesFailure | internal/proxy/proxy.go:280-283 | a run that sends to the primary, which fails, and answers 503 |
| Failover.RefusedPrimaryIgnoresFallback | internal/proxy/proxy.go:269-271 | a POST answered with 503 although its fallback would be admitted |
| Failover.RefusedPrimaryFailsOver | internal/proxy/proxy.go:297-300 | a run in which the limiter refuses the primary and the fallback answers |
| Failover.NoDeadlineLeaks | internal/proxy/proxy.go:309-345 | no deadline survives a failed round trip, and at most the response's own survives a successful one |
| Failover.CloseReleases | internal/proxy/proxy.go:347-358 | closing the body releases exactly that deadline |
| Failover.RoundTripWithinDeadline | internal/proxy/proxy.go:310-314 | no deadline armed and no send of either attempt goes beyond the request's deadline |
| Proxy.L7Proxy.Serve | internal/proxy/proxy.go:108-139 | without a decision nothing is sent and the answer is 404; with one the request is relayed (`Relays`): a send to the upstream decided on if and only if it is admitted and the body is ready, one to its fallback if and only if that failed and the documented conditions hold, each with the client's method, headers and body and the path and query decided, within its own timeout and the ceiling, and the result is the last attempt's answer |
| Proxy.L7Proxy.Forward | internal/proxy/proxy.go:153-192 | the same for any decision; the body sent is what was read, which is the whole body unless reading fails |
| Proxy.RoundTripRelays | internal/proxy/proxy.go:256-285 | a round trip relays the client's request as decided |
| Proxy.Hand | internal/routing/routing.go:325-332 | the transport gets the upstream, target, timeout and fallback that were decided |

## Left out

- `http.Server`, `httputil.ReverseProxy`, `http.Transport`, `Run` and graceful shutdown: network plumbing in libraries.
- YAML decoding, file reading, `fsnotify`, `os.Stat`, `isTargetPath` and signals: steps of the environment that bring an event, an answer, or a document or nothing.
- The regex engine, `url.Parse`, `Atoi`, `ToUpper`, `ToLower`, `net.ParseCIDR`, `ParseIP` and `SplitHostPort`: functions of `Lib`.
- The infrastructure config and its validators: each is one comparison.
- `Validate` on a nil config, and NaN as a mirror ratio: ratios are real numbers.
- The range of `time.Duration`: timeouts are unbounded integers, so the overflow of a timeout of more than 292 years is not modelled.
- The quality of random sampling: `sample` gets an arbitrary number.
- The message that a mirror worker sends and its hop-by-hop header stripping: one request per target, built in a straight line.
- Metrics, logging, `responseWriter` and the mock backend; of `ServeHTTP` and `rewrite` the size limit, the `X-Forwarded` headers (the headers of a request are those after `rewrite`) and the hand-over to the mirror pool.
- A publication during a single lookup or during `finalize`: each reads only the index held, which no publication writes.
- `TrySubmit`, `worker` and `Stop` are steps of a transition system rather than methods on a pool object, because their atomic actions interleave; that a waiting writer holds up new readers is not used.
- The callback of `match` is a function whose result stands for the variables the closure sets.
- A reload is one turn of the monitor; the file may change and time may pass during it, and what the read yields is arbitrary, so a half-written file is covered.
- A reload that is pending when the context ends is dropped by the code; the reload theorems speak about the running loop.
