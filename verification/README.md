# Verification of the node agent's core

A Dafny model of the core of the agent: the routing configuration and its two compilers, the Manager that edits the
configuration transactionally, the supervisor of the kernel process, share links, and the login limiter. `dafny verify
dfyconfig.toml` checks all of it.

* **Routing.** A routing configuration is read by first match over its enabled rules, sorted by priority and inbound
  (`Decision`). The preview, the runtime that is cut down to live nodes, the line list for mihomo and the rule objects
  for sing-box are each proved to decide every request as that reading does, with the exact condition where the code
  deviates. What a domain, address or geo item matches is an arbitrary predicate that every theorem quantifies over.
* **Manager.** `Store` says, on values, what each operation does; the class `Manager` does it in place, on slices with
  shared backing arrays, and every method is proved to end in exactly the specified state. A failure may occur at any
  step of a commit and of a rollback (`Faults`). `Runs` and `Operations` prove invariants over all runs and properties
  across operations; `Effects` says what each operation does to what runs, and `Outcomes` exactly when it is done.
  `Import` is the deduplicating import and `ImportLaws` what it does to one node.
* **Supervisor.** One step per lock section; caller, goroutines and processes interleave in any way.
* **Links.** Base 64, percent-encoding, the URL grammar as Go reads it, the printer, the recursive parser and texts full of
  links. What every field of a node is on the other side of its own link is stated protocol by protocol.
* **Limiter.** The pruned failure lists against a limiter that forgets nothing.

Facts about the code that the theorems make precise:

* An import refused in the middle is not rolled back. What it leaves is valid exactly when it has taken in no new node
  with a blank name; no parsed text contains one, so both callers keep the configuration valid.
* A failed kernel update, or a failed new configuration, leaves the new settings in a kernel of the same type.
* Renaming an outbound takes the traffic counters away from an inbound of the same name.
* The preview reads the saved configuration and may name a disabled outbound.
* In global mode mihomo sends a direct default to the first proxy group.
* An inbound name with a comma passes validation and breaks its rules. So does a port shared by two inbounds: a mihomo
  rule for one catches exactly the other's traffic as well.
* A websocket or trojan node without TLS comes back from its own link with TLS, under the host of its transport.
* A link wrapped in base 64 loses a plain name; a document with an at sign in it, or whose encoding has a slash, is not read.
* Two different nodes share a signature when a bar in one field stands in for the bar between two; an import then takes one
  for the other.
* A start that is refused while a process runs, or a kill that fails, leaves the process alive and not shown as running.
* A forward is refused when a rule called like its own, name-route, is left in the list.
* mihomo can be told to use a proxy that it is not given, and sing-box be given one tag twice; the exact conditions are stated.
* The names given to parsed links need not be distinct; those given by the Manager are.
* A node name with a plus or percent sign does not survive its own share link.

## Model

| member | source | states |
|---|---|---|
| `Config.Validate` | core/config.go:192-285 | the single pass with its sets of seen names accepts a configuration if and only if it is `ConfigOk`, a statement without any order of checks: valid ports, distinct non-empty names, acceptable nodes, a supported mode, a reachable default, and in rule mode distinct rule names and enabled rules that refer to existing nodes |
| `Config.ValidateInbounds` | core/config.go:196-217 | accepts exactly distinct, acceptable inbounds, and then returns exactly their names |
| `Config.ValidateOutbounds` | core/config.go:219-240 | accepts exactly distinct, acceptable outbounds, and then returns exactly their names |
| `Config.ValidateRules` | core/config.go:251-283 | accepts exactly rules with distinct names whose enabled members are well formed and refer to existing nodes |
| `Config.InboundOkIff` | core/config.go:287-343 | an inbound passes validation if and only if its protocol is one of the thirteen listed and each field that this protocol needs is there, gathered field by field over the protocol as it is spelled, with the bounds of the ports |
| `Config.OutboundOkIff` | core/config.go:345-385 | the same for an outbound and its sixteen protocols |
| `Text.SplitCSVItemsClean` | core/kernel.go:854-864 | every item read out of a comma separated value is non-empty, trimmed and free of commas |
| `Text.SplitJoinCSV` | core/manager.go:1048 | joining clean items with commas and splitting again gives the same items, so a port rule may be rejoined before it is split into numbers |
| `Sorting.SortIsStable` | core/kernel.go:1117-1126 | the sorted list is ordered by priority and then inbound, and rules of one key keep their order; nothing is lost |
| `Sorting.SortUnique` | core/kernel.go:1117-1126 | a list that is ordered and keeps the order within every key is the only one: whichever stable sort is used, the result is the same |
| `Sorting.SortFilter` | core/kernel.go:1117-1126 | sorting a filtered list is filtering the sorted list |
| `Sorting.SortMap` | core/kernel.go:1117-1126 | changing rules without touching their keys commutes with sorting |
| `Sorting.SortedRoutingRules` | core/kernel.go:1117-1126 | the copy is sorted in its own array and equals the unique stable sort of the rules |
| `Routing.RoutingRuleMatches` | core/manager.go:1000-1074 | the case analysis with its loops says yes exactly when some item of the rule's value matches under the rule's match type |
| `Routing.InboundRuleReadsItsName` | core/manager.go:1011-1016 | an inbound rule matches exactly the traffic of the inbound it names if and only if that name is one clean item (trimmed, no comma) |
| `Routing.UntypedRule` | core/config.go:416-434 | a rule without a match type matches what the inbound rule for its inbound does, and without an inbound what a domain suffix rule does |
| `Routing.CommaInInboundName` | core/manager.go:1011-1016 | a configuration that passes validation, with an inbound called a,b whose rule matches none of its traffic and all the traffic of the inbound a |
| `Routing.FirstMatchMeaning` | core/manager.go:982-996 | the recursive first match is the rule at the least position that matches, and there is none exactly when no rule matches |
| `Routing.PreviewRouting` | core/manager.go:946-998 | the preview names the outbound the saved routing stands for in each of the three modes; outside direct and global mode the matched rule is the first match among the enabled rules in sorted order, or none, with a hit reported exactly when there is one and under the rule's own name when it has one; in direct and global mode there is no matched rule and the reason says so; the geo warning is given exactly for sing-box when a geo rule takes part in decisions |
| `Routing.NameTellsTheRule` | core/config.go:252-259 | in a valid configuration the name that a hit is reported under belongs to one rule only |
| `Routing.FindFirstMatch` | core/manager.go:982-995 | the loop over the sorted rules finds the first match among the enabled ones |
| `Routing.HasGeoRule` | core/manager.go:974-980 | finds a geo rule exactly when an enabled one exists |
| `Routing.CollectEnabled` | core/manager.go:2359-2377 | keeps the enabled nodes in order and collects exactly their names |
| `Routing.ComputeEnabledRuntime` | core/manager.go:2358-2411 | keeps the enabled nodes, exactly the rules that are enabled and whose nodes are, and turns an empty or dead default into direct |
| `Routing.RuntimeDecision` | core/manager.go:2379-2410 | in rule mode the runtime decides by first match among the sorted live rules, else by the live default |
| `Routing.PreviewIsWhatRuns` | core/manager.go:946-998 | for every valid configuration without a disabled node and every request, in all modes, the preview and the runtime decide alike |
| `Routing.PreviewIsRightIff` | core/manager.go:946-949 | with disabled nodes about, the preview of a request on an enabled inbound is what runs if and only if the outbound it names is not disabled |
| `Routing.DisabledDefault` | core/manager.go:2396-2401 | an instance where it is wrong: a valid configuration with a disabled default, which the preview names while what runs goes direct |
| `Routing.RuntimeOutboundIsEnabled` | core/manager.go:2389-2404 | the runtime never decides for an outbound that is missing or disabled |
| `Mihomo.MihomoRules` | core/kernel.go:1027-1096 | the generator's lines are those of the specification, mode by mode: raw rules first, else MATCH alone, else the lines of the sorted enabled rules and MATCH |
| `Mihomo.AppendRules` | core/kernel.go:1049-1093 | the loop appends exactly the lines of the enabled rules, in order |
| `Mihomo.AppendRule` | core/kernel.go:1053-1092 | one rule adds one line per item of its value, or the port line of its inbound, and nothing else |
| `Mihomo.PortTable` | core/kernel.go:1045-1048 | the table holds the port of the last inbound of each name |
| `Mihomo.RuleLinesPreserveIff` | core/kernel.go:1053-1092 | the lines of a rule agree with the rule on the traffic of an inbound, and send it to the rule's target, if and only if the rule does not name another inbound on the same port; rules of the other match types always agree |
| `Mihomo.RulesLinesCatch` | core/kernel.go:1049-1093 | whatever the ports, the lines of all rules send a request where the first rule sends it that matches it or is misled by the port |
| `Mihomo.MihomoReadsPorts` | core/kernel.go:1043-1096 | the same for the whole list in rule mode, with the default for what no rule catches: the exact reading of the output without any assumption on ports |
| `Mihomo.MihomoPreservesMeaning` | core/kernel.go:1027-1096 | for every valid configuration without raw rules and every request on an enabled inbound (clean names; in rule mode no live rule naming another inbound on its port), the first matching line has the target of the routing's decision, in all modes, if and only if global mode does not replace a direct default by the first proxy group |
| `Mihomo.DirectBecomesGroup` | core/kernel.go:1032-1036 | an instance of that replacement: global mode without a default, previewed as direct, is sent to the group that is written unasked |
| `Mihomo.MihomoDoesWhatThePreviewSays` | core/kernel.go:1027-1096 | with nothing disabled, mihomo sends every request where the preview says, under the same condition on ports and with the same exact exception |
| `Mihomo.SharedPort` | core/kernel.go:1045-1059 | an instance of a misled rule: two valid inbounds on one port, where the line for one catches the traffic of the other |
| `Mihomo.MihomoProxies` | core/kernel.go:714-805 | the proxies are the outbounds with an address and a protocol that mihomo is given, in order |
| `Mihomo.EmittedIff` | core/kernel.go:717-803 | of the valid outbounds with an address exactly the direct, tcp and udp ones are not written |
| `Mihomo.MihomoTargetsKnownIff` | core/kernel.go:714-1096 | for every valid configuration, every line names DIRECT, a group or a proxy that is written if and only if no live outbound that decides traffic lacks an address or has a protocol that is not written, without a group of its name to stand in |
| `Mihomo.StrandedDefault` | core/kernel.go:717-803 | an instance where it fails: a tcp outbound is valid as the default and is no proxy |
| `SingBox.SingBoxRules` | core/kernel.go:662-699 | the rule objects are those of the sorted, enabled, non-geo rules of supported types, in order; none outside rule mode |
| `SingBox.RuleObjectPreserves` | core/kernel.go:672-695 | the condition list of a rule object matches exactly the requests the rule matches, ports compared as numbers |
| `SingBox.RoutePreserves` | core/kernel.go:662-699 | running the rule objects in order is taking the first match among the rules |
| `SingBox.SingBoxPreservesMeaning` | core/kernel.go:662-708 | rule objects plus `final` decide every request, in all three modes, as the configuration with all geoip and geosite rules removed |
| `SingBox.SingBoxDecides` | core/kernel.go:662-708 | in rule mode sing-box decides a request as the configuration does, unless the first match is a geo rule; then the first match among the other rules decides |
| `SingBox.SingBoxDoesWhatThePreviewSays` | core/manager.go:973-981 | with nothing disabled and where the preview for sing-box gives no geo warning, sing-box sends every request where the preview says, in all modes and whatever geo rules are disabled |
| `SingBox.SingBoxInbounds` | core/kernel.go:426-498 | one entry per inbound, two where shadow-tls hands over to a second one, with the tags and detours of the specification |
| `SingBox.SingBoxOutbounds` | core/kernel.go:547-660 | the direct entry, then per outbound its entries with their tags and detours |
| `SingBox.DetourDirection` | core/kernel.go:426-660 | wherever an object hands over, it is the one under the node's own name: a shadowtls inbound to its shadowsocks, a shadowsocks outbound over shadowtls to its shadowtls |
| `SingBox.NoDanglingTags` | core/kernel.go:426-699 | for every valid configuration with clean inbound names, every outbound and inbound of a rule, `final` and every detour in the output names an emitted tag |
| `SingBox.InboundTagsDistinctIff` | core/kernel.go:426-498 | the tags of the inbounds are distinct if and only if none is called what the second object of a shadowtls inbound is called |
| `SingBox.OutboundTagsDistinctIff` | core/kernel.go:547-660 | the tags of the outbounds and of the direct one that is always written are distinct if and only if no outbound is called direct or what the second object of a shadowsocks outbound over shadowtls is called |
| `SingBox.DirectTwice` | core/kernel.go:548-553 | an instance where they are not: a valid outbound called direct |
| `Legacy.NormalizeRoutingConfig` | core/config.go:445-460 | fills in an absent mode and compacts the legacy rules away in the array they came in |
| `Legacy.NormalizingKeepsDecisions` | core/config.go:445-470 | a normalized configuration decides every request as before, except one that a legacy rule of the bypass preset decided; that one goes where the remaining rules send it |
| `Legacy.NormalizingKeepsValidity` | core/config.go:445-460 | a valid configuration stays valid when it is normalized |
| `Legacy.LegacyExamples` | core/config.go:462-470 | a rule with the domains that the earlier release wrote is dropped exactly when it sends them direct |
| `Slices.Clone` | core/manager.go:195-209 | the copy has the same elements and shares no array with the original |
| `Slices.Append` | core/manager.go:2156 | appends, in spare capacity of the same array or in a new one |
| `Slices.Compact` | core/manager.go:2159-2191 | deleting over `items[:0]` leaves, in the same array, exactly the elements to keep, in order |
| `Slices.UpsertInPlace` | core/manager.go:2139-2157 | overwrites the first entry of the name where it stands, else appends |
| `Slices.RenamedRules` | core/manager.go:2193-2201 | the renamed rules are a fresh array; the rules that were given are not touched |
| `Store.UpsertKeyed` | core/manager.go:2139-2157 | an upsert keeps names distinct and list and map in step, and appends exactly when the name is new |
| `Store.RemoveKeyed` | core/manager.go:2159-2177 | a removal keeps names distinct and list and map in step |
| `Store.MapOfKeyed` | core/manager.go:284-295 | the map built over a list of distinct names holds exactly its elements |
| `Manager.Manager.TakeSnapshot` | core/manager.go:211-246 | the snapshot has the value of the whole state and shares no array with it |
| `Manager.Manager.Restore` | core/manager.go:248-257 | the state is again the value of the snapshot, in fresh arrays |
| `Manager.Manager.ApplyKernel` | core/manager.go:1930-1968 | fails with the first failing step; on success the kernel runs exactly the live part of the configuration |
| `Manager.Manager.CommitAll` | core/manager.go:1911-1928 | fails for an invalid configuration or the first failing step, else the kernel runs the live part |
| `Manager.Manager.CommitWithRollback` | core/manager.go:259-269 | wherever the commit fails the whole state is the snapshot's again, and the kernel is told to run that |
| `Manager.Manager.constructor` | core/manager.go:180-193 | a new Manager holds nothing |
| `Manager.Manager.ApplyConfig` | core/manager.go:271-308 | takes over an enriched, valid configuration and rebuilds maps and rules from it, or changes nothing of the state, wherever validation, the kernel switch or the commit fails; a failure after validation leaves the new settings in a kernel of the same type |
| `Manager.Manager.CreateProxy` | core/manager.go:539-600 | adds an inbound of a new name to list and map and commits; any error leaves every part of the state as it was |
| `Manager.Manager.CreateForward` | core/manager.go:602-651 | adds the inbound and a rule behind all others to both copies and commits; any error leaves the state as it was |
| `Manager.Manager.UpsertInbound` | core/manager.go:653-681 | adds or overwrites an inbound in place and commits; any error leaves the state as it was, although the overwritten array is the Manager's own |
| `Manager.Manager.UpsertOutbound` | core/manager.go:683-733 | adds, overwrites or renames an outbound, carrying rules, default, counters and health over to a new name; any error leaves the state as it was |
| `Manager.Manager.ImportAll` | core/manager.go:760-817 | the loop does item by item what the batch specification says, stopping with the items before a bad one in place, and counts what it did |
| `Manager.Manager.ImportOutboundsReport` | core/manager.go:747-822 | a failed commit restores everything; a bad item in the middle returns without restoring, leaving exactly the items before it; the report of a committed import is that of the whole batch, whose items `ImportLaws` describes one by one |
| `Manager.Manager.UpdateRoutingConfig` | core/manager.go:937-944 | takes over the new routing in both copies and commits; any error leaves the state as it was |
| `Manager.Manager.UpdateMihomoConfig` | core/manager.go:531-537 | sets the mihomo settings and commits; any error leaves the state as it was |
| `Manager.Manager.ConfigureKernel` | core/manager.go:489-503 | reconfigures a kernel of the same type where it stands, replaces one of another type once it has stopped |
| `Manager.Manager.UpdateKernelConfig` | core/manager.go:473-503 | any error leaves the state and the kernel object as they were, yet a kernel of the same type keeps the new settings: a rollback does not undo `Configure` |
| `Manager.Manager.DeleteNode` | core/manager.go:1145-1177 | removes a node and the rules that refer to it, compacting three lists in place, and commits; any error leaves the state as it was |
| `Manager.Manager.DeleteNodes` | core/manager.go:1179-1221 | removes a batch when all of it exists and commits; any error leaves the state as it was |
| `Manager.Manager.SetNodeEnabled` | core/manager.go:1223-1255 | does in place what `Store.SetEnabled` says, which `Effects.SetNodeEnabledRuns` pins; any error leaves the state as it was |
| `Manager.Manager.SetNodesEnabled` | core/manager.go:1257-1304 | does in place what `Store.SetNodesEnabled` says when all of the batch exists, which `Effects.SetNodesEnabledRuns` pins; any error leaves the state as it was |
| `Manager.Manager.RecordHealth` | core/manager.go:1329-1331 | what a probe writes is the event `Probed` of a run |
| `Manager.Manager.MarkSubscription` | core/manager.go:928-935 | noting that a subscription was fetched is the event `Fetched` of a run; a nameless one is not noted |
| `Manager.EnrichInPlace` | core/manager.go:272-274 | completes every outbound from its link, in the caller's own array |
| `Runs.RunsStayGood` | core/manager.go:271-1304 | over every run of operations, committed, refused or failed anywhere, list names are distinct, each map holds exactly the elements of its list under their names, the rule list equals the configured rules, and every outbound has counters and health |
| `Runs.NewManagerGood` | core/manager.go:180-193 | a new Manager satisfies that invariant |
| `Runs.ValidOrUnchanged` | core/manager.go:259-269 | every event but an import that stops midway ends in a valid configuration or in the one before, and an operation that returns an error changes nothing at all |
| `Runs.EventKeepsValidIff` | core/manager.go:747-822 | after any event on a valid, consistent state the configuration is valid if and only if the event is not an import that stops midway after it has taken in a new node with a blank name |
| `Runs.RunsStayValid` | core/manager.go:271-1304 | over every run whose imports are of items with a name that is not blank, stopped imports included, a valid configuration stays valid |
| `Runs.RunsOfTextsStayValid` | core/manager.go:747-822 | over every run whose imports are of parsed texts, whatever the texts, as both callers have it, a valid configuration stays valid |
| `Outcomes.DoneIff` | core/manager.go:271-1304 | for every operation but the import, on a valid, consistent state: it is done if and only if a condition that a caller can read off the configuration beforehand holds (`Feasible`, operation by operation) and no step of the commit fails; then the configuration is valid, and otherwise nothing has changed |
| `Outcomes.CreateForwardDone` | core/manager.go:602-651 | a forward is accepted if and only if its request is well formed, its name is new among the inbounds and, in rule mode, no rule is called name-route already: a rule left under that name stops it |
| `Outcomes.WithoutValidIff` | core/config.go:246-283 | removing a set of nodes with the rules that refer to them leaves a valid configuration valid if and only if the default outbound is not among them, unless that is direct |
| `Effects.SetNodeEnabledRuns` | core/manager.go:1223-1255 | once a node has been switched it is among those the kernel is given if and only if it was switched on, and every other node is if and only if it was before |
| `Effects.SetNodesEnabledRuns` | core/manager.go:1257-1304 | the same for every item of a batch and every node not named in it |
| `Effects.UpsertInboundRuns` | core/manager.go:653-681 | a stored inbound runs exactly when it is enabled as given; every other node runs as before, the routing is the same, and a name not seen before starts with empty counters |
| `Effects.UpsertOutboundRuns` | core/manager.go:683-733 | a stored outbound runs exactly when it is enabled as given, the one it was renamed from runs no more, every other node runs as before, and the map holds exactly that |
| `Effects.CreateProxyRuns` | core/manager.go:539-600 | a new proxy is handed to the kernel behind all other inbounds, an empty protocol as socks, unless it is disabled, and every request is decided as before |
| `Effects.CreateForwardRuns` | core/manager.go:602-651 | a new forward listens on its port for tcp, or udp if so asked, with its target; in rule mode its traffic goes direct unless a rule that was there matches it, and every other request is decided as before, where priorities leave room and the name is clean |
| `Effects.UpdateRoutingRuns` | core/manager.go:937-944 | a new routing decides every request from then on in its own mode, by those of its rules that are live among the nodes that ran before |
| `Effects.DeleteNodesRuns` | core/manager.go:1179-1221 | after a batch delete none of its nodes runs and exactly the rules that refer to none of them are left; every other node runs as before |
| `Effects.ApplyConfigRuns` | core/manager.go:271-308 | after a new configuration is applied exactly the nodes run that it enables, under its routing and its kind of kernel, whatever the completion from links adds |
| `Effects.ImportLeavesSwitches` | core/manager.go:747-822 | an import that keeps the users' setting of disabled leaves each existing outbound running or not as it was |
| `Effects.RunsKeepCounters` | core/manager.go:271-1304 | over every run the traffic counters of a name outlive every event but a rename from or to it: deleting, switching, importing, replacing the configuration and every failure |
| `Operations.RenameRenamesDecisions` | core/manager.go:683-733 | after a successful rename every request is decided as before with the old name replaced by the new, if and only if it is not one that goes direct unnamed while an outbound called direct is renamed |
| `Operations.RenameKeepsInboundsWatchedIff` | core/manager.go:700-733 | a rename leaves every inbound its counters if and only if no inbound bears the old name; inbounds and outbounds share one map, and the listing of nodes reads it unguarded |
| `Operations.RenameTakesCounters` | core/manager.go:700-733 | an instance where it does not: an inbound and an outbound of one name, both valid before and after the rename |
| `Operations.DroppedAllIsWithout` | core/manager.go:1179-1221 | deleting items one after the other is one set-based removal, with the survivors in their order |
| `Operations.DeleteIsOrderIndependent` | core/manager.go:1179-1221 | reordering or repeating the items of a batch delete changes neither its outcome nor its result |
| `Operations.DeletingTheDefaultFails` | core/config.go:246-250 | a batch that contains the current default outbound always fails and changes nothing |
| `Operations.KernelFiles` | core/manager.go:505-529 | a kernel never gets the other one's default program or file nor the placeholder's file, what is no default is kept, and normalizing twice changes nothing |
| `Operations.ForwardRuleComesLast` | core/manager.go:2348-2356 | the rule of a new forward sorts behind every other if and only if the highest priority leaves room for ten more in 64 bits |
| `Operations.StoppedImportCanInvalidate` | core/manager.go:782-793 | an instance of an import that leaves an invalid configuration: a batch, as no parser produces it, with a blank name before a bad item |
| `Import.FreshNameIsFresh` | core/manager.go:2203-2214 | the name found is not in use, and is the first free candidate, after at most one more try than there are outbounds |
| `Import.UniqueOutboundName` | core/manager.go:2203-2214 | the loop ends, with that name |
| `Import.ImportAccounting` | core/manager.go:755-821 | under every dedup strategy added, updated and unchanged items together are the batch and the details, the outbounds grow by exactly the number added, and no name disappears |
| `Import.StoppedImportKeepsPrefix` | core/manager.go:782-793 | an import that stops at a bad item leaves exactly what the items before it added |
| `Import.ImportStopsIff` | core/manager.go:782-793 | unless users keep their transport, an import stops if and only if some item is unacceptable as it comes, whatever is there already and whichever nodes it matches |
| `Import.ImportLeavesValidIff` | core/manager.go:760-817 | stopped or finished, an import into a valid configuration leaves a valid one if and only if no item that it reaches is new and has a blank name |
| `Import.NamedImportLeavesValid` | core/manager.go:760-817 | a batch of items whose names are not blank leaves a valid configuration, whatever is wrong with the other fields |
| `Import.MergeKeepsIdentity` | core/manager.go:2259-2291 | keeping user fields other than the transport never changes what identifies a node |
| `ImportLaws.EnrichRestores` | core/manager.go:310-335 | a node whose fields were emptied and whose link gives them back is completed to what it was |
| `ImportLaws.EnrichKeepsOwn` | core/manager.go:310-335 | completion keeps what a node has, takes what it lacks from the link, touches no other field, and does nothing without a link |
| `ImportLaws.SignatureSeparatesIff` | core/manager.go:2293-2306 | for nodes without a bar in their fields two signatures are equal if and only if the ten identifying fields are |
| `ImportLaws.BarsCollide` | core/manager.go:2293-2306 | an instance of two different nodes with one signature: a bar in the uuid and a bar in the password |
| `ImportLaws.MergeTakesListed` | core/manager.go:2259-2291 | a field is the existing node's when it is listed and the incoming one's otherwise, for each of the ten user fields and in whatever order and number they are listed |
| `ImportLaws.KeptFieldsIff` | core/manager.go:2252-2291 | which fields are kept, over the texts of the list: each under its spellings whatever their case and the white space around, and those kept by default when no list is given |
| `ImportLaws.MatchedIff` | core/manager.go:2226-2238 | whether an item is matched: never, by a name in use, or by a signature in use, as the strategy says |
| `ImportLaws.MatchIsInUse` | core/manager.go:2216-2238 | the node an item is matched with is there, and has the item's name or its signature, as the strategy says |
| `ImportLaws.MatchedItem` | core/manager.go:762-781 | a matched item keeps the existing name, takes every kept field from the existing node and every other from what came in; it is reported unchanged exactly when both agree in all that is compared, and its name as preserved exactly when it came under another |
| `ImportLaws.UnmatchedItem` | core/manager.go:762-781 | an item that is not matched is added under a name not in use, its own if that is free, and otherwise as it came in |
| `ImportLaws.IncomingFromSubscription` | core/manager.go:2240-2250 | what comes in from a subscription bears its name, its group or its own or else the subscription's name, and prefix and suffix around the node's name |
| `ImportLaws.ImportKeepsFields` | core/manager.go:747-822 | through a whole batch, stopped or finished, a kept field of an existing outbound stays what it was |
| `ImportLaws.ImportKeepsDisabled` | core/manager.go:747-822 | a node that the user has disabled stays disabled, and an enabled one enabled, under preserved user fields with no list or a list with disabled or enabled in it |
| `Import.ImportAddsSignatures` | core/manager.go:2216-2306 | under the equivalent strategy without a kept transport an import adds the signatures of its batch and removes none, whichever equivalent node a walk over the map comes upon |
| `Import.ImportOfKnownAddsNothing` | core/manager.go:2216-2306 | a batch whose signatures are all there is accepted, adds nothing and keeps all names |
| `Import.ReimportAddsNothing` | core/manager.go:747-822 | after a committed import, importing the same batch again with the same options adds nothing and keeps the number of outbounds |
| `Supervisor.ReachableInv` | core/kernel.go:132-226 | the protocol invariant holds after every interleaving of caller, goroutines and processes |
| `Supervisor.StepInv` | core/kernel.go:132-226 | every step of every party keeps it |
| `Supervisor.ReapEffect` | core/kernel.go:172-187 | the goroutine that gets the lock finds its own process and its own open channel in the shared fields |
| `Supervisor.AtMostOneUnfinished` | core/kernel.go:132-226 | in every interleaving at most one spawned process has not been waited for |
| `Supervisor.ChannelsClosedOnce` | core/kernel.go:161-177 | every channel is closed at most once, by the goroutine of the process it was made for, and by the time that goroutine is done |
| `Supervisor.FieldsAgreeAlways` | core/kernel.go:159-186 | `cmd` and `waitDone` are set together at every lock release, and a running kernel shows the pid of `cmd`; the converse is `Supervisor.StartedIsShown` |
| `Supervisor.StoppedMeansDead` | core/kernel.go:191-226 | once a stop has returned without error no process is alive until the next start |
| `Supervisor.StartedIsShown` | core/kernel.go:159-186 | after a start that succeeded, in every interleaving, the kernel counts as running exactly until its process has been waited for, with the pid of that process, and a process that is alive is the one shown |
| `Supervisor.NothingElseIsShown` | core/kernel.go:132-226 | after a stop, and after a start or stop that failed, the kernel does not count as running and shows no pid |
| `Supervisor.StartedWasLaunched` | core/kernel.go:157-188 | a start reports success only by launching the goroutine of the process it has just published as running |
| `Supervisor.StopReported` | core/kernel.go:191-226 | a stop reports success only when nothing was left to stop or the process has been waited for, and leaves no process published |
| `Supervisor.RefusedStartHidesProcess` | core/kernel.go:132-150 | an instance of a running process that is not shown: a start refused for want of an executable while the process of the last one is alive |
| `Supervisor.FailedKillKeepsProcess` | core/kernel.go:206-210 | after a kill that failed the process is still the published one, so the next stop or start deals with it |
| `Limiter.LimiterRefinesHistory` | core/auth.go:246-283 | over every run with a clock that does not go back, the pruned lists answer every attempt as the full history since the last success would |
| `Limiter.ListsStayShort` | core/auth.go:265-273 | no list ever holds more than six failures |
| `Limiter.BlockedIff` | core/auth.go:246-263 | over every ordered list of attempts, one is turned away unseen if and only if at least six attempts of its user were denied within the 15 minutes before it and since his last success; any other succeeds if and only if the password is right |
| `Limiter.UserKeyTrims` | core/auth.go:82-100 | a name is looked up without the white space around it, and a blank one is the administrator's |
| `Limiter.SevenFailuresTakeLong` | core/auth.go:81-89 | any stretch of attempts with seven denials of one user and no success of that user lasts at least 15 minutes, whatever other attempts and blocked ones lie between |
| `Limiter.Auth.LoginBlocked` | core/auth.go:246-263 | prunes the user's list to the window and blocks exactly at six failures |
| `Limiter.Auth.Login` | core/auth.go:81-111 | does to the lists what one attempt of the specification does, and succeeds only for an accepted attempt whose token could be drawn |
| `Base64.DecodeRawInverts` | core/link_parser.go:533-546 | decoding unpadded base 64 inverts encoding, for all bytes and both alphabets (sections 4 and 5 of RFC 4648) |
| `Base64.AlphabetsAgree` | core/link_parser.go:538-545 | a text of one alphabet that the other alphabet also accepts decodes to the same bytes, so guessing does no harm |
| `Base64.DecodeBase64String` | core/link_parser.go:533-546 | the loop over the four encodings returns the first non-empty decoding of the stripped text |
| `Base64.DecodeAnyInvertsAll` | core/link_parser.go:533-546 | for every non-empty byte string and each of the four encoders, the guessing decoder returns the bytes |
| `Base64.DecodeAnyShortens` | core/link_parser.go:533-546 | what is decoded is non-empty and at most three quarters as long as its source |
| `Base64.ForeignCharacterIsRefused` | core/link_parser.go:258-283 | a text with a character of neither alphabet in it, such as the colon of host:port, never decodes |
| `Base64.RfcVectors` | core/link_parser.go:538-545 | vectors of section 10 of RFC 4648 |
| `Base64.AlphabetsDiffer` | core/link_parser.go:538-545 | the two characters that set the alphabets of sections 4 and 5 of RFC 4648 apart |
| `Base64.LineBreaksIgnored` | core/link_parser.go:533-546 | a line break anywhere inside an encoded text makes no difference |
| `Url.UnescapeQueryEscape` | core/share.go:233 | unescaping inverts percent-encoding (section 2.1 of RFC 3986) in a query, and elsewhere up to a plus for each space |
| `Url.EscapeExamples` | core/share.go:233 | how the library writes a space, a slash, a tilde, a percent sign and a foreign byte in a query, and some of them in a fragment |
| `Url.ParseEncodedValues` | core/share.go:253 | parsing an encoded query gives the same keys and values |
| `Url.ParseLink` | core/link_parser.go:249-252 | a link put together from scheme, authority, query and escaped fragment is taken apart into these (section 3 of RFC 3986) |
| `Url.RebuiltHost` | core/link_parser.go:258-283 | however the decoded text is cut by the parser, the host that comes out of a rebuilt link is no longer than that text |
| `Links.RebuiltPayloadShrinks` | core/link_parser.go:258-283 | the payload of the link that is parsed next is strictly shorter, although the link itself may be longer: the recursion ends |
| `Links.ReadLink` | core/link_parser.go:248-386 | reading in the order of the source, with its recursion, gives the specified node or error |
| `Links.FillFields` | core/link_parser.go:285-341 | filling the record and patching it gives the fields the query stands for |
| `Links.PatchCredentials` | core/link_parser.go:343-378 | patching by scheme gives the credentials the user information stands for |
| `Links.PrintLink` | core/share.go:224-338 | setting the query entries one after the other prints the specified link or reports that there is none; that the link says what it should is `Links.PrintThenParse` |
| `Links.SSUserinfoRoundTrip` | core/link_parser.go:442-454 | the encoded user information of a shadowsocks link is read as cipher and password if and only if the cipher has no colon |
| `LinkQuery.RealityQuery` | core/share.go:239-244 | the printed query of a reality node carries its server name, key, short id and fingerprint, and none of the aliases the parser would prefer |
| `LinkQuery.QueryRoundTrip` | core/share.go:224-338 | what a query reads as, once printed and parsed, are the fields of the node that a link of its protocol carries |
| `LinkQuery.NameAliases` | core/link_parser.go:296-341 | a server name is read under any of four keys, a key of reality and a path under three |
| `LinkQuery.KeyAliases` | core/link_parser.go:296-341 | a short id is read under three keys, a fingerprint, a host and the password of an obfuscation under two |
| `LinkQuery.InsecureAliases` | core/link_parser.go:296-341 | certificates go unchecked exactly when one of three keys is 1 |
| `LinkQuery.TlsKeys` | core/link_parser.go:285-341 | TLS is on for 1 under its own key, and for a security of tls or reality in any case |
| `LinkQuery.FlowNames` | core/link_parser.go:503-512 | the flow of an xtls link is given by a number, a short name or in full |
| `LinkQuery.TransportNames` | core/link_parser.go:285-341 | the transport is given under its own key or by the name of an obfuscation |
| `Links.PrintThenParse` | core/share.go:224-324 | for every vless, trojan, shadowsocks, anytls, hysteria2 and tuic node with a plain host, a valid port and a non-empty trimmed name, parsing the printed link gives back every field that a link of its protocol carries (`Recovered`, spelled out by `Links.RecoveredFields`), under the name that `RecoveredName` says |
| `Links.RecoveredFields` | core/share.go:224-338 | what comes back, protocol by protocol: path, host and transport of vless and trojan (tcp as no transport), the flow of vless, the server name (or the transport's host in its place), obfuscation, ports and rates of hysteria2, congestion control, relay mode and alpn of tuic, the reality fields, and the credentials |
| `Links.TlsSurvivesIff` | core/link_parser.go:343-378 | the TLS setting comes back if and only if, without TLS, the node has neither a server name nor a host of its transport, or, with TLS, it has one of them or is vless or trojan |
| `Links.HostTurnsTlsOn` | core/link_parser.go:343-378 | an instance: a valid websocket node without TLS comes back with TLS, under the host of its transport |
| `Links.ProtocolRead` | core/link_parser.go:475-490 | which protocol each scheme stands for, over the spelling of both |
| `Links.BuiltIsAcceptableIff` | core/link_parser.go:285-386 | a link gives no node exactly when it has no port or no host, and the node it gives passes validation exactly when the credentials its scheme needs are there |
| `Wrapping.WrappedReadsSame` | core/link_parser.go:258-283 | a link whose user information, host and port are encoded as one word gives the same fields as the plain link, under the name of scheme and address wherever the fragment is written in the library's own way |
| `Wrapping.PlainNamesAreLost` | core/link_parser.go:258-283 | the plainest names, of letters, digits and - _ . ~, are lost by such a link |
| `Wrapping.DocumentLinkReads` | core/link_parser.go:258-283 | a link holding a JSON document in any of the four encodings is handed to the decoder under its scheme, provided its encoding has no slash and the document no at sign |
| `Wrapping.V2raynLinkReads` | core/link_parser.go:268-276 | a v2rayn link names the protocol in the place of the host and holds the document behind the slash |
| `Links.UnescapeFailsIff` | core/link_parser.go:463 | unescaping fails if and only if some percent sign is not followed by two hexadecimal digits |
| `Links.NameSurvivesIff` | core/link_parser.go:462-467 | the name comes back unchanged if and only if it has neither plus nor percent sign or, where some percent sign is not followed by two hexadecimal digits, has no space: the fragment is unescaped twice |
| `Links.PlusDoesNotSurvive` | core/link_parser.go:462-467 | an instance: the name a+b comes back as a b |
| `Subscription.ExtractLinkCandidates` | core/link_parser.go:84-99 | finds the quoted or bare words that hold a link, else looks into the decoded text; it ends because decoding shortens |
| `Subscription.QuotesFallAway` | core/link_parser.go:84-90 | a link in single or double quotes is read as the link |
| `Subscription.ParseOutboundLinksDetailed` | core/link_parser.go:49-74 | the loops, the in-place renaming and the recursion give the specified outbounds and the numbered errors |
| `Subscription.ItemsAccounted` | core/link_parser.go:60-74 | every candidate gives, in order, the next outbound or the next error, which bears its number from one on and its first 160 characters |
| `Subscription.UniqueOutbounds` | core/link_parser.go:637-654 | the counter map numbers the second, third, ... item of each name, in place, and cuts names to 80 bytes |
| `Subscription.NumberingSeparatesIff` | core/link_parser.go:637-654 | where no name is cut or cleaned, the numbered names are distinct if and only if no item is already called what a repetition of another name is numbered as |
| `Subscription.NamesCanCollide` | core/link_parser.go:637-654 | the names a, a, a-2 become a, a-2, a-2 |
| `Subscription.LongNamesCollide` | core/link_parser.go:656-663 | nodes of one name of at least 80 bytes are all given one name: the number is cut off |
| `Subscription.EncodedSubscriptionReadsSame` | core/link_parser.go:49-99 | a text served in any of the four encodings is read as the text itself |
| `Subscription.ExportedNodesComeBack` | core/link_parser.go:49-74 | nodes printed as links, a line each, are all parsed again, in order and without an error |
| `Subscription.ExportedNamesComeBack` | core/link_parser.go:49-74 | under distinct names that a link and the numbering leave alone, they come back under these names |
| `Subscription.ParsedItemsAreNamed` | core/link_parser.go:637-663 | every outbound parsed from any text, link or document, has a name that is not blank, under all import options |
| `Subscription.ImportOfTextLeavesValid` | core/manager.go:848-854 | importing what any text parses to, stopped or not, leaves a valid configuration valid |

## Left out

- Case folding and white space are those of ASCII; a string is a sequence of bytes.
- The library's sort is represented by an insertion sort; `Sorting.SortUnique` shows that every stable sort gives the same list.
- Mihomo.MihomoPreservesMeaning: says nothing of raw mihomo rules, which are passed through, and writes a line as a value (kind, item, target), so that a comma in the name of an outbound, which would split the line of text, does no harm here; a port item that is no port matches nothing.
- SingBox.NoDanglingTags: keeps only tags and detours of the generated objects; TLS, transport and the other options of a node are field copies.
- Links.PrintThenParse: leaves out vmess, http, socks and shadowtls links, which `others` prints, and passwords with spaces come back with plus signs, as the code has it.
- Links.RecoveredFields: skipping the check of certificates, the group and the subscription of a node are in no link.
- Outcomes.DoneIff: leaves out imports, for which `Import.ImportStopsIff` and `Import.ImportLeavesValidIff` are the exact conditions.
- Effects.CreateForwardRuns: asks for a clean name and for room above the highest priority; `Routing.InboundRuleReadsItsName` and `Operations.ForwardRuleComesLast` are the exact conditions.
- Wrapping.WrappedReadsSame: is about the nodes of `Links.PrintThenParse`.
- Links.PrintLink: the spelling hy2, which validation refuses for a node, is left to `others` as well.
- Links.ReadLink: reads JSON payloads through the parameters `share` and `shadow`; a URL without a scheme is an error at once; the inside of a bracketed host is not validated; a host with several colons is refused, as current releases of the library do; idle timers and the alter id are not read.
- Subscription.ParseOutboundLinksDetailed: reads YAML and JSON documents through a parameter, and keeps of an error its number and its input.
- Subscription.NumberingSeparatesIff: is about names that are not cut at 80 bytes and have no line ends; `Subscription.LongNamesCollide` says what cutting does.
- Runs.RunsStayValid: excludes imports of items with a blank name, for which `Operations.StoppedImportCanInvalidate` is the counterexample and `Runs.EventKeepsValidIff` the exact condition.
- Import.ImportStopsIff: with a kept transport, whether an item is acceptable depends on the node it is matched with.
- Mihomo.MihomoTargetsKnownIff: members of the proxy groups are not looked at.
- Manager.Manager.ApplyConfig: requires that the list of outbounds is not the Manager's own, since it is completed in place before anything is checked; a caller that passes the list of `ConfigSnapshot` back in is not covered.
- Manager.Manager.CommitAll: says nothing of the files and database rows that the earlier steps of a failed commit have written; the code does not take them back.
- Manager.Manager.ImportOutboundsReport: the parser that completes a node from its link is any function here, `Links.ParseOutboundLink` among them; warnings and node views are not part of the report.
- Manager.Manager.ConfigureKernel: that no two kernels run during a switch of type that is rolled back is not claimed.
- Manager.Manager.TakeSnapshot: traffic counters are values here, so the sharing of counter objects, sampling them and the time stamps of health are not modelled; the mihomo settings are values too.
- Supervisor.ReachableInv: is about the external kernels and one caller at a time, as the Manager's lock makes it; concurrent callers, log pipes and the placeholder kernel are not modelled.
- Limiter.LimiterRefinesHistory: attempts follow one another; sessions, password hashes and tokens are parameters.
- Node views, listing, health probes, diagnosis, certificates and key generation.
- Restoring from the history and the file watcher: they end in `ApplyConfig`, after `Legacy.NormalizeRoutingConfig`.
- Inbound share links and the choice of a public host: string tables.
- HTTP handlers, the web interface, backups, logging and system detection.
