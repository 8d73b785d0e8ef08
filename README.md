# Mininet network object, modelled in Dafny

This project models the `Mininet` class of `mininet/net.py`, the object that
owns an emulated network's bookkeeping:

- the allocators. `nextIP` gives each host its default address, `nextCore`
  pins hosts round robin over the CPU cores, and `listenPort` gives each
  switch a port;
- the node registry. The role lists `hosts`, `switches` and `controllers`
  keep insertion order, `nameToNode` maps names to nodes, and `get`,
  `net[name]`, `iter(net)`, `len(net)` and `name in net` read them;
- the run-time changes: `addHost`, `removeHost`, `addSwitch`,
  `addController`, `addLink` and `removeLink`;
- `build` (and `buildFromTopo`), `start`, `stop` and `waitConnected`;
- `randMac`.

The model is imperative where the source is. `Net.Mininet` is a class whose
methods update its fields in place and keep the invariant `Valid()`:
- the counters are in range;
- `listenPort` is the base port moved on once per switch;
- each role list holds nodes of that role; `hosts` and `switches` hold each
  node once, while `controllers` may repeat a ready controller passed twice
  to `addController`;
- every registered name maps to a node of that name in one of the lists.

Hosts, switches, controllers and links are opaque handles: classes with
constant fields, compared by reference as Python compares them. The calls
the network makes on them are appended to a ghost `trace` of events:
`start`, `stop`, `terminate`, `batchStartup`, `batchShutdown`, `delete`,
`attach`, and the calls `build` makes. Pure functions specify those traces:
- `Lifecycle.StartEvents` and `Lifecycle.StopEvents` for `start` and `stop`;
- `Waiter.WaitFrom` for `waitConnected`. It uses the corrected final
  re-check (see Findings); the re-check as written is
  `Waiter.RecheckAsWrittenFrom`;
- `LinkOps.LinkOptions` for the options `addLink` passes;
- `Allocation.HostDefaults` and `Allocation.SwitchDefaults` for the node
  defaults.

The properties proved about those functions are the ones below.

Some of the environment becomes parameters:
- the answers switches give to `connected()`, as an oracle
  `connected(round, switch)`;
- the draws of `random.randint`;
- the number of cores `numCores()` reports;
- the switch sets a class's `batchShutdown` reports as stopped;
- the terminals `startTerms` spawns;
- which switch classes have `batchStartup`/`batchShutdown` and which are
  `OVSSwitch` subclasses.

Python classes are natural-number tags. `sorted(..., key=type)` sorts by
that tag.

The source is Python 2 code (it uses the builtin `basestring`). There,
`time > None` is true, so with `timeout=None` the test at
`mininet/net.py:208` never breaks the loop. The model has exactly that
behaviour.

## Model

| member | source | states |
|---|---|---|
| Mac.ForceUnicastLocal | mininet/net.py:383-384 | masking with `0xfeffffffffff` and setting `0x020000000000` gives a unicast, locally administered address whose first octet has bit 0 clear and bit 1 set; the other 46 bits are the draw's |
| Mac.RandMac | mininet/net.py:380-384 | every address `randMac` can return is unicast and locally administered |
| Mac.ForceFixesAdmissible | mininet/net.py:383-384 | every unicast, locally administered address is non-zero and is its own image, so `randMac` can produce every such address |
| Allocation.MergeSpec | mininet/net.py:245 | `defaults.update(params)` keeps the keys of both, and the caller's keywords override the computed defaults |
| Allocation.HostDefaultsSpec | mininet/net.py:235-243 | a host's defaults hold the address for the current `nextIP`; they hold a MAC from the same counter exactly when `autoSetMacs` and the current `nextCore` exactly when `autoPinCpus`; they hold nothing else |
| Allocation.HostAddressesDistinct | mininet/net.py:235-238 | two different counter values give different default addresses (`ipAdd` is injective in the counter) |
| Allocation.NextCore | mininet/net.py:243 | the next core is always below `numCores` |
| Allocation.NextCoreCycles | mininet/net.py:241-243 | if `nextCore` is `k % numCores` after `k` pinned hosts, it is `(k + 1) % numCores` after one more, so the k-th pinned host gets core `k % numCores` |
| Allocation.CoreAfterRoundRobin | mininet/net.py:241-243 | starting from `p % numCores`, `nextCore` after `k` more pinned hosts is `(p + k) % numCores`: pinning runs round robin over any number of hosts |
| Allocation.SwitchDefaultsSpec | mininet/net.py:280-281 | a switch's defaults are exactly the current `listenPort` (or `None`) and the network's `inNamespace` |
| Allocation.PortsAdvance | mininet/net.py:286-287 | outside namespaces, with a positive base port, the k-th switch is offered `base + k`, so every switch gets its own port |
| Allocation.PortsFixed | mininet/net.py:286-287 | in namespaces, or with no base port, `listenPort` never moves |
| Allocation.PortAfterAdd | mininet/net.py:286-287 | adding `m` switches and then `k` more moves `listenPort` exactly as adding `m + k` switches at once |
| Allocation.NegativePortStopsAtZero | mininet/net.py:286-287 | a negative base climbs by one per switch up to 0 and then stays at 0, because 0 reads as "not set" |
| LinkOps.SetDefaultSpec | mininet/net.py:402-409 | `setdefault` keeps every existing entry and adds the key, with the given value, only when it is missing |
| LinkOps.PortOptionsSpec | mininet/net.py:399-406 | the caller's keywords always win; `port1`, `port2` and `intf` are added exactly when given and not already keywords |
| LinkOps.LinkOptionsSpec | mininet/net.py:399-409 | a new link's options keep every caller keyword and every port option; the only keys added are `addr1` and `addr2` |
| LinkOps.LinkOptionsMacs | mininet/net.py:408-409 | each MAC the caller left open is the one `randMac` drew for that side |
| LinkOps.DefaultMacsAdmissible | mininet/net.py:383-384 | every MAC `addLink` fills in itself is unicast and locally administered |
| LinkOps.FindLink | mininet/net.py:440-446 | the search returns the first link joining the two nodes in either order, and none exactly when no link joins them |
| LinkOps.FindLinkSymmetric | mininet/net.py:440-446 | the search does not depend on the order the two nodes are given in |
| Common.RemoveFirst | mininet/net.py:266 | `list.remove` of a present element removes its first occurrence and shortens the list by one. For an absent element Python raises `ValueError`; `RemoveFirst` is a total stand-in that then returns the list unchanged, and every caller checks membership first (`RemoveLink` models the `ValueError` itself) |
| Common.RemoveFirstMultiset | mininet/net.py:266 | `list.remove` takes away exactly one copy of the element and nothing else |
| Common.RemoveFirstKeepsOrder | mininet/net.py:452 | removing a link keeps every other element in its relative order |
| Common.RemoveAppended | mininet/net.py:249-266 | removing an element that was just appended to a list not holding it gives the list back |
| Lifecycle.ClassOrder | mininet/net.py:577-578 | `groupby(sorted(switches, key=type))` visits each switch class present exactly once, in increasing order |
| Lifecycle.StartOrdered | mininet/net.py:563-582 | `start` starts every controller, then every switch individually, then makes the batch-startup calls |
| Lifecycle.StartCount | mininet/net.py:567-582 | `start` starts each controller once per occurrence; it starts each switch once per occurrence, with the full controller list, whatever `batchStartup` reports; each capable class present gets one `batchStartup` on its switches |
| Lifecycle.StopOrdered | mininet/net.py:587-620 | `stop` works in the fixed order controllers, terminals, links, batch shutdowns, per-switch stop and terminate, then hosts |
| Lifecycle.StopCount | mininet/net.py:589-619 | how often `stop` makes each call, stage by stage: one `stopXterms` only when there are terminals, one `batchShutdown` per capable class present, and so on |
| Lifecycle.StopNodeCounts | mininet/net.py:603-619 | each controller is stopped and each host terminated once per occurrence; each switch is terminated once per occurrence; a switch gets `stop()` exactly when its class's batch shutdown did not report it stopped |
| Waiter.PollStep | mininet/net.py:201-204 | removing connected switches from the live list while walking a snapshot of it leaves the switches not yet connected, in order |
| Waiter.WaitFrom | mininet/net.py:198-212 | the poll loop with the corrected re-check (see Findings): a finished run's last query round is no earlier than its first, and it warns about no more switches than it started with |
| Waiter.WarnedNeverConnected | mininet/net.py:198-218 | with the corrected re-check (see Findings), a finished wait warns about exactly the switches that never answered "connected" in any round it made, in their order |
| Waiter.WaitOkIffNoWarnings | mininet/net.py:198-219 | with the corrected re-check, a finished wait returns `True` exactly when it warns about no switch |
| Waiter.WaitExact | mininet/net.py:198-219 | with the corrected re-check (see Findings), a finished wait warns about exactly the switches that never answered "connected" in any round it made, in their order, and returns `True` exactly when there are none |
| Waiter.WaitOkIffAllConnected | mininet/net.py:198-219 | with the corrected re-check (see Findings), `waitConnected` returns `True` exactly when every switch answered "connected" in some round |
| Waiter.WarnedAreRemaining | mininet/net.py:199-218 | `remaining` only shrinks: the switches left at the end are some of the switches the wait started with |
| Waiter.WaitEndsWithTimeout | mininet/net.py:208-211 | with a timeout and a positive delay, the loop ends once the slept time passes the timeout |
| Waiter.RecheckAsWrittenFrom | mininet/net.py:213-218 | the re-check as written, removing from the list it iterates over: what it leaves is no longer than `remaining` and holds only switches of `remaining` |
| Waiter.RecheckAsWrittenSkips | mininet/net.py:213-218 | the final re-check as written skips the switch after each removed one (see Findings) |
| Net.PollPass | mininet/net.py:201-204 | the in-place poll pass leaves exactly the switches that are still not connected, in their order |
| Net.RegisterAllSpec | mininet/net.py:484-510 | registering a run of nodes one after another (`nameToNode[name] = node` at lines 250, 289 and 310) keeps every old name, adds exactly the run's names, leaves the entries of other names alone, and maps each name to the last node of the run carrying it |
| Net.StartCalls | mininet/net.py:567-582 | the calls `start` makes, collected loop by loop, are exactly `StartEvents` |
| Net.StopCalls | mininet/net.py:589-619 | the calls `stop` makes, collected loop by loop, are exactly `StopEvents` |
| Net.BatchShutdowns | mininet/net.py:603-609 | the `stopped` set is the union of what the capable classes' `batchShutdown` calls report, one call per capable class present, in sort order |
| Net.Mininet.constructor | mininet/net.py:156-187 | a new network has the given configuration, `nextIP = 1`, `nextCore = 0`, `listenPort` equal to the base, empty role lists and registry, and is not built |
| Net.Mininet.Get | mininet/net.py:339-347 | a single-name lookup finds a node exactly when the name is registered, and the node found has that name |
| Net.Mininet.GetNodeByName | mininet/net.py:339-343 | one name gives its lookup; any other number of names gives one lookup per name, in order |
| Net.Mininet.Item | mininet/net.py:350-352 | `net[name]` gives the registered node, or raises `KeyError(name)` exactly when the name is unknown |
| Net.Mininet.Iter | mininet/net.py:354-357 | iteration yields the host names, then the switch names, then the controller names, each list in order |
| Net.Mininet.Len | mininet/net.py:359-362 | `len(net)` is the number of names iteration yields |
| Net.Mininet.Contains | mininet/net.py:364-366 | in a valid network, every name `in net` reports present is yielded by iteration |
| Net.Mininet.ContainsIterated | mininet/net.py:354-366 | in a valid network every registered name is yielded by iteration |
| Net.Mininet.GetNextIp | mininet/net.py:221-226 | returns the address for the current counter and moves the counter on by exactly one |
| Net.Mininet.AddHost | mininet/net.py:228-251 | the new host has the given name and class (or the default); its parameters are the defaults for the old counters, overridden by the caller's; it is appended to `hosts` and registered under its name, replacing any earlier entry; `nextIP` moves on by one and `nextCore` moves round robin when pinning |
| Net.Mininet.RemoveHost | mininet/net.py:253-272 | returns `True` exactly when the name (or the node's name) is registered; then it drops that node from `hosts`, unregisters the name and stops the node with `deleteIntfs=True`; otherwise nothing changes |
| Net.Mininet.AddSwitch | mininet/net.py:274-290 | the new switch is offered the current `listenPort` unless the caller says otherwise; it is appended and registered; `listenPort` moves on by one exactly when outside namespaces and set |
| Net.Mininet.AddController | mininet/net.py:292-311 | a ready controller is registered under its own name; otherwise the given class, or else the default class, is instantiated; with neither, `TypeError` is raised and nothing changes |
| Net.Mininet.Resolve | mininet/net.py:397-398 | a node argument is taken as it is; a name gives its registered node, or `KeyError(name)` exactly when it is unknown |
| Net.Mininet.AddLink | mininet/net.py:386-421 | an unknown endpoint name raises its `KeyError` and changes nothing; otherwise exactly one new link joining the two nodes is appended, built with `LinkOptions`, and each OVS endpoint attaches its own side |
| Net.Mininet.SearchEnds | mininet/net.py:428-438 | a node argument is kept as it is, on either side; when both ends are names, each becomes its registered node, or stays unresolved exactly when unknown (the `except` only logs); a name paired with a non-name, and an absent end, are not looked up, so they match no link's node |
| Net.Mininet.Target | mininet/net.py:428-446 | a given link is the target; otherwise the target is the first link joining the resolved ends in either orientation, and there is none exactly when no link joins them |
| Net.Mininet.RemoveLink | mininet/net.py:423-452 | with no link given and none joining the nodes, nothing changes; otherwise the link is deleted and its first occurrence removed from `links`; a given link not in the list makes `remove` raise `ValueError` after the delete |
| Net.Mininet.WaitConnected | mininet/net.py:191-219 | the poll loop computes `WaitFrom` over the switch list, so it uses the corrected re-check (see Findings); together with `WaitExact`, it returns `True` exactly when every switch connected |
| Net.Mininet.AddDefaultControllers | mininet/net.py:484-495 | a network without controllers gets exactly one controller per default class, the i-th named `c<i>` with that class and no parameters, registered in turn; otherwise the controllers and the registry stay as they are |
| Net.Mininet.AddTopoHosts | mininet/net.py:497-500 | the i-th topology host is appended after the old hosts with its name, its class (or the default) and the defaults for address counter `nextIP + i` and the core pinned after `i` hosts, overridden by its keywords; the registry is the old one with the new hosts registered in turn; `nextIP` moves on by the number of hosts |
| Net.Mininet.AddTopoSwitches | mininet/net.py:502-510 | the i-th topology switch is appended after the old switches with its name, its class (or the default) and the `listenPort` reached after `i` switches, overridden by its keywords; the registry is the old one with the new switches registered in turn; `listenPort` ends where that many switches take it |
| Net.Mininet.AddSpecLink | mininet/net.py:513-515 | with both endpoint names registered, one link between their nodes is appended, with the spec's class (or the default) and `LinkOptions`, and its attach calls are recorded; otherwise `KeyError` names the first unknown endpoint and nothing changes |
| Net.Mininet.AddTopoLinks | mininet/net.py:512-516 | the links added are, in order, those of a prefix of the specs, each between the named nodes with its options; all are added exactly when every endpoint resolves; otherwise the first spec with an unknown endpoint raises its `KeyError` and the links before it stay; the trace gains exactly their attach calls |
| Net.Mininet.BuildNodes | mininet/net.py:484-510 | default controllers, then the topology's hosts, then its switches, each as stated above, with the registry holding all of them in that order; links and trace are untouched |
| Net.Mininet.BuildFromTopo | mininet/net.py:472-518 | `TopoBuilt`: the nodes, registry and counters as `BuildNodes` leaves them, then the links of a prefix of the topology's links, all of them exactly when every endpoint resolves; the build fails with the `KeyError` of the first link that names an unregistered node; the trace gains exactly the attach calls of the new links |
| Net.Mininet.Build | mininet/net.py:525-537 | `BuildState`: with a topology, the state `buildFromTopo` leaves (`TopoBuilt`); without one, nodes, links, registry and counters unchanged; success exactly when the links resolve and the network is not in namespaces; the error is the `KeyError` of the first unresolved link, or else the `Exception` of `configureControlNetwork`; on success `built` is set and the spawned terminals kept when `xterms`; the trace gains exactly the attach calls, then on success `configHosts`, `startTerms` if `xterms` and `staticArp` if `autoStaticArp` |
| Net.Mininet.FinishBuild | mininet/net.py:531-537 | outside namespaces `build` ends by recording `configHosts`, then `startTerms` if `xterms`, then `staticArp` if `autoStaticArp`, keeping the spawned terminals if `xterms`, and marking the network built; nodes, links and counters stay |
| Net.Mininet.FinishInit | mininet/net.py:187-189 | `__init__` builds only when given a topology and `build`: then the post-state is exactly what `Build` leaves; otherwise nothing changes |
| Net.Mininet.Start | mininet/net.py:563-585 | on a built network only the trace changes, gaining exactly `StartEvents`; otherwise the network is built first, the post-state is what `Build` leaves and, when the build succeeds, the trace ends with the build calls and then `StartEvents`; waits with no timeout exactly when `waitConnected` was asked for |
| Net.Mininet.StartBuilt | mininet/net.py:567-585 | on a built network, `start` appends exactly `StartEvents` to the trace, changes nothing else, and returns the wait's result exactly when `waitConnected` was asked for |
| Net.Mininet.BuildThenStart | mininet/net.py:563-585 | on a network not yet built, `start` leaves what `Build` leaves; on a failed build it returns without starting anything; on success the trace ends with the build calls and then `StartEvents` |
| Net.Mininet.Stop | mininet/net.py:587-620 | appends exactly `StopEvents` to the trace and changes nothing else |
| Net.AddThenRemoveHost | mininet/net.py:228-272 | `addHost` then `removeHost` of a fresh name restores `hosts` and the registry; the counters are not given back (`nextIP` has moved by one, `nextCore` by one step when pinning), and the trace ends with the host's `stop(deleteIntfs=True)` |
| Net.AddThenRemoveLink | mininet/net.py:386-452 | `addLink` then `removeLink` of the new link restores the link list |
| Net.TwoHostsDistinctAddresses | mininet/net.py:235-244 | two hosts added one after the other without an `ip` keyword get different addresses |

## Left out

- `ping`, `pingFull`, `pingAll`, `pingPair`, their parsers, `iperf` and `runCpuLimitTest` are left out. They run shell commands, parse tool output with regular expressions and do floating-point arithmetic.
- `monitor` is left out. It is an I/O generator over process file descriptors.
- `startTerms` and `stopXterms` are single events (`StartTerms`, `StopTerms`). The terminals `startTerms` spawns are a parameter of `build`. They depend on `os.kill`, the `DISPLAY` variable and process spawning.
- `configHosts`, `staticArp` and `configLinkStatus` are events only (`ConfigHosts`, `StaticArp`), or left out. They are loops over node and interface methods outside this file.
- `addNAT` is left out. It creates nodes through classes outside this file and configures them through shell calls.
- `Mininet.init` is left out. It is a root check and an rlimit fix-up.
- `keys`, `values` and `items` are left out. They are `list(net)`, `[net[n] for n in net]` and their zip, so they follow from `Iter` and `Item`.
- `run` and `interact` are left out. They call test functions and the CLI.
- The `Containernet` and `MininetWithControlNet` classes are left out. They drive libvirt, iptables, processes and `exit`.
- Node, link and interface construction, `ipAdd`, `netParse` and `macColonHex` are uninterpreted. Nodes and links are handles; `ipAdd(...)` and `macColonHex(...)` are kept as the terms that produced them. `ipAdd` is taken to be injective in the counter.
- `mininet/node.py`, `mininet/link.py` and `mininet/util.py` are not part of this model. A plain `stop()` is recorded as `Stop(node, false)` and `stop(deleteIntfs=True)` as `Stop(node, true)`.
- The OVS `attach` call is an event. Its effect on the switch is not modelled.
- `cleanup` is not modelled. `buildFromTopo` reads it and does nothing with it.
- The `connected()` queries are not recorded in the trace. Their answers are an oracle. `sleep`, `info`, `warn`, `error` and `debug` are left out.
- Time in `waitConnected` is counted in whole ticks of `delay`. Floating-point delays are not modelled.
- The success set `batchStartup` returns is not modelled, because `start` never reads it.
- Waiter.WaitFrom: runs at most `fuel` poll passes and ends in `Waiting` when fuel runs out. With `timeout=None` the source loop need not end. `Waiter.WaitEndsWithTimeout` shows that enough fuel always finishes a run that has a timeout. `Waiter.WaitFuelIrrelevant` shows that more fuel never changes a finished result.
- Net.Mininet.Start: takes the same `fuel` for its wait and returns the wait's result. The source ignores that result.
- Net.Mininet.AddController: a falsy controller object ("controller-less setups", `mininet/net.py:308`) is not modelled. A constructed controller is always registered. The caller must pass a node of controller role when passing a ready controller.
- Net.Mininet.AddDefaultControllers: a ready `Controller` object inside the default class list (`mininet/net.py:492-493`) is not modelled. Only classes are.
- Net.Mininet.WaitConnected: requires the switch list to have no repeats. `Valid()` guarantees this, because `addSwitch` appends a fresh object each time.
- Net.Mininet.RemoveHost: the `except` branch (`mininet/net.py:261-263`) is left out. `get` of one name is a dictionary `get`, which does not raise for a string or for `None`.
- Net.Mininet.constructor: assumes that `numCores()` reports at least one core. With zero cores `nextCore % numCores` would raise `ZeroDivisionError` on the first pinned host.
- Collaborator calls are modelled as never raising: the node constructors `cls(name, **defaults)` (`mininet/net.py:248`, `285`), the link class, and the `start`, `stop`, `terminate`, `delete`, `batchStartup` and `batchShutdown` calls. Their code is not part of this model.
- Net.Mininet.Build: an exception raised by a collaborator after the topology is built (for example in `configHosts`) is not modelled.

## Findings

| source | as written | input that shows it | evidently intended | confidence | as-written member | corrected member |
|---|---|---|---|---|---|---|
| mininet/net.py:213-218 | after a timeout, `for switch in remaining: ... else: remaining.remove(switch)` removes from the list it is iterating over, so the iterator skips the switch right after each removed one and never asks it again | two switches left at the timeout that both answer "connected" at the re-check: the first is removed, the second is skipped and stays in `remaining`, so `waitConnected` returns `False` | ask every remaining switch once more, drop those now connected, and return `True` when none is left (iterate over a copy, as the poll loop at line 201 does) | not executed | Waiter.RecheckAsWrittenSkips | Waiter.WaitExact |
