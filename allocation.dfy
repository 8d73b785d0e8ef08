/** The default parameters `addHost` and `addSwitch` compute from the
    network's counters, and how those counters move: `nextIP` (one address per
    host), `nextCore` (round robin over the cores when `autoPinCpus`) and
    `listenPort` (one port per switch outside namespaces). */
module Allocation {
  import opened Common
  import opened Handles

  /** `defaults.update(params)`. */
  function Merge(defaults: Params, params: Params): Params {
    defaults + params
  }

  /** After `defaults.update(params)` the keys are those of both, and the
      caller's keywords win over the defaults. */
  lemma MergeSpec(defaults: Params, params: Params)
    ensures var r := Merge(defaults, params);
      && r.Keys == defaults.Keys + params.Keys
      && (forall k :: k in params ==> r[k] == params[k])
      && (forall k :: k in defaults && k !in params ==> r[k] == defaults[k])
  {
  }

  /** The defaults `addHost` builds before applying the caller's keywords. */
  function HostDefaults(nextIP: int, ipBaseNum: int, prefixLen: int,
                        autoSetMacs: bool, autoPinCpus: bool, nextCore: nat): Params
  {
    var d := map["ip" := VIp(IpPrefix(nextIP, ipBaseNum, prefixLen))];
    var d := if autoSetMacs then d["mac" := VMac(ColonHex(nextIP))] else d;
    if autoPinCpus then d["cores" := VInt(nextCore)] else d
  }

  /** What `addHost` puts in the defaults: an address from the current
      `nextIP`, a MAC from the same counter exactly when `autoSetMacs`, the
      current `nextCore` exactly when `autoPinCpus`, and nothing else. */
  lemma HostDefaultsSpec(nextIP: int, ipBaseNum: int, prefixLen: int,
                         autoSetMacs: bool, autoPinCpus: bool, nextCore: nat)
    ensures var d := HostDefaults(nextIP, ipBaseNum, prefixLen, autoSetMacs, autoPinCpus, nextCore);
      && "ip" in d && d["ip"] == VIp(IpPrefix(nextIP, ipBaseNum, prefixLen))
      && ("mac" in d <==> autoSetMacs)
      && ("mac" in d ==> d["mac"] == VMac(ColonHex(nextIP)))
      && ("cores" in d <==> autoPinCpus)
      && ("cores" in d ==> d["cores"] == VInt(nextCore))
      && d.Keys <= {"ip", "mac", "cores"}
  {
  }

  /** Default addresses taken from two different counter values differ. */
  lemma {:induction false} HostAddressesDistinct(i: int, j: int, ipBaseNum: int, prefixLen: int,
                                                 macs: bool, pin: bool, c1: nat, c2: nat)
    requires i != j
    ensures HostDefaults(i, ipBaseNum, prefixLen, macs, pin, c1)["ip"]
         != HostDefaults(j, ipBaseNum, prefixLen, macs, pin, c2)["ip"]
  {
    HostDefaultsSpec(i, ipBaseNum, prefixLen, macs, pin, c1);
    HostDefaultsSpec(j, ipBaseNum, prefixLen, macs, pin, c2);
    var a := HostDefaults(i, ipBaseNum, prefixLen, macs, pin, c1)["ip"];
    var b := HostDefaults(j, ipBaseNum, prefixLen, macs, pin, c2)["ip"];
    assert a.ip.index == i && b.ip.index == j;
  }

  /** `(nextCore + 1) % numCores`. */
  function NextCore(core: nat, numCores: nat): (c: nat)
    requires numCores >= 1
    ensures c < numCores
  {
    (core + 1) % numCores
  }

  /** When `nextCore` is `pinned % numCores`, one more pinned host keeps it
      that way: the k-th pinned host (from 0) gets core `k % numCores`. */
  lemma {:induction false} NextCoreCycles(pinned: nat, numCores: nat)
    requires numCores >= 1
    ensures NextCore(pinned % numCores, numCores) == (pinned + 1) % numCores
  {
    var q, r := pinned / numCores, pinned % numCores;
    assert pinned == q * numCores + r;
    if r + 1 < numCores {
      ModUnique(r + 1, 0, r + 1, numCores);
      ModUnique(pinned + 1, q, r + 1, numCores);
    } else {
      ModUnique(numCores, 1, 0, numCores);
      assert (q + 1) * numCores == q * numCores + numCores;
      ModUnique(pinned + 1, q + 1, 0, numCores);
    }
  }

  /** `nextCore` after `k` more hosts were pinned, starting from `core`. */
  function CoreAfter(core: nat, numCores: nat, k: nat): nat
    requires numCores >= 1
  {
    if k == 0 then core else NextCore(CoreAfter(core, numCores, k - 1), numCores)
  }

  /** Pinning runs round-robin: from `p % numCores`, the core after `k` more
      hosts is `(p + k) % numCores`. */
  lemma {:induction false} CoreAfterRoundRobin(p: nat, numCores: nat, k: nat)
    requires numCores >= 1
    ensures CoreAfter(p % numCores, numCores, k) == (p + k) % numCores
  {
    if k > 0 {
      CoreAfterRoundRobin(p, numCores, k - 1);
      NextCoreCycles(p + k - 1, numCores);
    }
  }

  /** A quotient-remainder decomposition fixes the remainder. */
  lemma ModUnique(x: nat, q: nat, r: nat, n: nat)
    requires n >= 1 && r < n && x == q * n + r
    ensures x % n == r
  {
    var q', r' := x / n, x % n;
    assert x == q' * n + r';
    if q' < q {
      MulStep(q, q', n);
      assert false;
    } else if q' > q {
      MulStep(q', q, n);
      assert false;
    }
  }

  lemma MulStep(a: nat, b: nat, n: nat)
    requires a > b
    ensures a * n >= b * n + n
  {
    var d: nat := a - b - 1;
    assert a == b + 1 + d;
    assert a * n == b * n + n + d * n;
    assert d * n >= 0;
  }

  /** Python truthiness of `self.listenPort`: neither `None` nor `0`. */
  predicate PortIsSet(listenPort: Option<int>) {
    listenPort.Some? && listenPort.value != 0
  }

  /** `listenPort` after one `addSwitch`: bumped only outside namespaces and
      only while it is set. */
  function NextListenPort(listenPort: Option<int>, inNamespace: bool): Option<int> {
    if !inNamespace && PortIsSet(listenPort) then Some(listenPort.value + 1) else listenPort
  }

  /** `listenPort` after `k` switches were added to a network that started
      with `base`. */
  function PortAfter(base: Option<int>, inNamespace: bool, k: nat): Option<int> {
    if k == 0 then base else NextListenPort(PortAfter(base, inNamespace, k - 1), inNamespace)
  }

  /** Adding `m` switches and then `k` more moves `listenPort` as adding
      `m + k` at once does. */
  lemma {:induction false} PortAfterAdd(base: Option<int>, inNamespace: bool, m: nat, k: nat)
    ensures PortAfter(PortAfter(base, inNamespace, m), inNamespace, k) == PortAfter(base, inNamespace, m + k)
  {
    if k > 0 {
      PortAfterAdd(base, inNamespace, m, k - 1);
    }
  }

  /** With a positive base outside namespaces, the k-th switch is offered port
      `base + k`: every switch gets its own port. */
  lemma {:induction false} PortsAdvance(p: int, k: nat)
    requires p >= 1
    ensures PortAfter(Some(p), false, k) == Some(p + k)
  {
    if k > 0 {
      PortsAdvance(p, k - 1);
    }
  }

  /** In namespaces, or with no base port, the counter never moves and every
      switch is offered the same value. */
  lemma {:induction false} PortsFixed(base: Option<int>, inNamespace: bool, k: nat)
    requires inNamespace || !PortIsSet(base)
    ensures PortAfter(base, inNamespace, k) == base
  {
    if k > 0 {
      PortsFixed(base, inNamespace, k - 1);
    }
  }

  /** A negative base climbs to 0 and then stays there, because 0 reads as
      "not set". */
  lemma {:induction false} NegativePortStopsAtZero(p: int, k: nat)
    requires p < 0
    ensures PortAfter(Some(p), false, k) == Some(if p + k < 0 then p + k else 0)
  {
    if k > 0 {
      NegativePortStopsAtZero(p, k - 1);
    }
  }

  /** The value passed as the `listenPort` keyword. */
  function PortValue(listenPort: Option<int>): Value {
    if listenPort.Some? then VInt(listenPort.value) else VNone
  }

  /** The defaults `addSwitch` builds before applying the caller's keywords. */
  function SwitchDefaults(listenPort: Option<int>, inNamespace: bool): Params {
    map["listenPort" := PortValue(listenPort), "inNamespace" := VBool(inNamespace)]
  }

  /** `addSwitch` offers exactly the current `listenPort` and the network's
      `inNamespace`. */
  lemma SwitchDefaultsSpec(listenPort: Option<int>, inNamespace: bool)
    ensures var d := SwitchDefaults(listenPort, inNamespace);
      && d.Keys == {"listenPort", "inNamespace"}
      && d["listenPort"] == PortValue(listenPort) && d["inNamespace"] == VBool(inNamespace)
  {
  }
}
