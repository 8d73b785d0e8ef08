/** The network object `Mininet` of `mininet/net.py`: the counters that hand
    out addresses, cores and ports, the role lists and the name registry, the
    operations that add and remove hosts, switches, controllers and links, and
    `build`, `start`, `stop` and `waitConnected`. Node, link and controller
    objects are opaque handles; the calls made on them are appended to the
    ghost `trace`. */
module Net {
  import opened Common
  import opened Handles
  import opened Allocation
  import opened LinkOps
  import opened Lifecycle
  import Waiter

  /** The exceptions the modelled operations can raise. */
  datatype PyError =
    | KeyError(key: string)   // `self[name]` on an unknown name
    | TypeError               // calling `None` or a list as a controller class
    | ValueError              // `self.links.remove(link)` of a link not in the list
    | ConfigurationError      // `configureControlNetwork` is not overridden

  datatype Result<T> = Ok(value: T) | Err(error: PyError)

  /** `self.controller`: no default controller, one class, or a list of
      classes (only `buildFromTopo` accepts a list). */
  datatype ControllerDefault = NoController | OneClass(cls: ClassTag) | ClassList(classes: seq<ClassTag>)

  /** The classes `buildFromTopo` adds default controllers from; an empty
      list is falsy and adds none. */
  function DefaultClasses(d: ControllerDefault): seq<ClassTag> {
    match d
    case NoController => []
    case OneClass(c) => [c]
    case ClassList(cs) => cs
  }

  /** The `name` argument of `addController`: a name, or a ready `Controller`. */
  datatype CtrlArg = CtrlName(name: string) | CtrlObject(node: Node)

  /** A node argument of `addLink`: a name or a node object. */
  datatype Endpoint = ByName(name: string) | ByNode(node: Node)

  /** What `getNodeByName(*args)` returns: the node itself for one name, a
      list otherwise. */
  datatype Lookup = One(node: Option<Node>) | Many(nodes: seq<Option<Node>>)

  /** How `removeLink` ends: the link was removed; no link was found (an
      error is logged, nothing changes); or `links.remove` raised after the
      link was already deleted. */
  datatype LinkRemoval = Removed(link: Link) | NotFound | Raised(error: PyError)

  /** The `attach` calls `addLink` makes for a new link: each endpoint that
      is an `OVSSwitch` attaches its own side. */
  function AttachEvents(l: Link, ovsClasses: set<ClassTag>): seq<Event> {
    (if l.node1.cls in ovsClasses then [Attach(l.node1, l, 1)] else [])
      + (if l.node2.cls in ovsClasses then [Attach(l.node2, l, 2)] else [])
  }

  /** The name `removeHost` looks up: a node argument stands for its name,
      and `None` is looked up as itself and never found. */
  function KeyOf(name: NodeRef): Option<string> {
    match name
    case Named(n) => Some(n)
    case Handle(node) => Some(node.name)
    case NoNode => None
  }

  /** Every key of `registry` maps to a node of that name held in one of the
      three role lists. */
  ghost predicate RegistryOk(registry: map<string, Node>, hosts: seq<Node>, switches: seq<Node>, controllers: seq<Node>) {
    forall k :: k in registry ==>
      registry[k].name == k && (registry[k] in hosts || registry[k] in switches || registry[k] in controllers)
  }

  /** Registering a node under its name, once it sits in one of the (grown)
      role lists, keeps the registry sound. */
  lemma RegisterNode(registry: map<string, Node>, hosts: seq<Node>, switches: seq<Node>, controllers: seq<Node>,
                     hosts': seq<Node>, switches': seq<Node>, controllers': seq<Node>, n: Node)
    requires RegistryOk(registry, hosts, switches, controllers)
    requires forall x :: x in hosts ==> x in hosts'
    requires forall x :: x in switches ==> x in switches'
    requires forall x :: x in controllers ==> x in controllers'
    requires n in hosts' || n in switches' || n in controllers'
    ensures RegistryOk(registry[n.name := n], hosts', switches', controllers')
  {
  }

  /** `registry` after `nameToNode[n.name] = n` for each of `nodes` in turn. */
  function RegisterAll(registry: map<string, Node>, nodes: seq<Node>): map<string, Node> {
    if nodes == [] then registry
    else RegisterAll(registry, nodes[..|nodes| - 1])[nodes[|nodes| - 1].name := nodes[|nodes| - 1]]
  }

  /** No node after position `i` of `nodes` carries the name of `nodes[i]`. */
  predicate LastNamed(nodes: seq<Node>, i: int)
    requires 0 <= i < |nodes|
  {
    forall j :: i < j < |nodes| ==> nodes[j].name != nodes[i].name
  }

  /** Registering a run of nodes keeps every old name, adds the names of the
      run and no other, leaves the old entries of names outside the run
      alone, and maps each name of the run to the last node carrying it: an
      earlier node of the same name is taken over. */
  lemma {:induction false} RegisterAllSpec(registry: map<string, Node>, nodes: seq<Node>)
    ensures var r := RegisterAll(registry, nodes);
      && (forall k :: k in r <==> k in registry || k in Names(nodes))
      && (forall i :: 0 <= i < |nodes| ==> nodes[i].name in r)
      && (forall k :: k in registry && k !in Names(nodes) ==> r[k] == registry[k])
      && (forall i :: 0 <= i < |nodes| && LastNamed(nodes, i) ==> r[nodes[i].name] == nodes[i])
  {
    if nodes != [] {
      var init, last := nodes[..|nodes| - 1], nodes[|nodes| - 1];
      RegisterAllSpec(registry, init);
      assert Names(nodes) == Names(init) + [last.name];
      var r := RegisterAll(registry, nodes);
      forall i | 0 <= i < |nodes| ensures nodes[i].name in r {
        assert Names(nodes)[i] == nodes[i].name;
      }
      forall i | 0 <= i < |nodes| && LastNamed(nodes, i) ensures r[nodes[i].name] == nodes[i] {
        if i < |nodes| - 1 {
          assert LastNamed(init, i) by {
            forall j | i < j < |init| ensures init[j].name != init[i].name {
              assert init[j] == nodes[j];
            }
          }
          assert nodes[i].name != last.name;
        }
      }
    }
  }

  lemma RegisterAllAppend(registry: map<string, Node>, nodes: seq<Node>, n: Node)
    ensures RegisterAll(registry, nodes + [n]) == RegisterAll(registry, nodes)[n.name := n]
  {
    assert (nodes + [n])[..|nodes|] == nodes;
  }

  /** The attach events of each of `ls` in turn. */
  function AttachAll(ls: seq<Link>, ovsClasses: set<ClassTag>): seq<Event> {
    if ls == [] then [] else AttachAll(ls[..|ls| - 1], ovsClasses) + AttachEvents(ls[|ls| - 1], ovsClasses)
  }

  lemma AttachAllAppend(ls: seq<Link>, l: Link, ovsClasses: set<ClassTag>)
    ensures AttachAll(ls + [l], ovsClasses) == AttachAll(ls, ovsClasses) + AttachEvents(l, ovsClasses)
  {
    assert (ls + [l])[..|ls|] == ls;
  }

  /** `for switch in tuple(remaining): if switch.connected():
      remaining.remove(switch)`: one poll pass over a snapshot of the list. */
  method PollPass(remaining: seq<Node>, round: nat, connected: (nat, Node) -> bool) returns (left: seq<Node>)
    requires NoDups(remaining)
    ensures left == Waiter.Poll(remaining, round, connected)
  {
    var snapshot := remaining;
    left := remaining;
    for j := 0 to |snapshot|
      invariant left == Waiter.Poll(snapshot[..j], round, connected) + snapshot[j..]
    {
      Waiter.PollStep(snapshot, j, round, connected);
      if connected(round, snapshot[j]) {
        left := RemoveFirst(left, snapshot[j]);
      }
    }
    assert snapshot[..|snapshot|] == snapshot;
  }

  class Mininet {
    // Configuration, fixed at construction.
    const topo: Option<Topo>
    const switchClass: ClassTag
    const hostClass: ClassTag
    const controllerDefault: ControllerDefault
    const linkClass: ClassTag
    const intfClass: Option<ClassTag>
    const ipBaseNum: int
    const prefixLen: int
    const inNamespace: bool
    const xterms: bool
    const autoSetMacs: bool
    const autoStaticArp: bool
    const autoPinCpus: bool
    const numCores: nat
    const waitConn: bool
    const listenPortBase: Option<int>
    /** Switch classes with `batchStartup`, with `batchShutdown`, and
        subclasses of `OVSSwitch`. */
    const batchStartupClasses: set<ClassTag>
    const batchShutdownClasses: set<ClassTag>
    const ovsClasses: set<ClassTag>

    // State the methods update in place.
    var nextIP: int
    var nextCore: nat
    var listenPort: Option<int>
    var hosts: seq<Node>
    var switches: seq<Node>
    var controllers: seq<Node>
    var links: seq<Link>
    var nameToNode: map<string, Node>
    var terms: seq<Term>
    var built: bool

    /** Calls made on collaborators, oldest first. */
    ghost var trace: seq<Event>
    /** Hosts pinned to a core so far. */
    ghost var pinned: nat

    /** Every registered name maps to a node of that name that sits in one of
        the role lists. */
    ghost predicate Registered()
      reads this
    {
      RegistryOk(nameToNode, hosts, switches, controllers)
    }

    ghost predicate Valid()
      reads this
    {
      && numCores >= 1 && nextCore < numCores && nextIP >= 1
      && (autoPinCpus ==> nextCore == pinned % numCores)
      && listenPort == PortAfter(listenPortBase, inNamespace, |switches|)
      && AllRole(hosts, HostRole) && AllRole(switches, SwitchRole) && AllRole(controllers, ControllerRole)
      && NoDups(hosts) && NoDups(switches) && NoDups(links)
      && Registered()
    }

    /** `Mininet.__init__` without the final `build()`; `numCores` is what
        `numCores()` reports for the machine. */
    constructor (topo: Option<Topo>, switchClass: ClassTag, hostClass: ClassTag,
                 controllerDefault: ControllerDefault, linkClass: ClassTag, intfClass: Option<ClassTag>,
                 xterms: bool, ipBaseNum: int, prefixLen: int, inNamespace: bool,
                 autoSetMacs: bool, autoStaticArp: bool, autoPinCpus: bool,
                 listenPort: Option<int>, waitConnected: bool, numCores: nat,
                 batchStartupClasses: set<ClassTag>, batchShutdownClasses: set<ClassTag>,
                 ovsClasses: set<ClassTag>)
      requires numCores >= 1
      ensures Valid()
      ensures this.topo == topo && this.switchClass == switchClass && this.hostClass == hostClass
      ensures this.controllerDefault == controllerDefault && this.linkClass == linkClass
      ensures this.intfClass == intfClass && this.xterms == xterms
      ensures this.ipBaseNum == ipBaseNum && this.prefixLen == prefixLen && this.inNamespace == inNamespace
      ensures this.autoSetMacs == autoSetMacs && this.autoStaticArp == autoStaticArp
      ensures this.autoPinCpus == autoPinCpus && this.waitConn == waitConnected && this.numCores == numCores
      ensures this.listenPortBase == listenPort && this.listenPort == listenPort
      ensures this.batchStartupClasses == batchStartupClasses && this.batchShutdownClasses == batchShutdownClasses
      ensures this.ovsClasses == ovsClasses
      ensures nextIP == 1 && nextCore == 0
      ensures hosts == [] && switches == [] && controllers == [] && links == []
      ensures nameToNode == map[] && terms == [] && !built && trace == []
    {
      this.topo := topo;
      this.switchClass := switchClass;
      this.hostClass := hostClass;
      this.controllerDefault := controllerDefault;
      this.linkClass := linkClass;
      this.intfClass := intfClass;
      this.xterms := xterms;
      this.ipBaseNum := ipBaseNum;
      this.prefixLen := prefixLen;
      this.inNamespace := inNamespace;
      this.autoSetMacs := autoSetMacs;
      this.autoStaticArp := autoStaticArp;
      this.autoPinCpus := autoPinCpus;
      this.numCores := numCores;
      this.waitConn := waitConnected;
      this.listenPortBase := listenPort;
      this.batchStartupClasses := batchStartupClasses;
      this.batchShutdownClasses := batchShutdownClasses;
      this.ovsClasses := ovsClasses;
      nextIP := 1;
      nextCore := 0;
      this.listenPort := listenPort;
      hosts := [];
      switches := [];
      controllers := [];
      links := [];
      nameToNode := map[];
      terms := [];
      built := false;
      trace := [];
      pinned := 0;
    }

    // -------------------------------------------------------------------
    // Views

    /** `name in net`: in a sound network, a name `in net` is also one that
        `iter(net)` yields. */
    function Contains(item: string): (b: bool)
      reads this
      ensures Valid() && b ==> item in Iter()
    {
      ContainsIterated(item);
      item in nameToNode
    }

    /** `net.get(name)`: the registered node, or `None`. */
    function Get(name: string): (r: Option<Node>)
      reads this
      ensures r.Some? <==> Contains(name)
      ensures Valid() && r.Some? ==> r.value.name == name
    {
      if name in nameToNode then Some(nameToNode[name]) else None
    }

    /** `getNodeByName(*args)`: one name gives its node, any other number of
        names a list with one lookup per name. */
    function GetNodeByName(args: seq<string>): (r: Lookup)
      reads this
      ensures |args| == 1 <==> r.One?
      ensures r.One? ==> r.node == Get(args[0])
      ensures r.Many? ==> |r.nodes| == |args| && forall i :: 0 <= i < |args| ==> r.nodes[i] == Get(args[i])
    {
      if |args| == 1 then One(Get(args[0]))
      else Many(seq(|args|, i requires 0 <= i < |args| reads this => Get(args[i])))
    }

    /** `net[name]`: the registered node, `KeyError` for an unknown name. */
    function Item(key: string): (r: Result<Node>)
      reads this
      ensures r.Ok? <==> Contains(key)
      ensures r.Ok? ==> Get(key) == Some(r.value)
      ensures r.Err? ==> r.error == KeyError(key)
    {
      if key in nameToNode then Ok(nameToNode[key]) else Err(KeyError(key))
    }

    /** `iter(net)`: host names, then switch names, then controller names. */
    function Iter(): (r: seq<string>)
      reads this
      ensures |r| == |hosts| + |switches| + |controllers|
      ensures forall i :: 0 <= i < |hosts| ==> r[i] == hosts[i].name
      ensures forall i :: 0 <= i < |switches| ==> r[|hosts| + i] == switches[i].name
      ensures forall i :: 0 <= i < |controllers| ==> r[|hosts| + |switches| + i] == controllers[i].name
    {
      Names(hosts) + Names(switches) + Names(controllers)
    }

    /** `len(net)`: the number of names `iter(net)` yields. */
    function Len(): (n: nat)
      reads this
      ensures n == |Iter()|
    {
      |hosts| + |switches| + |controllers|
    }

    /** Every name `in net` is among the names `iter(net)` yields. */
    lemma ContainsIterated(k: string)
      ensures Valid() && k in nameToNode ==> k in Iter()
    {
      if Valid() && k in nameToNode {
        var n := nameToNode[k];
        var it := Iter();
        if n in hosts {
          var i :| 0 <= i < |hosts| && hosts[i] == n;
          assert it[i] == k;
        } else if n in switches {
          var i :| 0 <= i < |switches| && switches[i] == n;
          assert it[|hosts| + i] == k;
        } else {
          var i :| 0 <= i < |controllers| && controllers[i] == n;
          assert it[|hosts| + |switches| + i] == k;
        }
      }
    }

    // -------------------------------------------------------------------
    // Allocation and registration

    /** `getNextIp()`: the address for the current counter, then a bump. */
    method GetNextIp() returns (ip: IpPrefix)
      requires Valid()
      modifies this
      ensures Valid()
      ensures ip == IpPrefix(old(nextIP), ipBaseNum, prefixLen) && nextIP == old(nextIP) + 1
      ensures nextCore == old(nextCore) && listenPort == old(listenPort)
      ensures hosts == old(hosts) && switches == old(switches) && controllers == old(controllers)
      ensures links == old(links) && nameToNode == old(nameToNode)
      ensures terms == old(terms) && built == old(built) && trace == old(trace)
    {
      ip := IpPrefix(nextIP, ipBaseNum, prefixLen);
      nextIP := nextIP + 1;
    }

    /** `addHost(name, cls, **params)`. The host is built with the defaults
        for the current counters overridden by `params`; a name already in
        use is taken over by the new host. */
    method AddHost(name: string, cls: Option<ClassTag>, params: Params) returns (h: Node)
      requires Valid()
      modifies this
      ensures Valid()
      ensures fresh(h)
      ensures h.name == name && h.role == HostRole && h.cls == (if cls.Some? then cls.value else hostClass)
      ensures h.params == Merge(HostDefaults(old(nextIP), ipBaseNum, prefixLen, autoSetMacs, autoPinCpus, old(nextCore)), params)
      ensures hosts == old(hosts) + [h] && nameToNode == old(nameToNode)[name := h]
      ensures nextIP == old(nextIP) + 1
      ensures nextCore == if autoPinCpus then NextCore(old(nextCore), numCores) else old(nextCore)
      ensures listenPort == old(listenPort) && switches == old(switches) && controllers == old(controllers)
      ensures links == old(links) && terms == old(terms) && built == old(built) && trace == old(trace)
    {
      var defaults := HostDefaults(nextIP, ipBaseNum, prefixLen, autoSetMacs, autoPinCpus, nextCore);
      if autoPinCpus {
        NextCoreCycles(pinned, numCores);
        nextCore := NextCore(nextCore, numCores);
        pinned := pinned + 1;
      }
      nextIP := nextIP + 1;
      var c := if cls.Some? then cls.value else hostClass;
      h := new Node(name, HostRole, c, Merge(defaults, params));
      NoDupsAppend(hosts, h);
      RegisterNode(nameToNode, hosts, switches, controllers, hosts + [h], switches, controllers, h);
      hosts := hosts + [h];
      nameToNode := nameToNode[name := h];
    }

    /** `removeHost(name)`. A name (or a node, standing for its name) that is
        not registered gives `False` and changes nothing. Otherwise the
        registered node is dropped from `hosts` (if it is there), its name is
        unregistered, it is stopped with `deleteIntfs=True`, and the result is
        `True`. */
    method RemoveHost(name: NodeRef) returns (ok: bool)
      requires Valid()
      modifies this
      ensures Valid()
      ensures ok <==> KeyOf(name).Some? && KeyOf(name).value in old(nameToNode)
      ensures !ok ==> hosts == old(hosts) && nameToNode == old(nameToNode) && trace == old(trace)
      ensures ok ==>
        var key := KeyOf(name).value;
        var h := old(nameToNode)[key];
        && hosts == RemoveFirst(old(hosts), h)
        && h !in hosts
        && nameToNode == old(nameToNode) - {key}
        && trace == old(trace) + [Event.Stop(h, true)]
      ensures nextIP == old(nextIP) && nextCore == old(nextCore) && listenPort == old(listenPort)
      ensures switches == old(switches) && controllers == old(controllers) && links == old(links)
      ensures terms == old(terms) && built == old(built)
    {
      var key := KeyOf(name);
      var found := if key.Some? then Get(key.value) else None;
      if found.None? {
        return false;
      }
      var h := found.value;
      var oldHosts := hosts;
      if h in hosts {
        hosts := RemoveFirst(hosts, h);
      }
      if key.value in nameToNode {
        nameToNode := nameToNode - {key.value};
      }
      trace := trace + [Event.Stop(h, true)];
      RemoveFirstMembers(oldHosts, h);
      RemoveFirstNoDups(oldHosts, h);
      assert AllRole(hosts, HostRole) by {
        forall i | 0 <= i < |hosts| ensures hosts[i].role == HostRole {
          assert hosts[i] in oldHosts;
        }
      }
      forall k | k in nameToNode
        ensures nameToNode[k] in hosts || nameToNode[k] in switches || nameToNode[k] in controllers
      {
        assert nameToNode[k] != h;
      }
      return true;
    }

    /** `addSwitch(name, cls, **params)`. The switch is offered the current
        `listenPort` unless `params` says otherwise; the counter then moves on
        by one outside namespaces while it is set. */
    method AddSwitch(name: string, cls: Option<ClassTag>, params: Params) returns (sw: Node)
      requires Valid()
      modifies this
      ensures Valid()
      ensures fresh(sw)
      ensures sw.name == name && sw.role == SwitchRole && sw.cls == (if cls.Some? then cls.value else switchClass)
      ensures sw.params == Merge(SwitchDefaults(old(listenPort), inNamespace), params)
      ensures switches == old(switches) + [sw] && nameToNode == old(nameToNode)[name := sw]
      ensures listenPort == if !inNamespace && PortIsSet(old(listenPort)) then Some(old(listenPort).value + 1)
                            else old(listenPort)
      ensures nextIP == old(nextIP) && nextCore == old(nextCore) && hosts == old(hosts)
      ensures controllers == old(controllers) && links == old(links)
      ensures terms == old(terms) && built == old(built) && trace == old(trace)
    {
      var defaults := SwitchDefaults(listenPort, inNamespace);
      var c := if cls.Some? then cls.value else switchClass;
      sw := new Node(name, SwitchRole, c, Merge(defaults, params));
      if !inNamespace && PortIsSet(listenPort) {
        listenPort := Some(listenPort.value + 1);
      }
      NoDupsAppend(switches, sw);
      RegisterNode(nameToNode, hosts, switches, controllers, hosts, switches + [sw], controllers, sw);
      switches := switches + [sw];
      nameToNode := nameToNode[name := sw];
    }

    /** `addController(name, controller, **params)`. A ready controller is
        registered under its own name; otherwise the given class, or else the
        network's default, is instantiated, which raises `TypeError` when
        there is no class to call. */
    method AddController(name: CtrlArg, controller: Option<ClassTag>, params: Params) returns (r: Result<Node>)
      requires Valid()
      requires name.CtrlObject? ==> name.node.role == ControllerRole
      modifies this
      ensures Valid()
      ensures r.Err? <==> name.CtrlName? && controller.None? && !controllerDefault.OneClass?
      ensures r.Err? ==> r.error == TypeError && controllers == old(controllers) && nameToNode == old(nameToNode)
      ensures r.Ok? && name.CtrlObject? ==> r.value == name.node
      ensures r.Ok? && name.CtrlName? ==>
        && fresh(r.value) && r.value.name == name.name && r.value.role == ControllerRole
        && r.value.cls == (if controller.Some? then controller.value else controllerDefault.cls)
        && r.value.params == params
      ensures r.Ok? ==> controllers == old(controllers) + [r.value]
                        && nameToNode == old(nameToNode)[r.value.name := r.value]
      ensures nextIP == old(nextIP) && nextCore == old(nextCore) && listenPort == old(listenPort)
      ensures hosts == old(hosts) && switches == old(switches) && links == old(links)
      ensures terms == old(terms) && built == old(built) && trace == old(trace)
    {
      var c: Node;
      match name {
        case CtrlObject(node) =>
          c := node;
        case CtrlName(n) =>
          if controller.Some? {
            c := new Node(n, ControllerRole, controller.value, params);
          } else if controllerDefault.OneClass? {
            c := new Node(n, ControllerRole, controllerDefault.cls, params);
          } else {
            return Err(TypeError);
          }
      }
      RegisterNode(nameToNode, hosts, switches, controllers, hosts, switches, controllers + [c], c);
      controllers := controllers + [c];
      nameToNode := nameToNode[c.name := c];
      return Ok(c);
    }

    // -------------------------------------------------------------------
    // Links

    /** `self[node]` for a name, the node itself otherwise. */
    function Resolve(e: Endpoint): (r: Result<Node>)
      reads this
      ensures r.Err? <==> e.ByName? && !Contains(e.name)
      ensures r.Err? ==> r.error == KeyError(e.name)
      ensures r.Ok? && e.ByNode? ==> r.value == e.node
      ensures r.Ok? && e.ByName? ==> Get(e.name) == Some(r.value)
    {
      match e
      case ByNode(n) => Ok(n)
      case ByName(s) => Item(s)
    }

    /** `addLink(node1, node2, port1, port2, cls, **params)`. Names are looked
        up first (`KeyError` for an unknown one, and nothing happens); then a
        link is built with `LinkOptions` and appended, and each endpoint that
        is an `OVSSwitch` attaches its side. `draw1` and `draw2` are the two
        `randint` draws `randMac` makes. */
    method AddLink(node1: Endpoint, node2: Endpoint, port1: Option<int>, port2: Option<int>,
                   cls: Option<ClassTag>, params: Params, draw1: int, draw2: int) returns (r: Result<Link>)
      requires Valid()
      requires 1 <= draw1 < 0x1_0000_0000_0000 && 1 <= draw2 < 0x1_0000_0000_0000
      modifies this
      ensures Valid()
      ensures r.Err? <==> Resolve(node1).Err? || Resolve(node2).Err?
      ensures r.Err? ==> r.error == (if Resolve(node1).Err? then Resolve(node1).error else Resolve(node2).error)
      ensures r.Err? ==> links == old(links) && trace == old(trace)
      ensures r.Ok? ==>
        var l := r.value;
        && fresh(l)
        && l.node1 == Resolve(node1).value && l.node2 == Resolve(node2).value
        && l.cls == (if cls.Some? then cls.value else linkClass)
        && l.options == LinkOptions(params, port1, port2, intfClass, draw1, draw2)
        && links == old(links) + [l]
        && trace == old(trace) + AttachEvents(l, ovsClasses)
      ensures nextIP == old(nextIP) && nextCore == old(nextCore) && listenPort == old(listenPort)
      ensures hosts == old(hosts) && switches == old(switches) && controllers == old(controllers)
      ensures nameToNode == old(nameToNode) && terms == old(terms) && built == old(built)
    {
      var a, b := Resolve(node1), Resolve(node2);
      if a.Err? || b.Err? {
        return Err(if a.Err? then a.error else b.error);
      }
      var options := LinkOptions(params, port1, port2, intfClass, draw1, draw2);
      var c := if cls.Some? then cls.value else linkClass;
      var l := new Link(a.value, b.value, c, options);
      trace := trace + AttachEvents(l, ovsClasses);
      NoDupsAppend(links, l);
      links := links + [l];
      return Ok(l);
    }

    /** The endpoints `removeLink` searches for: two names are looked up
        (`None` when unknown); a node stands for itself; anything else (a
        `None`, or a name next to a node) matches no link end. */
    function SearchEnds(node1: NodeRef, node2: NodeRef): (r: (Option<Node>, Option<Node>))
      reads this
      ensures node1.Handle? && node2.Handle? ==> r == (Some(node1.node), Some(node2.node))
      ensures node1.Named? && node2.Named? ==>
        && (r.0.Some? <==> Contains(node1.name)) && (r.1.Some? <==> Contains(node2.name))
        && (r.0.Some? ==> r.0 == Get(node1.name)) && (r.1.Some? ==> r.1 == Get(node2.name))
      ensures node1.Named? != node2.Named? ==> (node1.Named? ==> r.0.None?) && (node2.Named? ==> r.1.None?)
      ensures (node1.NoNode? ==> r.0.None?) && (node2.NoNode? ==> r.1.None?)
      ensures (node1.Handle? ==> r.0 == Some(node1.node)) && (node2.Handle? ==> r.1 == Some(node2.node))
    {
      if node1.Named? && node2.Named? then (Get(node1.name), Get(node2.name))
      else (if node1.Handle? then Some(node1.node) else None, if node2.Handle? then Some(node2.node) else None)
    }

    /** The link `removeLink` acts on: the one given, or else the first in
        `links` joining the two ends in either order. */
    function Target(link: Option<Link>, node1: NodeRef, node2: NodeRef): (t: Option<Link>)
      reads this
      ensures link.Some? ==> t == link
      ensures link.None? ==> var (a, b) := SearchEnds(node1, node2);
        && (t.None? <==> forall j :: 0 <= j < |links| ==> !Joins(links[j], a, b))
        && (t.Some? ==> exists i :: 0 <= i < |links| && links[i] == t.value && Joins(links[i], a, b)
                                    && forall j :: 0 <= j < i ==> !Joins(links[j], a, b))
    {
      if link.Some? then link
      else
        var (a, b) := SearchEnds(node1, node2);
        match FindLink(links, a, b)
        case None => None
        case Some(i) => Some(links[i])
    }

    /** `removeLink(link, node1, node2)`. With no link to act on, nothing
        changes. Otherwise the link is deleted and its first occurrence
        removed from `links`; a given link that is not in the list makes
        `links.remove` raise `ValueError` after the delete. */
    method RemoveLink(link: Option<Link>, node1: NodeRef, node2: NodeRef) returns (r: LinkRemoval)
      requires Valid()
      modifies this
      ensures Valid()
      ensures var t := old(Target(link, node1, node2));
        && (t.None? ==> r == NotFound && links == old(links) && trace == old(trace))
        && (t.Some? ==> trace == old(trace) + [DeleteLink(t.value)])
        && (t.Some? && t.value in old(links) ==>
              r == Removed(t.value) && links == RemoveFirst(old(links), t.value) && t.value !in links)
        && (t.Some? && t.value !in old(links) ==> r == Raised(ValueError) && links == old(links))
      ensures nextIP == old(nextIP) && nextCore == old(nextCore) && listenPort == old(listenPort)
      ensures hosts == old(hosts) && switches == old(switches) && controllers == old(controllers)
      ensures nameToNode == old(nameToNode) && terms == old(terms) && built == old(built)
    {
      var target := link;
      if target.None? {
        var (a, b) := SearchEnds(node1, node2);
        var i := 0;
        while i < |links|
          invariant 0 <= i <= |links|
          invariant forall j :: 0 <= j < i ==> !Joins(links[j], a, b)
        {
          var l := links[i];
          if a == Some(l.node1) && b == Some(l.node2) {
            target := Some(l);
            break;
          }
          if a == Some(l.node2) && b == Some(l.node1) {
            target := Some(l);
            break;
          }
          i := i + 1;
        }
        assert target == Target(link, node1, node2);
      }
      if target.None? {
        return NotFound;
      }
      var l := target.value;
      trace := trace + [DeleteLink(l)];
      if l !in links {
        return Raised(ValueError);
      }
      RemoveFirstNoDups(links, l);
      links := RemoveFirst(links, l);
      return Removed(l);
    }

    // -------------------------------------------------------------------
    // Waiting for switches

    /** `waitConnected(timeout, delay)` with `connected` as the switches'
        answers and at most `fuel` poll passes; the final re-check after a
        timeout asks every remaining switch once more. */
    method WaitConnected(timeout: Option<int>, delay: nat, connected: (nat, Node) -> bool, fuel: nat)
      returns (r: Waiter.WaitResult<Node>)
      requires NoDups(switches)
      ensures r == Waiter.WaitFrom(switches, 0, 0, timeout, delay, connected, fuel)
    {
      var time := 0;
      var round := 0;
      var remaining := switches;
      var f := fuel;
      while f > 0
        invariant NoDups(remaining)
        invariant Waiter.WaitFrom(remaining, round, time, timeout, delay, connected, f)
               == Waiter.WaitFrom(switches, 0, 0, timeout, delay, connected, fuel)
        decreases f
      {
        Waiter.PollNoDups(remaining, round, connected);
        remaining := PollPass(remaining, round, connected);
        if remaining == [] {
          return Waiter.Finished(true, [], round);
        }
        if timeout.Some? && time > timeout.value {
          Waiter.PollNoDups(remaining, round + 1, connected);
          remaining := PollPass(remaining, round + 1, connected);
          return Waiter.Finished(remaining == [], remaining, round + 1);
        }
        time := time + delay;
        round := round + 1;
        f := f - 1;
      }
      return Waiter.Waiting;
    }

    // -------------------------------------------------------------------
    // Building from a topology

    /** The core the `k`-th host of a run of `addHost` calls is offered when
        the run starts with `nextCore` at `core`. */
    function PinnedCore(core: nat, k: nat): nat
      requires numCores >= 1
    {
      if autoPinCpus then CoreAfter(core, numCores, k) else core
    }

    /** `c` is the default controller `c<i>` built from class `cls`. */
    predicate ControllerFrom(c: Node, i: nat, cls: ClassTag) {
      c.name == "c" + Decimal(i) && c.role == ControllerRole && c.cls == cls && c.params == map[]
    }

    /** `h` is the host `addHost` builds for `s` with the counters at `ip` and
        `core`. */
    predicate HostFrom(h: Node, s: NodeSpec, ip: int, core: nat) {
      && h.name == s.name && h.role == HostRole
      && h.cls == (if s.cls.Some? then s.cls.value else hostClass)
      && h.params == Merge(HostDefaults(ip, ipBaseNum, prefixLen, autoSetMacs, autoPinCpus, core), s.params)
    }

    /** `sw` is the switch `addSwitch` builds for `s` with `listenPort` at
        `port`. */
    predicate SwitchFrom(sw: Node, s: NodeSpec, port: Option<int>) {
      && sw.name == s.name && sw.role == SwitchRole
      && sw.cls == (if s.cls.Some? then s.cls.value else switchClass)
      && sw.params == Merge(SwitchDefaults(port, inNamespace), s.params)
    }

    /** `k` is the link `addLink` builds for `s` with options `opts` and
        registry `reg`: both endpoint names are registered and `k` joins
        their nodes. */
    predicate LinkFrom(k: Link, s: LinkSpec, opts: Params, reg: map<string, Node>) {
      && s.node1 in reg && s.node2 in reg
      && k.node1 == reg[s.node1] && k.node2 == reg[s.node2]
      && k.cls == (if s.cls.Some? then s.cls.value else linkClass)
      && k.options == opts
    }

    /** The options of each link of a topology: `LinkOptions` for its
        specification and its two MAC draws. */
    function TopoLinkOptions(specs: seq<LinkSpec>, draws: seq<int>): seq<Params>
      requires |draws| == 2 * |specs| && forall k :: 0 <= k < |draws| ==> 1 <= draws[k] < 0x1_0000_0000_0000
    {
      seq(|specs|, j requires 0 <= j < |specs| =>
        LinkOptions(specs[j].params, specs[j].port1, specs[j].port2, intfClass, draws[2 * j], draws[2 * j + 1]))
    }

    /** Each of `ls` is the link built for the specification and options at
        its position. */
    predicate LinksFrom(ls: seq<Link>, specs: seq<LinkSpec>, opts: seq<Params>, reg: map<string, Node>) {
      && |ls| <= |specs| && |opts| == |specs|
      && forall j :: 0 <= j < |ls| ==> LinkFrom(ls[j], specs[j], opts[j], reg)
    }

    lemma LinksFromAppend(ls: seq<Link>, l: Link, specs: seq<LinkSpec>, opts: seq<Params>, reg: map<string, Node>, i: nat)
      requires LinksFrom(ls, specs, opts, reg) && i == |ls| < |specs|
      requires LinkFrom(l, specs[i], opts[i], reg)
      ensures LinksFrom(ls + [l], specs, opts, reg)
    {
      forall j | 0 <= j < |ls| + 1
        ensures LinkFrom((ls + [l])[j], specs[j], opts[j], reg)
      {
        if j < |ls| {
          assert (ls + [l])[j] == ls[j];
        }
      }
    }

    /** The default controllers `buildFromTopo` adds when the network has
        none: `c0`, `c1`, ... from the default class or list of classes, each
        registered under its name. */
    method AddDefaultControllers()
      requires Valid()
      modifies this
      ensures Valid()
      ensures var cs := DefaultClasses(controllerDefault);
        if old(controllers) == [] && cs != [] then
          && |controllers| == |cs|
          && (forall i :: 0 <= i < |cs| ==> ControllerFrom(controllers[i], i, cs[i]))
          && nameToNode == RegisterAll(old(nameToNode), controllers)
        else controllers == old(controllers) && nameToNode == old(nameToNode)
      ensures nextIP == old(nextIP) && nextCore == old(nextCore) && listenPort == old(listenPort)
      ensures hosts == old(hosts) && switches == old(switches) && links == old(links)
      ensures terms == old(terms) && built == old(built) && trace == old(trace)
    {
      var cs := DefaultClasses(controllerDefault);
      if controllers == [] && cs != [] {
        for i := 0 to |cs|
          invariant Valid()
          invariant |controllers| == i
          invariant forall j :: 0 <= j < i ==> ControllerFrom(controllers[j], j, cs[j])
          invariant nameToNode == RegisterAll(old(nameToNode), controllers)
          invariant nextIP == old(nextIP) && nextCore == old(nextCore) && listenPort == old(listenPort)
          invariant hosts == old(hosts) && switches == old(switches) && links == old(links)
          invariant terms == old(terms) && built == old(built) && trace == old(trace)
        {
          ghost var prev := controllers;
          var r := AddController(CtrlName("c" + Decimal(i)), Some(cs[i]), map[]);
          RegisterAllAppend(old(nameToNode), prev, r.value);
        }
      }
    }

    /** After the first `i` hosts of a run over `specs` that started with
        `h0`, `reg0`, `ip0` and `core0` as hosts, registry and counters. */
    ghost predicate HostsRun(h0: seq<Node>, reg0: map<string, Node>, ip0: int, core0: nat, specs: seq<NodeSpec>, i: nat)
      reads this
    {
      && numCores >= 1 && i <= |specs|
      && |hosts| == |h0| + i && hosts[..|h0|] == h0
      && (forall j :: 0 <= j < i ==> HostFrom(hosts[|h0| + j], specs[j], ip0 + j, PinnedCore(core0, j)))
      && nameToNode == RegisterAll(reg0, hosts[|h0|..])
      && nextIP == ip0 + i && nextCore == PinnedCore(core0, i)
    }

    /** The `i`-th `addHost` of a run over `specs`. */
    method AddRunHost(specs: seq<NodeSpec>, i: nat, ghost h0: seq<Node>, ghost reg0: map<string, Node>,
                      ghost ip0: int, ghost core0: nat)
      requires Valid() && i < |specs| && HostsRun(h0, reg0, ip0, core0, specs, i)
      modifies this
      ensures Valid() && HostsRun(h0, reg0, ip0, core0, specs, i + 1)
      ensures listenPort == old(listenPort) && switches == old(switches) && controllers == old(controllers)
      ensures links == old(links) && terms == old(terms) && built == old(built) && trace == old(trace)
    {
      ghost var prev := hosts;
      var h := AddHost(specs[i].name, specs[i].cls, specs[i].params);
      assert hosts[|h0|..] == prev[|h0|..] + [h];
      RegisterAllAppend(reg0, prev[|h0|..], h);
      forall j | 0 <= j < i + 1
        ensures HostFrom(hosts[|h0| + j], specs[j], ip0 + j, PinnedCore(core0, j))
      {
        if j < i {
          assert hosts[|h0| + j] == prev[|h0| + j];
        }
      }
    }

    /** `addHost(name, **topo.nodeInfo(name))` for each host of the topology:
        the `i`-th new host gets address counter `nextIP + i` and, when
        pinning, the core `i` steps on; each is registered in turn. */
    method AddTopoHosts(specs: seq<NodeSpec>)
      requires Valid()
      modifies this
      ensures Valid()
      ensures |hosts| == |old(hosts)| + |specs| && hosts[..|old(hosts)|] == old(hosts)
      ensures forall i :: 0 <= i < |specs| ==>
        HostFrom(hosts[|old(hosts)| + i], specs[i], old(nextIP) + i, PinnedCore(old(nextCore), i))
      ensures nameToNode == RegisterAll(old(nameToNode), hosts[|old(hosts)|..])
      ensures nextIP == old(nextIP) + |specs| && nextCore == PinnedCore(old(nextCore), |specs|)
      ensures listenPort == old(listenPort) && switches == old(switches) && controllers == old(controllers)
      ensures links == old(links) && terms == old(terms) && built == old(built) && trace == old(trace)
    {
      assert hosts[|hosts|..] == [];
      for i := 0 to |specs|
        invariant Valid() && HostsRun(old(hosts), old(nameToNode), old(nextIP), old(nextCore), specs, i)
        invariant listenPort == old(listenPort) && switches == old(switches) && controllers == old(controllers)
        invariant links == old(links) && terms == old(terms) && built == old(built) && trace == old(trace)
      {
        AddRunHost(specs, i, old(hosts), old(nameToNode), old(nextIP), old(nextCore));
      }
    }

    /** After the first `i` switches of a run over `specs` that started with
        `s0`, `reg0` and `port0` as switches, registry and `listenPort`. */
    ghost predicate SwitchesRun(s0: seq<Node>, reg0: map<string, Node>, port0: Option<int>, specs: seq<NodeSpec>, i: nat)
      reads this
    {
      && i <= |specs|
      && |switches| == |s0| + i && switches[..|s0|] == s0
      && (forall j :: 0 <= j < i ==> SwitchFrom(switches[|s0| + j], specs[j], PortAfter(port0, inNamespace, j)))
      && nameToNode == RegisterAll(reg0, switches[|s0|..])
      && port0 == PortAfter(listenPortBase, inNamespace, |s0|)
    }

    /** The `i`-th `addSwitch` of a run over `specs`. */
    method AddRunSwitch(specs: seq<NodeSpec>, i: nat, ghost s0: seq<Node>, ghost reg0: map<string, Node>,
                        ghost port0: Option<int>)
      requires Valid() && i < |specs| && SwitchesRun(s0, reg0, port0, specs, i)
      modifies this
      ensures Valid() && SwitchesRun(s0, reg0, port0, specs, i + 1)
      ensures nextIP == old(nextIP) && nextCore == old(nextCore) && hosts == old(hosts)
      ensures controllers == old(controllers) && links == old(links)
      ensures terms == old(terms) && built == old(built) && trace == old(trace)
    {
      ghost var prev := switches;
      PortAfterAdd(listenPortBase, inNamespace, |s0|, i);
      var sw := AddSwitch(specs[i].name, specs[i].cls, specs[i].params);
      assert switches[|s0|..] == prev[|s0|..] + [sw];
      RegisterAllAppend(reg0, prev[|s0|..], sw);
      forall j | 0 <= j < i + 1
        ensures SwitchFrom(switches[|s0| + j], specs[j], PortAfter(port0, inNamespace, j))
      {
        if j < i {
          assert switches[|s0| + j] == prev[|s0| + j];
        }
      }
    }

    /** `addSwitch(name, **topo.nodeInfo(name))` for each switch of the
        topology: the `i`-th new switch is offered `listenPort` as it stands
        after `i` steps; each is registered in turn. */
    method AddTopoSwitches(specs: seq<NodeSpec>)
      requires Valid()
      modifies this
      ensures Valid()
      ensures |switches| == |old(switches)| + |specs| && switches[..|old(switches)|] == old(switches)
      ensures forall i :: 0 <= i < |specs| ==>
        SwitchFrom(switches[|old(switches)| + i], specs[i], PortAfter(old(listenPort), inNamespace, i))
      ensures nameToNode == RegisterAll(old(nameToNode), switches[|old(switches)|..])
      ensures listenPort == PortAfter(old(listenPort), inNamespace, |specs|)
      ensures nextIP == old(nextIP) && nextCore == old(nextCore) && hosts == old(hosts)
      ensures controllers == old(controllers) && links == old(links)
      ensures terms == old(terms) && built == old(built) && trace == old(trace)
    {
      assert switches[|switches|..] == [];
      for i := 0 to |specs|
        invariant Valid() && SwitchesRun(old(switches), old(nameToNode), old(listenPort), specs, i)
        invariant nextIP == old(nextIP) && nextCore == old(nextCore) && hosts == old(hosts)
        invariant controllers == old(controllers) && links == old(links)
        invariant terms == old(terms) && built == old(built) && trace == old(trace)
      {
        AddRunSwitch(specs, i, old(switches), old(nameToNode), old(listenPort));
      }
      PortAfterAdd(listenPortBase, inNamespace, |old(switches)|, |specs|);
    }

    /** Every endpoint name of every link specification is registered. */
    predicate LinksResolve(specs: seq<LinkSpec>)
      reads this`nameToNode
    {
      forall i :: 0 <= i < |specs| ==> specs[i].node1 in nameToNode && specs[i].node2 in nameToNode
    }

    /** `addLink(**params)` for one link specification of the topology: an
        unknown endpoint name raises `KeyError` (for the first endpoint when
        both are unknown) and nothing happens; otherwise the new link is built
        from the specification and appended, and its OVS ends attach it. */
    method AddSpecLink(l: LinkSpec, draw1: int, draw2: int) returns (r: Result<Link>)
      requires Valid()
      requires 1 <= draw1 < 0x1_0000_0000_0000 && 1 <= draw2 < 0x1_0000_0000_0000
      modifies this
      ensures Valid()
      ensures r.Err? <==> !(l.node1 in nameToNode && l.node2 in nameToNode)
      ensures r.Err? ==>
        && r.error == KeyError(if l.node1 in nameToNode then l.node2 else l.node1)
        && links == old(links) && trace == old(trace)
      ensures r.Ok? ==>
        && links == old(links) + [r.value]
        && LinkFrom(r.value, l, LinkOptions(l.params, l.port1, l.port2, intfClass, draw1, draw2), nameToNode)
        && trace == old(trace) + AttachEvents(r.value, ovsClasses)
      ensures nextIP == old(nextIP) && nextCore == old(nextCore) && listenPort == old(listenPort)
      ensures hosts == old(hosts) && switches == old(switches) && controllers == old(controllers)
      ensures nameToNode == old(nameToNode) && terms == old(terms) && built == old(built)
    {
      r := AddLink(ByName(l.node1), ByName(l.node2), l.port1, l.port2, l.cls, l.params, draw1, draw2);
    }

    /** `ls` and `tr` are the links and trace after the links `done` of a run
        over `specs` (with options `opts`) that started with `l0` and
        `trace0`. */
    predicate LinksRun(ls: seq<Link>, tr: seq<Event>, reg: map<string, Node>, l0: seq<Link>, trace0: seq<Event>,
                       done: seq<Link>, specs: seq<LinkSpec>, opts: seq<Params>) {
      && ls == l0 + done
      && LinksFrom(done, specs, opts, reg)
      && tr == trace0 + AttachAll(done, ovsClasses)
    }

    lemma LinksRunStep(ls: seq<Link>, tr: seq<Event>, reg: map<string, Node>, l0: seq<Link>, trace0: seq<Event>,
                       done: seq<Link>, specs: seq<LinkSpec>, opts: seq<Params>, i: nat, l: Link)
      requires LinksRun(ls, tr, reg, l0, trace0, done, specs, opts) && i == |done| < |specs|
      requires LinkFrom(l, specs[i], opts[i], reg)
      ensures LinksRun(ls + [l], tr + AttachEvents(l, ovsClasses), reg, l0, trace0, done + [l], specs, opts)
    {
      assert ls + [l] == l0 + (done + [l]);
      AttachAllAppend(done, l, ovsClasses);
      assert tr + AttachEvents(l, ovsClasses) == trace0 + AttachAll(done + [l], ovsClasses);
      LinksFromAppend(done, l, specs, opts, reg, i);
    }

    /** The next `addLink` of a run over `specs`; an unknown endpoint name
        raises `KeyError` and changes nothing. */
    method AddRunLink(specs: seq<LinkSpec>, draws: seq<int>, i: nat, ghost opts: seq<Params>,
                      ghost l0: seq<Link>, ghost trace0: seq<Event>, ghost done: seq<Link>)
      returns (err: Option<PyError>, ghost done': seq<Link>)
      requires |draws| == 2 * |specs| && forall k :: 0 <= k < |draws| ==> 1 <= draws[k] < 0x1_0000_0000_0000
      requires opts == TopoLinkOptions(specs, draws)
      requires Valid() && LinksRun(links, trace, nameToNode, l0, trace0, done, specs, opts) && i == |done| < |specs|
      modifies this
      ensures Valid()
      ensures var s := specs[i];
        && (err.Some? <==> !(s.node1 in nameToNode && s.node2 in nameToNode))
        && (err.Some? ==> err.value == KeyError(if s.node1 in nameToNode then s.node2 else s.node1))
      ensures err.Some? ==> links == old(links) && trace == old(trace) && done' == done
      ensures err.None? ==> |done'| == |done| + 1 && LinksRun(links, trace, nameToNode, l0, trace0, done', specs, opts)
      ensures nextIP == old(nextIP) && nextCore == old(nextCore) && listenPort == old(listenPort)
      ensures hosts == old(hosts) && switches == old(switches) && controllers == old(controllers)
      ensures nameToNode == old(nameToNode) && terms == old(terms) && built == old(built)
    {
      var r := AddSpecLink(specs[i], draws[2 * i], draws[2 * i + 1]);
      if r.Err? {
        return Some(r.error), done;
      }
      assert opts[i] == LinkOptions(specs[i].params, specs[i].port1, specs[i].port2, intfClass, draws[2 * i], draws[2 * i + 1]);
      LinksRunStep(old(links), old(trace), nameToNode, l0, trace0, done, specs, opts, i, r.value);
      return None, done + [r.value];
    }

    /** `addLink(**params)` for each link of the topology; the first link
        with an unknown endpoint name raises `KeyError`, which ends the
        build with the links before it in place. `draws` holds the two
        `randMac` draws of each link. */
    method AddTopoLinks(specs: seq<LinkSpec>, draws: seq<int>) returns (err: Option<PyError>)
      requires Valid()
      requires |draws| == 2 * |specs| && forall k :: 0 <= k < |draws| ==> 1 <= draws[k] < 0x1_0000_0000_0000
      modifies this
      ensures Valid()
      ensures |old(links)| <= |links| && links[..|old(links)|] == old(links)
      ensures LinksFrom(links[|old(links)|..], specs, TopoLinkOptions(specs, draws), nameToNode)
      ensures err.None? <==> |links| == |old(links)| + |specs|
      ensures err.None? <==> LinksResolve(specs)
      ensures err.Some? ==>
        var s := specs[|links| - |old(links)|];
        && !(s.node1 in nameToNode && s.node2 in nameToNode)
        && err.value == KeyError(if s.node1 in nameToNode then s.node2 else s.node1)
      ensures trace == old(trace) + AttachAll(links[|old(links)|..], ovsClasses)
      ensures nextIP == old(nextIP) && nextCore == old(nextCore) && listenPort == old(listenPort)
      ensures hosts == old(hosts) && switches == old(switches) && controllers == old(controllers)
      ensures nameToNode == old(nameToNode) && terms == old(terms) && built == old(built)
    {
      ghost var opts := TopoLinkOptions(specs, draws);
      ghost var done: seq<Link> := [];
      assert links == old(links) + done;
      for i := 0 to |specs|
        invariant Valid() && LinksRun(links, trace, nameToNode, old(links), old(trace), done, specs, opts) && |done| == i
        invariant nextIP == old(nextIP) && nextCore == old(nextCore) && listenPort == old(listenPort)
        invariant hosts == old(hosts) && switches == old(switches) && controllers == old(controllers)
        invariant nameToNode == old(nameToNode) && terms == old(terms) && built == old(built)
      {
        err, done := AddRunLink(specs, draws, i, opts, old(links), old(trace), done);
        if err.Some? {
          assert !LinksResolve(specs) by {
            assert !(specs[i].node1 in nameToNode && specs[i].node2 in nameToNode);
          }
          assert links[|old(links)|..] == done;
          return;
        }
      }
      assert links[|old(links)|..] == done;
      assert LinksResolve(specs) by {
        forall i | 0 <= i < |specs| ensures specs[i].node1 in nameToNode && specs[i].node2 in nameToNode {
          assert LinkFrom(done[i], specs[i], opts[i], nameToNode);
        }
      }
      return None;
    }

    /** The node-adding part of `buildFromTopo`: default controllers, then
        the topology's hosts, then its switches, each registered as it is
        added. */
    method BuildNodes(t: Topo)
      requires Valid()
      modifies this
      ensures Valid()
      ensures var cs := DefaultClasses(controllerDefault);
        if old(controllers) == [] && cs != [] then
          && |controllers| == |cs|
          && forall i :: 0 <= i < |cs| ==> ControllerFrom(controllers[i], i, cs[i])
        else controllers == old(controllers)
      ensures |hosts| == |old(hosts)| + |t.hosts| && hosts[..|old(hosts)|] == old(hosts)
      ensures forall i :: 0 <= i < |t.hosts| ==>
        HostFrom(hosts[|old(hosts)| + i], t.hosts[i], old(nextIP) + i, PinnedCore(old(nextCore), i))
      ensures nextIP == old(nextIP) + |t.hosts| && nextCore == PinnedCore(old(nextCore), |t.hosts|)
      ensures |switches| == |old(switches)| + |t.switches| && switches[..|old(switches)|] == old(switches)
      ensures forall i :: 0 <= i < |t.switches| ==>
        SwitchFrom(switches[|old(switches)| + i], t.switches[i], PortAfter(old(listenPort), inNamespace, i))
      ensures listenPort == PortAfter(old(listenPort), inNamespace, |t.switches|)
      ensures nameToNode == RegisterAll(RegisterAll(RegisterAll(old(nameToNode),
        controllers[|old(controllers)|..]), hosts[|old(hosts)|..]), switches[|old(switches)|..])
      ensures links == old(links) && trace == old(trace) && terms == old(terms) && built == old(built)
    {
      AddDefaultControllers();
      assert controllers[|old(controllers)|..] == (if old(controllers) == [] then controllers else []);
      AddTopoHosts(t.hosts);
      AddTopoSwitches(t.switches);
    }

    /** What `buildFromTopo(t)` leaves in the nodes, links, registry and
        counters, against the state it started from: default controllers,
        hosts and switches as `BuildNodes` adds them, then the links of a
        prefix of `t.links`, all of them exactly when every endpoint name
        resolves, and otherwise up to the first specification that does not
        resolve. */
    twostate predicate TopoBuilt(t: Topo, draws: seq<int>)
      requires |draws| == 2 * |t.links| && forall k :: 0 <= k < |draws| ==> 1 <= draws[k] < 0x1_0000_0000_0000
      reads this`controllers, this`hosts, this`switches, this`links, this`nameToNode
      reads this`nextIP, this`nextCore, this`listenPort
    {
      NodesBuilt(t) && LinksBuilt(t, draws)
    }

    /** The nodes, registry and counters after the node half of
        `buildFromTopo(t)`. */
    twostate predicate NodesBuilt(t: Topo)
      reads this`controllers, this`hosts, this`switches, this`nameToNode
      reads this`nextIP, this`nextCore, this`listenPort
    {
      && numCores >= 1
      && (var cs := DefaultClasses(controllerDefault);
          if old(controllers) == [] && cs != [] then
            && |controllers| == |cs|
            && forall i :: 0 <= i < |cs| ==> ControllerFrom(controllers[i], i, cs[i])
          else controllers == old(controllers))
      && |hosts| == |old(hosts)| + |t.hosts| && hosts[..|old(hosts)|] == old(hosts)
      && (forall i :: 0 <= i < |t.hosts| ==>
            HostFrom(hosts[|old(hosts)| + i], t.hosts[i], old(nextIP) + i, PinnedCore(old(nextCore), i)))
      && nextIP == old(nextIP) + |t.hosts| && nextCore == PinnedCore(old(nextCore), |t.hosts|)
      && |switches| == |old(switches)| + |t.switches| && switches[..|old(switches)|] == old(switches)
      && (forall i :: 0 <= i < |t.switches| ==>
            SwitchFrom(switches[|old(switches)| + i], t.switches[i], PortAfter(old(listenPort), inNamespace, i)))
      && listenPort == PortAfter(old(listenPort), inNamespace, |t.switches|)
      && |old(controllers)| <= |controllers|
      && nameToNode == RegisterAll(RegisterAll(RegisterAll(old(nameToNode),
           controllers[|old(controllers)|..]), hosts[|old(hosts)|..]), switches[|old(switches)|..])
    }

    /** The links after the link half of `buildFromTopo(t)`: those of a
        prefix of `t.links`, all of them exactly when every endpoint name
        resolves, and otherwise up to the first specification that does not
        resolve. */
    twostate predicate LinksBuilt(t: Topo, draws: seq<int>)
      requires |draws| == 2 * |t.links| && forall k :: 0 <= k < |draws| ==> 1 <= draws[k] < 0x1_0000_0000_0000
      reads this`links, this`nameToNode
    {
      && |old(links)| <= |links| && links[..|old(links)|] == old(links)
      && LinksFrom(links[|old(links)|..], t.links, TopoLinkOptions(t.links, draws), nameToNode)
      && (LinksResolve(t.links) <==> |links| == |old(links)| + |t.links|)
      && (!LinksResolve(t.links) ==>
            var s := t.links[|links| - |old(links)|];
            !(s.node1 in nameToNode && s.node2 in nameToNode))
    }

    /** `buildFromTopo(topo)`: the nodes as `BuildNodes` adds them, then the
        topology's links; an unknown link endpoint raises `KeyError` and
        ends the build with the links before it in place. */
    method BuildFromTopo(t: Topo, draws: seq<int>) returns (err: Option<PyError>)
      requires Valid()
      requires |draws| == 2 * |t.links| && forall k :: 0 <= k < |draws| ==> 1 <= draws[k] < 0x1_0000_0000_0000
      modifies this
      ensures Valid() && TopoBuilt(t, draws)
      ensures err.None? <==> LinksResolve(t.links)
      ensures err.Some? ==>
        var s := t.links[|links| - |old(links)|];
        err.value == KeyError(if s.node1 in nameToNode then s.node2 else s.node1)
      ensures trace == old(trace) + AttachAll(links[|old(links)|..], ovsClasses)
      ensures terms == old(terms) && built == old(built)
    {
      BuildNodes(t);
      err := AddTopoLinks(t.links, draws);
    }

    /** The calls `build` makes after the topology: `configHosts()`, then
        `startTerms()` when `xterms`, then `staticArp()` when
        `autoStaticArp`. */
    function BuildEvents(): seq<Event>
      reads this`hosts
    {
      [ConfigHosts(hosts)] + (if xterms then [StartTerms] else []) + (if autoStaticArp then [StaticArp(hosts)] else [])
    }

    /** What `build()` leaves apart from the trace, against the state it
        started from: with a topology, what `buildFromTopo` leaves, and
        without one the nodes, links, registry and counters as they were.
        It fails with the `KeyError` of the first link specification that
        does not resolve, or else with the `Exception` of
        `configureControlNetwork` in namespaces; otherwise the terminals
        spawned are kept when `xterms` and the network is marked built. */
    twostate predicate BuildState(draws: seq<int>, spawned: seq<Term>, new err: Option<PyError>)
      requires topo.Some? ==> |draws| == 2 * |topo.value.links|
      requires forall k :: 0 <= k < |draws| ==> 1 <= draws[k] < 0x1_0000_0000_0000
      reads this`controllers, this`hosts, this`switches, this`links, this`nameToNode
      reads this`nextIP, this`nextCore, this`listenPort, this`terms, this`built
    {
      && (topo.Some? ==> TopoBuilt(topo.value, draws))
      && (topo.None? ==>
            && hosts == old(hosts) && switches == old(switches) && controllers == old(controllers)
            && links == old(links) && nameToNode == old(nameToNode)
            && nextIP == old(nextIP) && nextCore == old(nextCore) && listenPort == old(listenPort))
      && (err.None? <==> (topo.None? || LinksResolve(topo.value.links)) && !inNamespace)
      && (err.Some? && (topo.None? || LinksResolve(topo.value.links)) ==> err.value == ConfigurationError)
      && (topo.Some? && !LinksResolve(topo.value.links) ==>
            && |old(links)| <= |links| < |old(links)| + |topo.value.links|
            && var s := topo.value.links[|links| - |old(links)|];
               err == Some(KeyError(if s.node1 in nameToNode then s.node2 else s.node1)))
      && (err.None? ==> built && terms == old(terms) + (if xterms then spawned else []))
      && (err.Some? ==> built == old(built) && terms == old(terms))
    }

    /** `build()`. A topology is built first; in namespaces the control
        network hook raises; then hosts are configured, terminals started
        (`spawned` is what `makeTerms` returned) and static ARP set, and the
        network is marked built. The trace gains the attach calls of the new
        links and, on success, the calls of the tail. */
    method Build(draws: seq<int>, spawned: seq<Term>) returns (err: Option<PyError>)
      requires Valid()
      requires topo.Some? ==> |draws| == 2 * |topo.value.links|
      requires forall k :: 0 <= k < |draws| ==> 1 <= draws[k] < 0x1_0000_0000_0000
      modifies this
      ensures Valid() && BuildState(draws, spawned, err)
      ensures |old(links)| <= |links|
      ensures trace == old(trace) + AttachAll(links[|old(links)|..], ovsClasses)
                       + (if err.None? then BuildEvents() else [])
    {
      if topo.Some? {
        err := BuildFromTopo(topo.value, draws);
        if err.Some? {
          return;
        }
      } else {
        assert links[|old(links)|..] == [];
      }
      if inNamespace {
        return Some(ConfigurationError);
      }
      FinishBuild(spawned);
      return None;
    }

    /** The tail of `build()` outside namespaces: hosts configured, terminals
        started, static ARP set, and the network marked built. */
    method FinishBuild(spawned: seq<Term>)
      requires Valid()
      modifies this
      ensures Valid() && built
      ensures trace == old(trace) + old(BuildEvents())
      ensures terms == old(terms) + (if xterms then spawned else [])
      ensures hosts == old(hosts) && switches == old(switches) && controllers == old(controllers)
      ensures links == old(links) && nameToNode == old(nameToNode)
      ensures nextIP == old(nextIP) && nextCore == old(nextCore) && listenPort == old(listenPort)
    {
      ghost var ev := BuildEvents();
      terms := terms + (if xterms then spawned else []);
      trace := trace + ev;
      built := true;
    }

    /** The tail of `__init__`: `if topo and build: self.build()`. */
    method FinishInit(build: bool, draws: seq<int>, spawned: seq<Term>) returns (err: Option<PyError>)
      requires Valid() && !built
      requires topo.Some? ==> |draws| == 2 * |topo.value.links|
      requires forall k :: 0 <= k < |draws| ==> 1 <= draws[k] < 0x1_0000_0000_0000
      modifies this
      ensures Valid()
      ensures !(topo.Some? && build) ==>
        && err.None? && !built && trace == old(trace) && terms == old(terms)
        && hosts == old(hosts) && switches == old(switches) && controllers == old(controllers)
        && links == old(links) && nameToNode == old(nameToNode)
        && nextIP == old(nextIP) && nextCore == old(nextCore) && listenPort == old(listenPort)
      ensures topo.Some? && build ==>
        && BuildState(draws, spawned, err) && |old(links)| <= |links|
        && trace == old(trace) + AttachAll(links[|old(links)|..], ovsClasses)
                    + (if err.None? then BuildEvents() else [])
    {
      err := None;
      if topo.Some? && build {
        err := Build(draws, spawned);
      }
    }

    // -------------------------------------------------------------------
    // Start and stop

    /** `start()`: build if not yet built, start every controller, start
        every switch with the controller list, make the `batchStartup` call
        of each capable switch class present (its result is not used), and
        wait for the switches when `waitConnected` was asked for, with no
        timeout and the given `delay`. */
    method Start(draws: seq<int>, spawned: seq<Term>, delay: nat, connected: (nat, Node) -> bool, fuel: nat)
      returns (err: Option<PyError>, w: Option<Waiter.WaitResult<Node>>)
      requires Valid()
      requires !built && topo.Some? ==> |draws| == 2 * |topo.value.links|
      requires !built ==> forall k :: 0 <= k < |draws| ==> 1 <= draws[k] < 0x1_0000_0000_0000
      modifies this
      ensures Valid()
      ensures old(built) ==>
        && err.None? && built && terms == old(terms)
        && hosts == old(hosts) && switches == old(switches) && controllers == old(controllers) && links == old(links)
        && nameToNode == old(nameToNode) && nextIP == old(nextIP) && nextCore == old(nextCore)
        && listenPort == old(listenPort)
        && trace == old(trace) + StartEvents(controllers, switches, batchStartupClasses)
      ensures !old(built) ==>
        && BuildState(draws, spawned, err) && |old(links)| <= |links|
        && trace == old(trace) + AttachAll(links[|old(links)|..], ovsClasses)
                    + (if err.None? then BuildEvents() + StartEvents(controllers, switches, batchStartupClasses) else [])
      ensures err.Some? ==> w.None? && !built
      ensures err.None? ==>
        var ev := StartEvents(controllers, switches, batchStartupClasses);
        built && |trace| >= |ev| && trace[|trace| - |ev|..] == ev
      ensures err.None? ==> (w.Some? <==> waitConn)
      ensures err.None? && waitConn ==> w == Some(Waiter.WaitFrom(switches, 0, 0, None, delay, connected, fuel))
    {
      if !built {
        err, w := BuildThenStart(draws, spawned, delay, connected, fuel);
      } else {
        err := None;
        w := StartBuilt(delay, connected, fuel);
      }
    }

    /** `start()` on a network not yet built: `build()`, and when it
        succeeds the start calls and the wait. */
    method BuildThenStart(draws: seq<int>, spawned: seq<Term>, delay: nat, connected: (nat, Node) -> bool, fuel: nat)
      returns (err: Option<PyError>, w: Option<Waiter.WaitResult<Node>>)
      requires Valid() && !built
      requires topo.Some? ==> |draws| == 2 * |topo.value.links|
      requires forall k :: 0 <= k < |draws| ==> 1 <= draws[k] < 0x1_0000_0000_0000
      modifies this
      ensures Valid()
      ensures BuildState(draws, spawned, err) && |old(links)| <= |links|
      ensures trace == old(trace) + AttachAll(links[|old(links)|..], ovsClasses)
                       + (if err.None? then BuildEvents() + StartEvents(controllers, switches, batchStartupClasses) else [])
      ensures err.Some? ==> w.None? && !built
      ensures err.None? ==>
        var ev := StartEvents(controllers, switches, batchStartupClasses);
        built && |trace| >= |ev| && trace[|trace| - |ev|..] == ev
      ensures err.None? ==> (w.Some? <==> waitConn)
      ensures err.None? && waitConn ==> w == Some(Waiter.WaitFrom(switches, 0, 0, None, delay, connected, fuel))
    {
      err := Build(draws, spawned);
      if err.Some? {
        return err, None;
      }
      ghost var before := trace;
      ghost var attached := AttachAll(links[|old(links)|..], ovsClasses);
      ghost var tail := BuildEvents();
      w := StartBuilt(delay, connected, fuel);
      ghost var ev := StartEvents(controllers, switches, batchStartupClasses);
      assert trace == before + ev;
      assert trace == old(trace) + attached + (tail + ev);
      assert trace[|trace| - |ev|..] == ev;
    }

    /** `start()` on a built network: the start calls, then the wait when
        `waitConnected` was asked for. Only the trace changes. */
    method StartBuilt(delay: nat, connected: (nat, Node) -> bool, fuel: nat) returns (w: Option<Waiter.WaitResult<Node>>)
      requires Valid()
      modifies this`trace
      ensures Valid()
      ensures trace == old(trace) + StartEvents(controllers, switches, batchStartupClasses)
      ensures w.Some? <==> waitConn
      ensures waitConn ==> w == Some(Waiter.WaitFrom(switches, 0, 0, None, delay, connected, fuel))
    {
      ghost var ev := StartCalls(controllers, switches, batchStartupClasses);
      trace := trace + ev;
      if waitConn {
        var r := WaitConnected(None, delay, connected, fuel);
        w := Some(r);
      } else {
        w := None;
      }
    }

    /** `stop()`. `shutdown(cls, group)` is the set of switches a class's
        `batchShutdown` reports as stopped. */
    method Stop(shutdown: (ClassTag, seq<Node>) -> set<Node>)
      requires Valid()
      modifies this
      ensures Valid()
      ensures trace == old(trace) + StopEvents(controllers, terms, links, switches, hosts, batchShutdownClasses, shutdown)
      ensures nextIP == old(nextIP) && nextCore == old(nextCore) && listenPort == old(listenPort)
      ensures hosts == old(hosts) && switches == old(switches) && controllers == old(controllers)
      ensures links == old(links) && nameToNode == old(nameToNode) && terms == old(terms) && built == old(built)
    {
      ghost var ev := StopCalls(controllers, terms, links, switches, hosts, batchShutdownClasses, shutdown);
      trace := trace + ev;
    }
  }

  /** The calls of `start` once the network is built: `start()` on every
      controller, `start(controllers)` on every switch, then the
      `batchStartup` of each capable switch class present, in sort order. */
  method StartCalls(controllers: seq<Node>, switches: seq<Node>, batchStartupClasses: set<ClassTag>)
    returns (ghost ev: seq<Event>)
    ensures ev == StartEvents(controllers, switches, batchStartupClasses)
  {
    ghost var p0: seq<Event> := [];
    for i := 0 to |controllers|
      invariant p0 == Each(controllers[..i], StartOf)
    {
      assert controllers[..i + 1][..i] == controllers[..i];
      p0 := p0 + [StartOf(controllers[i])];
    }
    assert controllers[..|controllers|] == controllers;
    ghost var p1: seq<Event> := [];
    for i := 0 to |switches|
      invariant p1 == SwitchStarts(switches[..i], controllers)
    {
      assert switches[..i + 1][..i] == switches[..i];
      p1 := p1 + [StartSwitch(switches[i], controllers)];
    }
    assert switches[..|switches|] == switches;
    ghost var p2: seq<Event> := [];
    var tags := ClassOrder(switches);
    for k := 0 to |tags|
      invariant p2 == BatchCalls(tags[..k], switches, batchStartupClasses, BatchStartupOf)
    {
      assert tags[..k + 1][..k] == tags[..k];
      var group := OfClass(switches, tags[k]);
      if tags[k] in batchStartupClasses {
        p2 := p2 + [BatchStartupOf(tags[k], group)];
      }
    }
    assert tags[..|tags|] == tags;
    ev := p0 + p1 + p2;
  }

  /** The calls of `stop`: controllers stopped, terminals closed, links
      stopped, batch shutdowns, then each switch stopped (unless its class
      already did) and terminated, then each host terminated. */
  method StopCalls(controllers: seq<Node>, terms: seq<Term>, links: seq<Link>, switches: seq<Node>,
                   hosts: seq<Node>, batchShutdownClasses: set<ClassTag>, shutdown: (ClassTag, seq<Node>) -> set<Node>)
    returns (ghost ev: seq<Event>)
    ensures ev == StopEvents(controllers, terms, links, switches, hosts, batchShutdownClasses, shutdown)
  {
    ghost var p0: seq<Event> := [];
    for i := 0 to |controllers|
      invariant p0 == Each(controllers[..i], StopOf)
    {
      assert controllers[..i + 1][..i] == controllers[..i];
      p0 := p0 + [StopOf(controllers[i])];
    }
    assert controllers[..|controllers|] == controllers;
    ghost var p1: seq<Event> := if terms != [] then [StopTerms(terms)] else [];
    ghost var p2: seq<Event> := [];
    for i := 0 to |links|
      invariant p2 == Each(links[..i], StopLinkOf)
    {
      assert links[..i + 1][..i] == links[..i];
      p2 := p2 + [StopLinkOf(links[i])];
    }
    assert links[..|links|] == links;
    var stopped, p3 := BatchShutdowns(switches, batchShutdownClasses, shutdown);
    ghost var p4: seq<Event> := [];
    for i := 0 to |switches|
      invariant p4 == SwitchStops(switches[..i], stopped)
    {
      assert switches[..i + 1][..i] == switches[..i];
      var sw := switches[i];
      if sw !in stopped {
        p4 := p4 + [Event.Stop(sw, false)];
      }
      p4 := p4 + [Terminate(sw)];
    }
    assert switches[..|switches|] == switches;
    ghost var p5: seq<Event> := [];
    for i := 0 to |hosts|
      invariant p5 == Each(hosts[..i], TerminateOf)
    {
      assert hosts[..i + 1][..i] == hosts[..i];
      p5 := p5 + [TerminateOf(hosts[i])];
    }
    assert hosts[..|hosts|] == hosts;
    ev := p0 + p1 + p2 + p3 + p4 + p5;
  }

  /** The batch-shutdown part of `stop`: for each switch class present, in
      sort order, a capable class's `batchShutdown` on its group; `stopped`
      collects what those calls report. */
  method BatchShutdowns(switches: seq<Node>, capable: set<ClassTag>, shutdown: (ClassTag, seq<Node>) -> set<Node>)
    returns (stopped: set<Node>, ghost ev: seq<Event>)
    ensures stopped == Stopped(ClassOrder(switches), switches, capable, shutdown)
    ensures ev == BatchCalls(ClassOrder(switches), switches, capable, BatchShutdownOf)
  {
    var tags := ClassOrder(switches);
    stopped := {};
    ev := [];
    for k := 0 to |tags|
      invariant ev == BatchCalls(tags[..k], switches, capable, BatchShutdownOf)
      invariant stopped == Stopped(tags[..k], switches, capable, shutdown)
    {
      assert tags[..k + 1][..k] == tags[..k];
      var group := OfClass(switches, tags[k]);
      if tags[k] in capable {
        ev := ev + [BatchShutdownOf(tags[k], group)];
        stopped := stopped + shutdown(tags[k], group);
      }
    }
    assert tags[..|tags|] == tags;
  }

  // ---------------------------------------------------------------------
  // Round trips

  /** `addHost(name)` followed by `removeHost(name)` for an unused name gives
      back the host list and the registry. The counters are not given back:
      the address counter moved by one, and the core counter too when
      pinning; the trace records the stop of the removed host `h`. */
  method AddThenRemoveHost(net: Mininet, name: string, cls: Option<ClassTag>, params: Params)
    returns (h: Node, ok: bool)
    requires net.Valid() && name !in net.nameToNode
    modifies net
    ensures net.Valid() && ok
    ensures net.hosts == old(net.hosts) && net.nameToNode == old(net.nameToNode)
    ensures net.nextIP == old(net.nextIP) + 1
    ensures net.nextCore == if net.autoPinCpus then NextCore(old(net.nextCore), net.numCores) else old(net.nextCore)
    ensures net.trace == old(net.trace) + [Event.Stop(h, true)]
  {
    h := net.AddHost(name, cls, params);
    ok := net.RemoveHost(Named(name));
    RemoveAppended(old(net.hosts), h);
    assert net.nameToNode == old(net.nameToNode);
  }

  /** `addLink` followed by `removeLink` of the new link gives back the link
      list. */
  method AddThenRemoveLink(net: Mininet, node1: Endpoint, node2: Endpoint, port1: Option<int>, port2: Option<int>,
                           cls: Option<ClassTag>, params: Params, draw1: int, draw2: int)
    returns (r: Result<Link>, removal: LinkRemoval)
    requires net.Valid()
    requires 1 <= draw1 < 0x1_0000_0000_0000 && 1 <= draw2 < 0x1_0000_0000_0000
    modifies net
    ensures net.Valid()
    ensures r.Ok? ==> removal == Removed(r.value)
    ensures net.links == old(net.links)
  {
    r := net.AddLink(node1, node2, port1, port2, cls, params, draw1, draw2);
    removal := NotFound;
    if r.Ok? {
      RemoveAppended(old(net.links), r.value);
      removal := net.RemoveLink(Some(r.value), NoNode, NoNode);
    }
  }

  /** Two hosts added one after the other without an `ip` keyword get
      different default addresses. */
  method TwoHostsDistinctAddresses(net: Mininet, name1: string, name2: string, params: Params)
    returns (h1: Node, h2: Node)
    requires net.Valid() && "ip" !in params
    modifies net
    ensures net.Valid()
    ensures "ip" in h1.params && "ip" in h2.params && h1.params["ip"] != h2.params["ip"]
  {
    var ip1, core1 := net.nextIP, net.nextCore;
    h1 := net.AddHost(name1, None, params);
    var ip2, core2 := net.nextIP, net.nextCore;
    h2 := net.AddHost(name2, None, params);
    HostAddressesDistinct(ip1, ip2, net.ipBaseNum, net.prefixLen, net.autoSetMacs, net.autoPinCpus, core1, core2);
  }
}
