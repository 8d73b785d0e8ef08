/** The opaque collaborators of the network object: node and link handles,
    the parameter dictionaries handed to their constructors, and the calls made
    on them, recorded as events. Only what `Mininet` itself reads from a handle
    is kept: a node's name, role and class, a link's two endpoint nodes. */
module Handles {
  import opened Common

  /** Stands for a Python class object (host, switch, controller, link or
      interface class). Sorting switches by `type` is sorting by this tag. */
  type ClassTag = nat

  datatype Role = HostRole | SwitchRole | ControllerRole

  /** The string `ipAdd(index, ipBaseNum=.., prefixLen=..) + '/' + prefixLen`
      kept as the term that produced it: `ipAdd` comes from `mininet.util`, is
      taken to be injective in the counter, and a free constructor is exactly
      that. */
  datatype IpPrefix = IpPrefix(index: int, ipBaseNum: int, prefixLen: int)

  /** The string `macColonHex(value)`, kept as the term that produced it. */
  datatype MacText = ColonHex(value: int)

  /** A value in a keyword-parameter dictionary. */
  datatype Value =
    | VIp(ip: IpPrefix)
    | VMac(mac: MacText)
    | VInt(i: int)
    | VBool(b: bool)
    | VStr(s: string)
    | VClass(tag: ClassTag)
    | VNone

  /** A `**params` dictionary. */
  type Params = map<string, Value>

  /** A host, switch or controller object as built by its class constructor
      `cls(name, **params)`. Identity is the reference, as for Python objects
      without `__eq__`. */
  class Node {
    const name: string
    const role: Role
    const cls: ClassTag
    const params: Params

    constructor (name: string, role: Role, cls: ClassTag, params: Params)
      ensures this.name == name && this.role == role
      ensures this.cls == cls && this.params == params
    {
      this.name := name;
      this.role := role;
      this.cls := cls;
      this.params := params;
    }
  }

  /** A link object `cls(node1, node2, **options)`; `node1` and `node2` are
      `intf1.node` and `intf2.node`. */
  class Link {
    const node1: Node
    const node2: Node
    const cls: ClassTag
    const options: Params

    constructor (node1: Node, node2: Node, cls: ClassTag, options: Params)
      ensures this.node1 == node1 && this.node2 == node2
      ensures this.cls == cls && this.options == options
    {
      this.node1 := node1;
      this.node2 := node2;
      this.cls := cls;
      this.options := options;
    }
  }

  /** A spawned terminal process. */
  datatype Term = Term(pid: int)

  /** A call the network object makes on a collaborator. */
  datatype Event =
    | Start(node: Node)                                   // controller.start()
    | StartSwitch(node: Node, controllers: seq<Node>)     // switch.start(controllers)
    | BatchStartup(cls: ClassTag, members: seq<Node>)     // swclass.batchStartup(switches)
    /** `node.stop()`, or `node.stop(deleteIntfs=True)` when the flag is set.
        The flag records whether the keyword is written at the call, not
        the value the node's class then uses: a plain `stop()` takes that
        class's own default. */
    | Stop(node: Node, explicitDeleteIntfs: bool)
    | Terminate(node: Node)                               // node.terminate()
    | BatchShutdown(cls: ClassTag, members: seq<Node>)    // swclass.batchShutdown(switches)
    | StopTerms(terms: seq<Term>)                         // stopXterms()
    | StopLink(link: Link)                                // link.stop()
    | DeleteLink(link: Link)                              // link.delete()
    | Attach(switch: Node, link: Link, side: nat)         // switch.attach(link.intf1 / intf2)
    | ConfigHosts(hosts: seq<Node>)                       // configHosts()
    | StartTerms                                          // startTerms()
    | StaticArp(hosts: seq<Node>)                         // staticArp()

  /** An argument that may be a node name, a node object or `None`. */
  datatype NodeRef = Named(name: string) | Handle(node: Node) | NoNode

  /** The names of `nodes`, in order. */
  function Names(nodes: seq<Node>): seq<string> {
    seq(|nodes|, i requires 0 <= i < |nodes| => nodes[i].name)
  }

  /** Every element of `nodes` was built with role `role`. */
  predicate AllRole(nodes: seq<Node>, role: Role) {
    forall i :: 0 <= i < |nodes| ==> nodes[i].role == role
  }

  /** One node or link specification of a topology object: its name or
      endpoints, the `cls` keyword and the other keywords. */
  datatype NodeSpec = NodeSpec(name: string, cls: Option<ClassTag>, params: Params)
  datatype LinkSpec = LinkSpec(node1: string, node2: string, port1: Option<int>, port2: Option<int>,
                               cls: Option<ClassTag>, params: Params)

  /** What `buildFromTopo` reads from a topology: `topo.hosts()`,
      `topo.switches()` with `topo.nodeInfo(..)`, and
      `topo.links(sort=True, withInfo=True)`, already in that order. */
  datatype Topo = Topo(hosts: seq<NodeSpec>, switches: seq<NodeSpec>, links: seq<LinkSpec>)
}
