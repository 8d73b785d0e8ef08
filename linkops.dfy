/** The pure parts of `addLink` and `removeLink`: the keyword options a new
    link is built with, and the search for the link joining two nodes. */
module LinkOps {
  import opened Common
  import opened Handles
  import Mac

  /** `options.setdefault(k, v)`: adds `k` only when it is missing. */
  function SetDefault(options: Params, k: string, v: Value): Params {
    if k in options then options else options[k := v]
  }

  /** `setdefault` keeps every existing entry and adds the key when missing. */
  lemma SetDefaultSpec(options: Params, k: string, v: Value)
    ensures SetDefault(options, k, v).Keys == options.Keys + {k}
    ensures forall j :: j in options ==> SetDefault(options, k, v)[j] == options[j]
    ensures k !in options ==> SetDefault(options, k, v)[k] == v
  {
  }

  /** The MAC keyword value `randMac` yields for the draw `r`. */
  function RandMacValue(r: int): Value
    requires 1 <= r < 0x1_0000_0000_0000
  {
    VMac(ColonHex(Mac.RandMac(r) as int))
  }

  /** The caller's keywords with `port1`/`port2` when given and the default
      interface class when the network has one. */
  function PortOptions(params: Params, port1: Option<int>, port2: Option<int>, intf: Option<ClassTag>): Params {
    var o := if port1.Some? then SetDefault(params, "port1", VInt(port1.value)) else params;
    var o := if port2.Some? then SetDefault(o, "port2", VInt(port2.value)) else o;
    if intf.Some? then SetDefault(o, "intf", VClass(intf.value)) else o
  }

  /** The options `addLink` passes to the link class: `PortOptions`, then a
      random MAC for each side the caller left open. Both draws are made
      whether or not they are used. */
  function LinkOptions(params: Params, port1: Option<int>, port2: Option<int>, intf: Option<ClassTag>,
                       draw1: int, draw2: int): Params
    requires 1 <= draw1 < 0x1_0000_0000_0000 && 1 <= draw2 < 0x1_0000_0000_0000
  {
    var o := SetDefault(PortOptions(params, port1, port2, intf), "addr1", RandMacValue(draw1));
    SetDefault(o, "addr2", RandMacValue(draw2))
  }

  /** The caller's keywords always win; a port or interface class is added
      exactly when given and not already a keyword. */
  lemma PortOptionsSpec(params: Params, port1: Option<int>, port2: Option<int>, intf: Option<ClassTag>)
    ensures var o := PortOptions(params, port1, port2, intf);
      && (forall k :: k in params ==> k in o && o[k] == params[k])
      && (forall k :: k in o <==> k in params || (k == "port1" && port1.Some?)
                                  || (k == "port2" && port2.Some?) || (k == "intf" && intf.Some?))
      && ("port1" !in params && port1.Some? ==> o["port1"] == VInt(port1.value))
      && ("port2" !in params && port2.Some? ==> o["port2"] == VInt(port2.value))
      && ("intf" !in params && intf.Some? ==> o["intf"] == VClass(intf.value))
  {
    var o1 := if port1.Some? then SetDefault(params, "port1", VInt(port1.value)) else params;
    if port1.Some? { SetDefaultSpec(params, "port1", VInt(port1.value)); }
    var o2 := if port2.Some? then SetDefault(o1, "port2", VInt(port2.value)) else o1;
    if port2.Some? { SetDefaultSpec(o1, "port2", VInt(port2.value)); }
    if intf.Some? { SetDefaultSpec(o2, "intf", VClass(intf.value)); }
  }

  /** The caller's keywords always win, every port option is kept, and the
      only keys added are the two MAC addresses. */
  lemma LinkOptionsSpec(params: Params, port1: Option<int>, port2: Option<int>, intf: Option<ClassTag>,
                        draw1: int, draw2: int)
    requires 1 <= draw1 < 0x1_0000_0000_0000 && 1 <= draw2 < 0x1_0000_0000_0000
    ensures var o := LinkOptions(params, port1, port2, intf, draw1, draw2);
      var p := PortOptions(params, port1, port2, intf);
      && (forall k :: k in params ==> k in o && o[k] == params[k])
      && (forall k :: k in o <==> k in p || k == "addr1" || k == "addr2")
      && (forall k :: k in p ==> o[k] == p[k])
  {
    var p := PortOptions(params, port1, port2, intf);
    PortOptionsSpec(params, port1, port2, intf);
    var o1 := SetDefault(p, "addr1", RandMacValue(draw1));
    SetDefaultSpec(p, "addr1", RandMacValue(draw1));
    SetDefaultSpec(o1, "addr2", RandMacValue(draw2));
  }

  /** Each MAC the caller left open is the one `randMac` drew for that side. */
  lemma LinkOptionsMacs(params: Params, port1: Option<int>, port2: Option<int>, intf: Option<ClassTag>,
                        draw1: int, draw2: int)
    requires 1 <= draw1 < 0x1_0000_0000_0000 && 1 <= draw2 < 0x1_0000_0000_0000
    ensures var o := LinkOptions(params, port1, port2, intf, draw1, draw2);
      && ("addr1" !in params ==> "addr1" in o && o["addr1"] == RandMacValue(draw1))
      && ("addr2" !in params ==> "addr2" in o && o["addr2"] == RandMacValue(draw2))
  {
    var p := PortOptions(params, port1, port2, intf);
    PortOptionsSpec(params, port1, port2, intf);
    var o1 := SetDefault(p, "addr1", RandMacValue(draw1));
    SetDefaultSpec(p, "addr1", RandMacValue(draw1));
    SetDefaultSpec(o1, "addr2", RandMacValue(draw2));
  }

  /** A MAC that `addLink` fills in itself is unicast and locally administered. */
  lemma {:induction false} DefaultMacsAdmissible(params: Params, port1: Option<int>, port2: Option<int>,
                                                 intf: Option<ClassTag>, draw1: int, draw2: int)
    requires 1 <= draw1 < 0x1_0000_0000_0000 && 1 <= draw2 < 0x1_0000_0000_0000
    ensures "addr1" !in params ==>
      "addr1" in LinkOptions(params, port1, port2, intf, draw1, draw2) &&
      exists m: bv48 :: LinkOptions(params, port1, port2, intf, draw1, draw2)["addr1"] == VMac(ColonHex(m as int))
                        && Mac.IsUnicast(m) && Mac.IsLocallyAdministered(m)
    ensures "addr2" !in params ==>
      "addr2" in LinkOptions(params, port1, port2, intf, draw1, draw2) &&
      exists m: bv48 :: LinkOptions(params, port1, port2, intf, draw1, draw2)["addr2"] == VMac(ColonHex(m as int))
                        && Mac.IsUnicast(m) && Mac.IsLocallyAdministered(m)
  {
    var o := LinkOptions(params, port1, port2, intf, draw1, draw2);
    LinkOptionsMacs(params, port1, port2, intf, draw1, draw2);
    if "addr1" !in params {
      var m := Mac.RandMac(draw1);
      assert o["addr1"] == VMac(ColonHex(m as int));
    }
    if "addr2" !in params {
      var m := Mac.RandMac(draw2);
      assert o["addr2"] == VMac(ColonHex(m as int));
    }
  }

  /** `l.intf1.node == node1 and l.intf2.node == node2`, or the same with the
      two nodes swapped. An endpoint that did not resolve to a node (`None`,
      an unknown name, a name next to a node object) joins nothing. */
  predicate Joins(l: Link, a: Option<Node>, b: Option<Node>) {
    (a == Some(l.node1) && b == Some(l.node2)) || (a == Some(l.node2) && b == Some(l.node1))
  }

  /** The position of the first link joining `a` and `b`, in either order. */
  function FindLink(links: seq<Link>, a: Option<Node>, b: Option<Node>): (r: Option<nat>)
    ensures r.Some? ==> r.value < |links| && Joins(links[r.value], a, b)
    ensures r.Some? ==> forall j :: 0 <= j < r.value ==> !Joins(links[j], a, b)
    ensures r.None? ==> forall j :: 0 <= j < |links| ==> !Joins(links[j], a, b)
  {
    if links == [] then None
    else if Joins(links[0], a, b) then Some(0)
    else
      match FindLink(links[1..], a, b)
      case None => None
      case Some(k) => Some(k + 1)
  }

  /** The search does not depend on the order the two nodes are given in. */
  lemma {:induction false} FindLinkSymmetric(links: seq<Link>, a: Option<Node>, b: Option<Node>)
    ensures FindLink(links, a, b) == FindLink(links, b, a)
  {
    if links != [] {
      FindLinkSymmetric(links[1..], a, b);
    }
  }
}
