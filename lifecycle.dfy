/** The calls `Mininet.start` and `Mininet.stop` make on the controllers,
    links, switches and hosts, as event sequences, and the order and
    multiplicity properties of those sequences. */
module Lifecycle {
  import opened Common
  import opened Handles

  /** Strictly increasing, hence without repeats. */
  predicate Increasing(ts: seq<ClassTag>) {
    forall i, j :: 0 <= i < j < |ts| ==> ts[i] < ts[j]
  }

  /** Inserts `t` into a strictly increasing list, unless already there. */
  function InsertTag(ts: seq<ClassTag>, t: ClassTag): (r: seq<ClassTag>)
    requires Increasing(ts)
    ensures Increasing(r)
    ensures forall x :: x in r <==> x in ts || x == t
  {
    if ts == [] then [t]
    else if t < ts[0] then [t] + ts
    else if t == ts[0] then ts
    else
      var rest := InsertTag(ts[1..], t);
      assert forall x :: x in rest ==> ts[0] < x by {
        forall x | x in rest ensures ts[0] < x {
          if x != t {
            var k :| 1 <= k < |ts| && ts[k] == x;
          }
        }
      }
      var r := [ts[0]] + rest;
      forall i, j | 0 <= i < j < |r| ensures r[i] < r[j] {
        if i == 0 {
          assert r[j] == rest[j - 1] && rest[j - 1] in rest;
        } else {
          assert r[i] == rest[i - 1] && r[j] == rest[j - 1];
        }
      }
      r
  }

  /** The keys `groupby(sorted(switches, key=type), type)` yields: the classes
      present among `sw`, each once, in sort order. */
  function ClassOrder(sw: seq<Node>): (r: seq<ClassTag>)
    ensures Increasing(r)
    ensures forall t :: t in r <==> HasClass(sw, t)
  {
    if sw == [] then []
    else
      var init, last := sw[..|sw| - 1], sw[|sw| - 1];
      var r := InsertTag(ClassOrder(init), last.cls);
      assert forall t :: HasClass(sw, t) <==> HasClass(init, t) || t == last.cls by {
        forall t ensures HasClass(sw, t) ==> HasClass(init, t) || t == last.cls {
          if HasClass(sw, t) {
            var i :| 0 <= i < |sw| && sw[i].cls == t;
            if i < |init| { assert init[i] == sw[i]; }
          }
        }
        forall t ensures HasClass(init, t) ==> HasClass(sw, t) {
          if HasClass(init, t) {
            var i :| 0 <= i < |init| && init[i].cls == t;
            assert sw[i] == init[i];
          }
        }
        assert HasClass(sw, last.cls) by { assert sw[|sw| - 1] == last; }
      }
      r
  }

  /** Some switch of `sw` is of class `t`. */
  predicate HasClass(sw: seq<Node>, t: ClassTag) {
    exists i :: 0 <= i < |sw| && sw[i].cls == t
  }

  /** The group `groupby` yields for class `t`: the switches of that class in
      list order (`sorted` is stable). */
  function OfClass(sw: seq<Node>, t: ClassTag): seq<Node> {
    Filter(sw, (s: Node) => s.cls == t)
  }

  /** `f(x)` for each `x` of `xs`, in order. */
  function Each<A>(xs: seq<A>, f: A -> Event): (r: seq<Event>)
    ensures |r| == |xs|
  {
    if xs == [] then [] else Each(xs[..|xs| - 1], f) + [f(xs[|xs| - 1])]
  }

  /** One batch call per class in `tags` that has the capability, on that
      class's group. */
  function BatchCalls(tags: seq<ClassTag>, sw: seq<Node>, capable: set<ClassTag>,
                      call: (ClassTag, seq<Node>) -> Event): seq<Event>
  {
    if tags == [] then []
    else
      var t := tags[|tags| - 1];
      BatchCalls(tags[..|tags| - 1], sw, capable, call)
        + (if t in capable then [call(t, OfClass(sw, t))] else [])
  }

  /** `stopped`: every switch some capable class's `batchShutdown` reported
      as shut down. `shutdown(t, group)` is what the class returns. */
  function Stopped(tags: seq<ClassTag>, sw: seq<Node>, capable: set<ClassTag>,
                   shutdown: (ClassTag, seq<Node>) -> set<Node>): set<Node>
  {
    if tags == [] then {}
    else
      var t := tags[|tags| - 1];
      Stopped(tags[..|tags| - 1], sw, capable, shutdown)
        + (if t in capable then shutdown(t, OfClass(sw, t)) else {})
  }

  /** The per-switch loop of `stop`: `stop()` unless batch-stopped, then
      `terminate()`. */
  function SwitchStops(sw: seq<Node>, stopped: set<Node>): seq<Event> {
    if sw == [] then []
    else
      var s := sw[|sw| - 1];
      SwitchStops(sw[..|sw| - 1], stopped)
        + (if s in stopped then [] else [Stop(s, false)]) + [Terminate(s)]
  }

  function StartOf(c: Node): Event { Start(c) }
  function StopOf(n: Node): Event { Stop(n, false) }
  function TerminateOf(n: Node): Event { Terminate(n) }
  function StopLinkOf(l: Link): Event { StopLink(l) }
  function BatchStartupOf(t: ClassTag, m: seq<Node>): Event { BatchStartup(t, m) }
  function BatchShutdownOf(t: ClassTag, m: seq<Node>): Event { BatchShutdown(t, m) }

  /** The per-switch loop of `start`: `switch.start(controllers)`. */
  function SwitchStarts(sw: seq<Node>, controllers: seq<Node>): seq<Event> {
    if sw == [] then [] else SwitchStarts(sw[..|sw| - 1], controllers) + [StartSwitch(sw[|sw| - 1], controllers)]
  }

  /** Everything `start` calls once the network is built. */
  function StartEvents(controllers: seq<Node>, switches: seq<Node>, batchStartup: set<ClassTag>): seq<Event> {
    Each(controllers, StartOf)
      + SwitchStarts(switches, controllers)
      + BatchCalls(ClassOrder(switches), switches, batchStartup, BatchStartupOf)
  }

  /** Everything `stop` calls. */
  function StopEvents(controllers: seq<Node>, terms: seq<Term>, links: seq<Link>, switches: seq<Node>,
                      hosts: seq<Node>, batchShutdown: set<ClassTag>,
                      shutdown: (ClassTag, seq<Node>) -> set<Node>): seq<Event>
  {
    var tags := ClassOrder(switches);
    Each(controllers, StopOf)
      + (if terms != [] then [StopTerms(terms)] else [])
      + Each(links, StopLinkOf)
      + BatchCalls(tags, switches, batchShutdown, BatchShutdownOf)
      + SwitchStops(switches, Stopped(tags, switches, batchShutdown, shutdown))
      + Each(hosts, TerminateOf)
  }

  // ---------------------------------------------------------------------
  // Order

  /** The stage of `stop` an event belongs to. */
  function StopPhase(e: Event): nat {
    match e
    case Stop(n, _) => if n.role == ControllerRole then 0 else 4
    case StopTerms(_) => 1
    case StopLink(_) => 2
    case BatchShutdown(_, _) => 3
    case Terminate(n) => if n.role == HostRole then 5 else 4
    case _ => 6
  }

  /** The stage of `start` an event belongs to. */
  function StartPhase(e: Event): nat {
    match e
    case Start(_) => 0
    case StartSwitch(_, _) => 1
    case BatchStartup(_, _) => 2
    case _ => 3
  }

  predicate Ordered(ev: seq<Event>, phase: Event -> nat) {
    forall i, j :: 0 <= i < j < |ev| ==> phase(ev[i]) <= phase(ev[j])
  }

  predicate Within(ev: seq<Event>, phase: Event -> nat, lo: nat, hi: nat) {
    forall i :: 0 <= i < |ev| ==> lo <= phase(ev[i]) <= hi
  }

  lemma CatOrdered(a: seq<Event>, b: seq<Event>, phase: Event -> nat, lo: nat, mid: nat, hi: nat)
    requires lo <= mid <= hi
    requires Ordered(a, phase) && Within(a, phase, lo, mid)
    requires Ordered(b, phase) && Within(b, phase, mid, hi)
    ensures Ordered(a + b, phase) && Within(a + b, phase, lo, hi)
  {
    var c := a + b;
    forall i | 0 <= i < |c| ensures lo <= phase(c[i]) <= hi {
      if i < |a| { assert c[i] == a[i]; } else { assert c[i] == b[i - |a|]; }
    }
    forall i, j | 0 <= i < j < |c| ensures phase(c[i]) <= phase(c[j]) {
      if j < |a| {
        assert c[i] == a[i] && c[j] == a[j];
      } else if i >= |a| {
        assert c[i] == b[i - |a|] && c[j] == b[j - |a|];
      } else {
        assert c[i] == a[i] && c[j] == b[j - |a|];
      }
    }
  }

  lemma {:induction false} EachWithin<A>(xs: seq<A>, f: A -> Event, phase: Event -> nat, p: nat)
    requires forall i :: 0 <= i < |xs| ==> phase(f(xs[i])) == p
    ensures Ordered(Each(xs, f), phase) && Within(Each(xs, f), phase, p, p)
  {
    if xs != [] {
      var init := xs[..|xs| - 1];
      assert forall i :: 0 <= i < |init| ==> init[i] == xs[i];
      EachWithin(init, f, phase, p);
    }
  }

  lemma {:induction false} BatchWithin(tags: seq<ClassTag>, sw: seq<Node>, capable: set<ClassTag>,
                                       call: (ClassTag, seq<Node>) -> Event, phase: Event -> nat, p: nat)
    requires forall t, m :: phase(call(t, m)) == p
    ensures Ordered(BatchCalls(tags, sw, capable, call), phase)
    ensures Within(BatchCalls(tags, sw, capable, call), phase, p, p)
  {
    if tags != [] {
      BatchWithin(tags[..|tags| - 1], sw, capable, call, phase, p);
    }
  }

  lemma {:induction false} SwitchStopsWithin(sw: seq<Node>, stopped: set<Node>)
    requires AllRole(sw, SwitchRole)
    ensures Ordered(SwitchStops(sw, stopped), StopPhase) && Within(SwitchStops(sw, stopped), StopPhase, 4, 4)
  {
    if sw != [] {
      var init := sw[..|sw| - 1];
      assert forall i :: 0 <= i < |init| ==> init[i] == sw[i];
      SwitchStopsWithin(init, stopped);
    }
  }

  lemma {:induction false} SwitchStartsWithin(sw: seq<Node>, controllers: seq<Node>)
    ensures Ordered(SwitchStarts(sw, controllers), StartPhase)
    ensures Within(SwitchStarts(sw, controllers), StartPhase, 1, 1)
  {
    if sw != [] {
      SwitchStartsWithin(sw[..|sw| - 1], controllers);
    }
  }

  /** `stop` runs its stages in the fixed order controllers, terminals,
      links, batch shutdowns, per-switch stop/terminate, hosts: no event of a
      later stage comes before an event of an earlier one. */
  lemma StopOrdered(controllers: seq<Node>, terms: seq<Term>, links: seq<Link>, switches: seq<Node>,
                    hosts: seq<Node>, batchShutdown: set<ClassTag>,
                    shutdown: (ClassTag, seq<Node>) -> set<Node>)
    requires AllRole(controllers, ControllerRole) && AllRole(switches, SwitchRole) && AllRole(hosts, HostRole)
    ensures Ordered(StopEvents(controllers, terms, links, switches, hosts, batchShutdown, shutdown), StopPhase)
  {
    var tags := ClassOrder(switches);
    var e0 := Each(controllers, StopOf);
    var e1: seq<Event> := if terms != [] then [StopTerms(terms)] else [];
    var e2 := Each(links, StopLinkOf);
    var e3 := BatchCalls(tags, switches, batchShutdown, BatchShutdownOf);
    var e4 := SwitchStops(switches, Stopped(tags, switches, batchShutdown, shutdown));
    var e5 := Each(hosts, TerminateOf);
    EachWithin(controllers, StopOf, StopPhase, 0);
    assert Ordered(e1, StopPhase) && Within(e1, StopPhase, 1, 1);
    EachWithin(links, StopLinkOf, StopPhase, 2);
    BatchWithin(tags, switches, batchShutdown, BatchShutdownOf, StopPhase, 3);
    SwitchStopsWithin(switches, Stopped(tags, switches, batchShutdown, shutdown));
    EachWithin(hosts, TerminateOf, StopPhase, 5);
    CatOrdered(e0, e1, StopPhase, 0, 0, 1);
    CatOrdered(e0 + e1, e2, StopPhase, 0, 1, 2);
    CatOrdered(e0 + e1 + e2, e3, StopPhase, 0, 2, 3);
    CatOrdered(e0 + e1 + e2 + e3, e4, StopPhase, 0, 3, 4);
    CatOrdered(e0 + e1 + e2 + e3 + e4, e5, StopPhase, 0, 4, 5);
  }

  /** `start` starts every controller, then every switch individually, then
      makes the batch-startup calls. */
  lemma StartOrdered(controllers: seq<Node>, switches: seq<Node>, batchStartup: set<ClassTag>)
    ensures Ordered(StartEvents(controllers, switches, batchStartup), StartPhase)
  {
    var e0 := Each(controllers, StartOf);
    var e1 := SwitchStarts(switches, controllers);
    var e2 := BatchCalls(ClassOrder(switches), switches, batchStartup, BatchStartupOf);
    EachWithin(controllers, StartOf, StartPhase, 0);
    SwitchStartsWithin(switches, controllers);
    BatchWithin(ClassOrder(switches), switches, batchStartup, BatchStartupOf, StartPhase, 2);
    CatOrdered(e0, e1, StartPhase, 0, 0, 1);
    CatOrdered(e0 + e1, e2, StartPhase, 0, 1, 2);
  }

  // ---------------------------------------------------------------------
  // Multiplicity

  lemma {:induction false} StartOfCount(xs: seq<Node>, e: Event)
    ensures multiset(Each(xs, StartOf))[e] == if e.Start? then multiset(xs)[e.node] else 0
  {
    if xs != [] {
      var init, last := xs[..|xs| - 1], xs[|xs| - 1];
      assert xs == init + [last];
      StartOfCount(init, e);
    }
  }

  lemma {:induction false} StopOfCount(xs: seq<Node>, e: Event)
    ensures multiset(Each(xs, StopOf))[e] == if e.Stop? && !e.explicitDeleteIntfs then multiset(xs)[e.node] else 0
  {
    if xs != [] {
      var init, last := xs[..|xs| - 1], xs[|xs| - 1];
      assert xs == init + [last];
      StopOfCount(init, e);
    }
  }

  lemma {:induction false} TerminateOfCount(xs: seq<Node>, e: Event)
    ensures multiset(Each(xs, TerminateOf))[e] == if e.Terminate? then multiset(xs)[e.node] else 0
  {
    if xs != [] {
      var init, last := xs[..|xs| - 1], xs[|xs| - 1];
      assert xs == init + [last];
      TerminateOfCount(init, e);
    }
  }

  lemma {:induction false} StopLinkOfCount(xs: seq<Link>, e: Event)
    ensures multiset(Each(xs, StopLinkOf))[e] == if e.StopLink? then multiset(xs)[e.link] else 0
  {
    if xs != [] {
      var init, last := xs[..|xs| - 1], xs[|xs| - 1];
      assert xs == init + [last];
      StopLinkOfCount(init, e);
    }
  }

  lemma {:induction false} SwitchStartsCount(sw: seq<Node>, controllers: seq<Node>, e: Event)
    ensures multiset(SwitchStarts(sw, controllers))[e]
         == if e.StartSwitch? && e.controllers == controllers then multiset(sw)[e.node] else 0
  {
    if sw != [] {
      var init, last := sw[..|sw| - 1], sw[|sw| - 1];
      assert sw == init + [last];
      SwitchStartsCount(init, controllers, e);
    }
  }

  /** Every switch in the list gets `stop()` (unless its class reported it
      batch-stopped) and `terminate()`, once per occurrence, and nothing else
      happens in that loop. */
  lemma {:induction false} SwitchStopsCount(sw: seq<Node>, stopped: set<Node>, e: Event)
    ensures multiset(SwitchStops(sw, stopped))[e]
         == if e.Terminate? then multiset(sw)[e.node]
            else if e.Stop? && !e.explicitDeleteIntfs && e.node !in stopped then multiset(sw)[e.node]
            else 0
  {
    if sw != [] {
      var init, last := sw[..|sw| - 1], sw[|sw| - 1];
      assert sw == init + [last];
      SwitchStopsCount(init, stopped, e);
    }
  }

  /** Over a repeat-free list of classes, each capable class in the list gets
      exactly one batch call, on its own group, and nothing else is called. */
  lemma {:induction false} BatchStartupCount(tags: seq<ClassTag>, sw: seq<Node>, capable: set<ClassTag>, e: Event)
    requires Increasing(tags)
    ensures multiset(BatchCalls(tags, sw, capable, BatchStartupOf))[e]
         == if e.BatchStartup? && e.cls in capable && e.cls in tags && e.members == OfClass(sw, e.cls) then 1 else 0
  {
    if tags != [] {
      var init, last := tags[..|tags| - 1], tags[|tags| - 1];
      forall i | 0 <= i < |init| ensures init[i] != last {
        assert init[i] == tags[i];
      }
      BatchStartupCount(init, sw, capable, e);
    }
  }

  lemma {:induction false} BatchShutdownCount(tags: seq<ClassTag>, sw: seq<Node>, capable: set<ClassTag>, e: Event)
    requires Increasing(tags)
    ensures multiset(BatchCalls(tags, sw, capable, BatchShutdownOf))[e]
         == if e.BatchShutdown? && e.cls in capable && e.cls in tags && e.members == OfClass(sw, e.cls) then 1 else 0
  {
    if tags != [] {
      var init, last := tags[..|tags| - 1], tags[|tags| - 1];
      forall i | 0 <= i < |init| ensures init[i] != last {
        assert init[i] == tags[i];
      }
      BatchShutdownCount(init, sw, capable, e);
    }
  }

  /** How often `start` makes each call: each controller is started once per
      occurrence, each switch once per occurrence with the full controller
      list, and each capable switch class present gets exactly one
      `batchStartup` call, on the switches of that class. */
  lemma StartCount(controllers: seq<Node>, switches: seq<Node>, batchStartup: set<ClassTag>, e: Event)
    ensures multiset(StartEvents(controllers, switches, batchStartup))[e]
         == if e.Start? then multiset(controllers)[e.node]
            else if e.StartSwitch? && e.controllers == controllers then multiset(switches)[e.node]
            else if e.BatchStartup? && e.cls in batchStartup && HasClass(switches, e.cls)
                    && e.members == OfClass(switches, e.cls) then 1
            else 0
  {
    var e0 := Each(controllers, StartOf);
    var e1 := SwitchStarts(switches, controllers);
    var e2 := BatchCalls(ClassOrder(switches), switches, batchStartup, BatchStartupOf);
    assert multiset(e0 + e1 + e2) == multiset(e0) + multiset(e1) + multiset(e2);
    StartOfCount(controllers, e);
    SwitchStartsCount(switches, controllers, e);
    BatchStartupCount(ClassOrder(switches), switches, batchStartup, e);
  }

  /** How often `stop` makes each call, stage by stage. */
  lemma StopCount(controllers: seq<Node>, terms: seq<Term>, links: seq<Link>, switches: seq<Node>,
                  hosts: seq<Node>, batchShutdown: set<ClassTag>,
                  shutdown: (ClassTag, seq<Node>) -> set<Node>, e: Event)
    ensures var stopped := Stopped(ClassOrder(switches), switches, batchShutdown, shutdown);
      multiset(StopEvents(controllers, terms, links, switches, hosts, batchShutdown, shutdown))[e]
      == (if e.Stop? && !e.explicitDeleteIntfs then multiset(controllers)[e.node] else 0)
       + (if terms != [] && e == StopTerms(terms) then 1 else 0)
       + (if e.StopLink? then multiset(links)[e.link] else 0)
       + (if e.BatchShutdown? && e.cls in batchShutdown && HasClass(switches, e.cls)
             && e.members == OfClass(switches, e.cls) then 1 else 0)
       + (if e.Terminate? then multiset(switches)[e.node]
          else if e.Stop? && !e.explicitDeleteIntfs && e.node !in stopped then multiset(switches)[e.node]
          else 0)
       + (if e.Terminate? then multiset(hosts)[e.node] else 0)
  {
    var tags := ClassOrder(switches);
    var e0 := Each(controllers, StopOf);
    var e1: seq<Event> := if terms != [] then [StopTerms(terms)] else [];
    var e2 := Each(links, StopLinkOf);
    var e3 := BatchCalls(tags, switches, batchShutdown, BatchShutdownOf);
    var e4 := SwitchStops(switches, Stopped(tags, switches, batchShutdown, shutdown));
    var e5 := Each(hosts, TerminateOf);
    assert multiset(e0 + e1 + e2 + e3 + e4 + e5)
        == multiset(e0) + multiset(e1) + multiset(e2) + multiset(e3) + multiset(e4) + multiset(e5);
    StopOfCount(controllers, e);
    StopLinkOfCount(links, e);
    BatchShutdownCount(tags, switches, batchShutdown, e);
    SwitchStopsCount(switches, Stopped(tags, switches, batchShutdown, shutdown), e);
    TerminateOfCount(hosts, e);
  }

  /** With the roles apart, `stop` stops each controller once per occurrence,
      terminates each host once per occurrence, terminates each switch once
      per occurrence and calls a switch's `stop()` once per occurrence exactly
      when the batch shutdown of its class did not report it stopped. */
  lemma StopNodeCounts(controllers: seq<Node>, terms: seq<Term>, links: seq<Link>, switches: seq<Node>,
                       hosts: seq<Node>, batchShutdown: set<ClassTag>,
                       shutdown: (ClassTag, seq<Node>) -> set<Node>, n: Node)
    requires AllRole(controllers, ControllerRole) && AllRole(switches, SwitchRole) && AllRole(hosts, HostRole)
    ensures var ev := StopEvents(controllers, terms, links, switches, hosts, batchShutdown, shutdown);
      var stopped := Stopped(ClassOrder(switches), switches, batchShutdown, shutdown);
      && (n.role == ControllerRole ==> multiset(ev)[Stop(n, false)] == multiset(controllers)[n])
      && (n.role == HostRole ==> multiset(ev)[Terminate(n)] == multiset(hosts)[n])
      && (n.role == SwitchRole ==>
            && multiset(ev)[Terminate(n)] == multiset(switches)[n]
            && multiset(ev)[Stop(n, false)] == if n in stopped then 0 else multiset(switches)[n])
  {
    StopCount(controllers, terms, links, switches, hosts, batchShutdown, shutdown, Stop(n, false));
    StopCount(controllers, terms, links, switches, hosts, batchShutdown, shutdown, Terminate(n));
    if n.role != ControllerRole { assert n !in controllers; }
    if n.role != SwitchRole { assert n !in switches; }
    if n.role != HostRole { assert n !in hosts; }
  }
}
