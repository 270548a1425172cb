/**
 Why the breadth-first traversal of src/discovery/ib.rs is complete and its paths are shortest.
 */
module ShortestPaths {
  import opened Prelude
  import opened MadLayout
  import opened Simulator
  import opened Topology
  import opened Search

  // ---- What there is to discover ----

  /** Nodes a traversal goes through: the agent's own node and switches. */
  ghost predicate Expandable(f: Image, n: nat)
    requires n < |f.nodes|
  {
    (f.root.Some? && f.root.value.node == n) || NodeTypeOf(f.nodes[n].nodeInfo.nodeType) == Some(Switch)
  }

  /** The cable out of `d` leads to a node a client can record. */
  ghost predicate Leads(f: Image, d: End)
    requires f.Valid()
  {
    Peer(f, d).Some? && Readable(f, Peer(f, d).value.node)
  }

  /** The hops lead to a node a client can record. */
  ghost predicate Ends(f: Image, hops: seq<byte>)
    requires f.Valid()
  {
    Resolve(f, hops).Some? && Readable(f, Resolve(f, hops).value.node)
  }

  /** A sequence of hops over live cabled ports and nodes a client can record, through switches only. */
  ghost predicate Route(f: Image, hops: seq<byte>)
    requires f.Valid()
    ensures Route(f, hops) ==> Ends(f, hops)
  {
    if hops == [] then Ends(f, [])
    else
      var init, x := hops[..|hops| - 1], hops[|hops| - 1];
      Route(f, init) && RouteStep(f, Resolve(f, init).value.node, x)
  }

  ghost predicate RouteStep(f: Image, n: nat, x: byte)
    requires f.Valid() && n < |f.nodes|
  {
    Expandable(f, n) && Eligible(f, n, x) && Leads(f, End(n, x))
  }

  /** The node a route ends at. */
  ghost function Target(f: Image, hops: seq<byte>): nat
    requires f.Valid() && Route(f, hops)
  {
    Resolve(f, hops).value.node
  }

  lemma RouteAppend(f: Image, hops: seq<byte>, x: byte)
    requires f.Valid() && Route(f, hops) && RouteStep(f, Target(f, hops), x)
    ensures Route(f, hops + [x])
    ensures Resolve(f, hops + [x]) == Peer(f, End(Target(f, hops), x))
  {
    assert (hops + [x])[..|hops|] == hops;
  }

  // ---- What the traversal keeps when every query is answered ----

  function Len(n: Node): nat { |PathHops(n.drPath)| }

  function Level(it: Item): nat { |PathHops(it.path)| }

  /** The numbers in the table of a node: 1 to nports, and 0 on a switch that answers for its port 1. */
  predicate Tabled(f: Image, h: nat, x: byte)
    requires h < |f.nodes|
  {
    if x == 0 then NodeTypeOf(f.nodes[h].nodeInfo.nodeType) == Some(Switch) && Described(f, h, 0).Some?
    else x <= f.nodes[h].nodeInfo.nports
  }

  /** The record of a node is complete: its table has all its ports, as they are. */
  ghost predicate ExactNode(f: Image, n: Node)
    requires f.Valid()
  {
    && TrueNode(f, n) && Readable(f, Home(f, n))
    && (forall x: byte :: FindNumber(n.ports, x).Some? <==> Tabled(f, Home(f, n), x))
    && (forall a :: 0 <= a < |n.ports| ==> ExactPort(f, Home(f, n), n.ports[a], StandIn(n, n.ports[a].number)))
    && n.lid == LidOf(f, Home(f, n), n.localPort)
    && (forall x: byte :: Eligible(f, Home(f, n), x) ==>
          FindNumber(n.ports, x).Some? && n.ports[FindNumber(n.ports, x).value].Live())
  }

  /** A port the fabric has is no placeholder. */
  predicate ExactPort(f: Image, h: nat, p: Port, standIn: u16)
    requires h < |f.nodes|
  {
    Described(f, h, p.number).Some? ==> SameRecord(p, Described(f, h, p.number).value, standIn)
  }

  /** The LID of a node entered by its port `entry`: that of port 0 of a switch if it has one, or else of `entry`. */
  function LidOf(f: Image, h: nat, entry: byte): u16
    requires h < |f.nodes|
  {
    if Tabled(f, h, 0) && Described(f, h, 0).value.lid != 0 then Described(f, h, 0).value.lid
    else if Tabled(f, h, entry) && Described(f, h, entry).Some? then Described(f, h, entry).value.lid
    else 0
  }

  /** Levels in the work list never decrease and span at most two values; no path known is longer. */
  ghost predicate Fifo(nodes: seq<Node>, queue: seq<Item>, level: nat) {
    && (forall k :: 0 <= k < |queue| ==> level <= Level(queue[k]) <= level + 1)
    && (forall j, k :: 0 <= j < k < |queue| ==> Level(queue[j]) <= Level(queue[k]))
    && (forall i :: 0 <= i < |nodes| ==> Len(nodes[i]) <= level + 1)
  }

  ghost predicate KnownWithin(f: Image, nodes: seq<Node>, n: nat, len: nat)
    requires f.Valid()
  {
    exists j :: 0 <= j < |nodes| && Home(f, nodes[j]) == n && Len(nodes[j]) <= len
  }

  ghost predicate Names(nodes: seq<Node>, it: Item, i: nat, x: byte, len: nat) {
    Has(nodes, it.port) && it.port.node == i && PortAt(nodes, it.port).number == x && Level(it) == len
  }

  ghost predicate Queued(nodes: seq<Node>, queue: seq<Item>, i: nat, x: byte, len: nat) {
    exists k :: 0 <= k < |queue| && Names(nodes, queue[k], i, x, len)
  }

  /** The node behind port `x` of node `i` is known by a short enough path, or the port is still to be followed. */
  ghost predicate NodeServed(f: Image, nodes: seq<Node>, queue: seq<Item>, i: nat, x: byte)
    requires f.Valid() && i < |nodes|
  {
    var e := Peer(f, End(Home(f, nodes[i]), x));
    Leads(f, End(Home(f, nodes[i]), x)) ==>
      KnownWithin(f, nodes, e.value.node, Len(nodes[i]) + 1) || Queued(nodes, queue, i, x, Len(nodes[i]))
  }

  /** Ports the search must serve: those of switches with room in the path, and the agent's own below `seen`. */
  ghost predicate Due(f: Image, nodes: seq<Node>, seen: nat, i: nat, x: byte)
    requires f.Valid() && i < |nodes|
  {
    && (if i == 0 then x < seen else nodes[i].nodeType == Switch)
    && Len(nodes[i]) < MaxHops(Base(nodes))
    && Eligible(f, Home(f, nodes[i]), x)
  }

  ghost predicate Closed(f: Image, nodes: seq<Node>, queue: seq<Item>, seen: nat)
    requires f.Valid()
  {
    forall i, x: byte :: 0 <= i < |nodes| && Due(f, nodes, seen, i, x) ==> NodeServed(f, nodes, queue, i, x)
  }

  /** Port `x` of node `i` is linked, or still to be followed. */
  ghost predicate LinkServed(f: Image, nodes: seq<Node>, queue: seq<Item>, i: nat, x: byte)
    requires f.Valid() && i < |nodes|
  {
    Lands(f, End(Home(f, nodes[i]), x)) ==>
      || Queued(nodes, queue, i, x, Len(nodes[i]))
      || (FindNumber(nodes[i].ports, x).Some? && nodes[i].ports[FindNumber(nodes[i].ports, x).value].remote.Some?)
  }

  ghost predicate Wired(f: Image, nodes: seq<Node>, queue: seq<Item>)
    requires f.Valid()
  {
    forall i, x: byte :: 0 < i < |nodes| && Due(f, nodes, 0, i, x) ==> LinkServed(f, nodes, queue, i, x)
  }

  ghost predicate Routes(f: Image, nodes: seq<Node>, queue: seq<Item>)
    requires f.Valid()
  {
    && (forall i :: 0 <= i < |nodes| ==> Route(f, PathHops(nodes[i].drPath)))
    && (forall k :: 0 <= k < |queue| ==> Route(f, PathHops(queue[k].path)))
  }

  ghost predicate ExactNodes(f: Image, nodes: seq<Node>)
    requires f.Valid()
  {
    forall i :: 0 <= i < |nodes| ==> ExactNode(f, nodes[i])
  }

  /** Everything above, at one moment of the search. */
  ghost predicate OnTrack(f: Image, nodes: seq<Node>, queue: seq<Item>, seen: nat, level: nat)
    requires f.Valid()
  {
    && ExactNodes(f, nodes) && Routes(f, nodes, queue) && Fifo(nodes, queue, level)
    && Closed(f, nodes, queue, seen) && Wired(f, nodes, queue)
  }

  /** The cable out of `d` ends at a port its node tells the client about. */
  ghost predicate Lands(f: Image, d: End)
    requires f.Valid()
  {
    Leads(f, d) && Tabled(f, Peer(f, d).value.node, Peer(f, d).value.num)
  }

  // ---- Entries pushed for a newly met switch ----

  /** The live ports of a node other than port 0, in port order, each with the node's path. */
  function Seeds(ports: seq<Port>, node: nat, path: Path): (items: seq<Item>)
    ensures |items| <= |ports|
    ensures forall k :: 0 <= k < |items| ==>
      && items[k].path == path && items[k].port.node == node && items[k].port.port < |ports|
      && ports[items[k].port.port].Live() && ports[items[k].port.port].number != 0
  {
    if ports == [] then []
    else
      var init, last := ports[..|ports| - 1], ports[|ports| - 1];
      Seeds(init, node, path)
      + if last.number != 0 && last.Live() then [Item(PortRef(node, |ports| - 1), path)] else []
  }

  lemma {:induction false} SeedsHasAll(ports: seq<Port>, node: nat, path: Path, a: nat)
    requires a < |ports| && ports[a].Live() && ports[a].number != 0
    ensures Item(PortRef(node, a), path) in Seeds(ports, node, path)
  {
    if a < |ports| - 1 { SeedsHasAll(ports[..|ports| - 1], node, path, a); }
  }

  /** A port table has at most 255 ports to push. */
  lemma {:induction false} SeedsFew(ports: seq<Port>, node: nat, path: Path)
    requires Ascending(ports)
    ensures |Seeds(ports, node, path)| <= if ports == [] then 0 else ports[|ports| - 1].number
  {
    if ports != [] { SeedsFew(ports[..|ports| - 1], node, path); }
  }

  // ---- Steps of the search ----

  lemma QueuedGrows(nodes: seq<Node>, queue: seq<Item>, more: seq<Item>, i: nat, x: byte, len: nat)
    requires Queued(nodes, queue, i, x, len)
    ensures Queued(nodes, queue + more, i, x, len)
  {
    var k :| 0 <= k < |queue| && Names(nodes, queue[k], i, x, len);
    assert Names(nodes, (queue + more)[k], i, x, len);
  }

  /** Entries one level out may always be pushed. */
  lemma PushKeepsOnTrack(f: Image, nodes: seq<Node>, queue: seq<Item>, seen: nat, level: nat, more: seq<Item>)
    requires f.Valid() && OnTrack(f, nodes, queue, seen, level)
    requires forall k :: 0 <= k < |more| ==> Route(f, PathHops(more[k].path)) && Level(more[k]) == level + 1
    ensures OnTrack(f, nodes, queue + more, seen, level)
  {
    hide Route, PathHops, ExactNode, Due, Home, Peer, Names, Queued;
    var all := queue + more;
    forall i, x: byte | 0 <= i < |nodes| && Due(f, nodes, seen, i, x) ensures NodeServed(f, nodes, all, i, x) {
      assert NodeServed(f, nodes, queue, i, x);
      if Queued(nodes, queue, i, x, Len(nodes[i])) { QueuedGrows(nodes, queue, more, i, x, Len(nodes[i])); }
    }
    PushKeepsWired(f, nodes, queue, more);
    PushKeepsRoutes(f, nodes, queue, more);
  }

  lemma PushKeepsWired(f: Image, nodes: seq<Node>, queue: seq<Item>, more: seq<Item>)
    requires f.Valid() && Wired(f, nodes, queue)
    ensures Wired(f, nodes, queue + more)
  {
    forall i, x: byte | 0 < i < |nodes| && Due(f, nodes, 0, i, x) ensures LinkServed(f, nodes, queue + more, i, x) {
      assert LinkServed(f, nodes, queue, i, x);
      if Queued(nodes, queue, i, x, Len(nodes[i])) { QueuedGrows(nodes, queue, more, i, x, Len(nodes[i])); }
    }
  }

  lemma PushKeepsRoutes(f: Image, nodes: seq<Node>, queue: seq<Item>, more: seq<Item>)
    requires f.Valid() && Routes(f, nodes, queue)
    requires forall k :: 0 <= k < |more| ==> Route(f, PathHops(more[k].path))
    ensures Routes(f, nodes, queue + more)
  {
  }

  /** What a newly met node adds to the work list. */
  function NewSeeds(nodes: seq<Node>, m: Node): seq<Item> {
    if m.nodeType == Switch then Seeds(m.ports, |nodes|, m.drPath) else []
  }

  lemma NewNodeServed(f: Image, nodes: seq<Node>, queue: seq<Item>, m: Node, x: byte)
    requires f.Valid() && nodes != [] && ExactNode(f, m) && m.nodeType == Switch
    requires Eligible(f, Home(f, m), x)
    ensures Queued(nodes + [m], queue + NewSeeds(nodes, m), |nodes|, x, Len(m))
  {
    hide TrueNode, FindPort, Home, PathHops, Seeds;
    var a := FindNumber(m.ports, x).value;
    var it := Item(PortRef(|nodes|, a), m.drPath);
    var seeds := NewSeeds(nodes, m);
    SeedsHasAll(m.ports, |nodes|, m.drPath, a);
    var k :| 0 <= k < |seeds| && seeds[k] == it;
    assert (queue + seeds)[|queue| + k] == it && Names(nodes + [m], it, |nodes|, x, Len(m));
  }

  lemma QueuedStays(nodes: seq<Node>, queue: seq<Item>, more: seq<Item>, m: Node, i: nat, x: byte, len: nat)
    requires Queued(nodes, queue, i, x, len)
    ensures Queued(nodes + [m], queue + more, i, x, len)
  {
    hide PathHops;
    var k :| 0 <= k < |queue| && Names(nodes, queue[k], i, x, len);
    assert (queue + more)[k] == queue[k] && Names(nodes + [m], queue[k], i, x, len);
  }

  lemma NodeServedStays(f: Image, nodes: seq<Node>, queue: seq<Item>, more: seq<Item>, m: Node, i: nat, x: byte)
    requires f.Valid() && i < |nodes| && NodeServed(f, nodes, queue, i, x)
    ensures NodeServed(f, nodes + [m], queue + more, i, x)
  {
    hide Readable, Resolve, PathHops, Queued, Home;
    var t := nodes + [m];
    assert t[i] == nodes[i];
    var len := Len(nodes[i]);
    var e := Peer(f, End(Home(f, nodes[i]), x));
    if Leads(f, End(Home(f, nodes[i]), x)) {
      if KnownWithin(f, nodes, e.value.node, len + 1) {
        var j :| 0 <= j < |nodes| && Home(f, nodes[j]) == e.value.node && Len(nodes[j]) <= len + 1;
        assert t[j] == nodes[j];
      } else {
        QueuedStays(nodes, queue, more, m, i, x, len);
      }
    }
  }

  lemma LinkServedStays(f: Image, nodes: seq<Node>, queue: seq<Item>, more: seq<Item>, m: Node, i: nat, x: byte)
    requires f.Valid() && i < |nodes| && LinkServed(f, nodes, queue, i, x)
    ensures LinkServed(f, nodes + [m], queue + more, i, x)
  {
    assert (nodes + [m])[i] == nodes[i];
    if Queued(nodes, queue, i, x, Len(nodes[i])) {
      QueuedStays(nodes, queue, more, m, i, x, Len(nodes[i]));
    }
  }

  lemma DueStays(f: Image, nodes: seq<Node>, m: Node, seen: nat, i: nat, x: byte)
    requires f.Valid() && i < |nodes|
    ensures Due(f, nodes + [m], seen, i, x) <==> Due(f, nodes, seen, i, x)
  {
    assert (nodes + [m])[i] == nodes[i];
  }

  /** A node met one level out is registered and, if it is a switch, its ports are pushed. */
  lemma RegisterKeepsOnTrack(f: Image, nodes: seq<Node>, queue: seq<Item>, seen: nat, level: nat, m: Node)
    requires f.Valid() && nodes != [] && OnTrack(f, nodes, queue, seen, level)
    requires ExactNode(f, m) && Route(f, PathHops(m.drPath)) && Len(m) == level + 1
    ensures OnTrack(f, nodes + [m], queue + NewSeeds(nodes, m), seen, level)
  {
    RegisterKeepsClosed(f, nodes, queue, seen, m);
    RegisterKeepsWired(f, nodes, queue, m);
    RegisterKeepsRoutes(f, nodes, queue, m);
    RegisterKeepsFifo(nodes, queue, level, m);
    RegisterKeepsExact(f, nodes, m);
  }

  lemma RegisterKeepsExact(f: Image, nodes: seq<Node>, m: Node)
    requires f.Valid() && ExactNodes(f, nodes) && ExactNode(f, m)
    ensures ExactNodes(f, nodes + [m])
  {
  }

  lemma RegisterKeepsFifo(nodes: seq<Node>, queue: seq<Item>, level: nat, m: Node)
    requires Fifo(nodes, queue, level) && Len(m) == level + 1
    ensures Fifo(nodes + [m], queue + NewSeeds(nodes, m), level)
  {
  }

  lemma RegisterKeepsRoutes(f: Image, nodes: seq<Node>, queue: seq<Item>, m: Node)
    requires f.Valid() && Routes(f, nodes, queue) && Route(f, PathHops(m.drPath))
    ensures Routes(f, nodes + [m], queue + NewSeeds(nodes, m))
  {
    hide Route, PathHops;
    PushKeepsRoutes(f, nodes, queue, NewSeeds(nodes, m));
  }

  lemma RegisterKeepsClosed(f: Image, nodes: seq<Node>, queue: seq<Item>, seen: nat, m: Node)
    requires f.Valid() && nodes != [] && Closed(f, nodes, queue, seen) && ExactNode(f, m)
    ensures Closed(f, nodes + [m], queue + NewSeeds(nodes, m), seen)
  {
    hide ExactNode, Eligible, Home, PathHops, Queued, NewSeeds;
    var t, more := nodes + [m], NewSeeds(nodes, m);
    forall i, x: byte | 0 <= i < |t| && Due(f, t, seen, i, x) ensures NodeServed(f, t, queue + more, i, x) {
      if i < |nodes| {
        DueStays(f, nodes, m, seen, i, x);
        NodeServedStays(f, nodes, queue, more, m, i, x);
      } else {
        NewNodeServed(f, nodes, queue, m, x);
      }
    }
  }

  lemma RegisterKeepsWired(f: Image, nodes: seq<Node>, queue: seq<Item>, m: Node)
    requires f.Valid() && nodes != [] && Wired(f, nodes, queue) && ExactNode(f, m)
    ensures Wired(f, nodes + [m], queue + NewSeeds(nodes, m))
  {
    var t, more := nodes + [m], NewSeeds(nodes, m);
    forall i, x: byte | 0 < i < |t| && Due(f, t, 0, i, x) ensures LinkServed(f, t, queue + more, i, x) {
      if i < |nodes| {
        DueStays(f, nodes, m, 0, i, x);
        LinkServedStays(f, nodes, queue, more, m, i, x);
      } else {
        NewNodeServed(f, nodes, queue, m, x);
      }
    }
  }

  /** Linking a pair of ports only adds links. */
  lemma LinkKeepsOnTrack(f: Image, nodes: seq<Node>, queue: seq<Item>, seen: nat, level: nat, a: PortRef, b: PortRef)
    requires f.Valid() && nodes != [] && OnTrack(f, nodes, queue, seen, level) && Has(nodes, a) && Has(nodes, b)
    ensures OnTrack(f, LinkPorts(nodes, a, b), queue, seen, level)
  {
    hide Route, PathHops, ExactNodes, Closed, Wired;
    LinkKeepsExact(f, nodes, a, b);
    LinkKeepsClosed(f, nodes, queue, seen, a, b);
    LinkKeepsWired(f, nodes, queue, a, b);
  }

  lemma LinkKeepsExact(f: Image, nodes: seq<Node>, a: PortRef, b: PortRef)
    requires f.Valid() && ExactNodes(f, nodes) && Has(nodes, a) && Has(nodes, b)
    ensures ExactNodes(f, LinkPorts(nodes, a, b))
  {
    hide LinkPorts, ExactNode;
    var t := LinkPorts(nodes, a, b);
    forall i | 0 <= i < |t| ensures ExactNode(f, t[i]) {
      LinkKeepsTable(nodes, a, b, i);
      RemotesKeepExact(f, nodes[i], t[i]);
    }
  }

  lemma RemotesKeepExact(f: Image, m: Node, n: Node)
    requires f.Valid() && ExactNode(f, m) && SameButPorts(m, n)
    requires forall c :: 0 <= c < |m.ports| ==> n.ports[c] == m.ports[c].(remote := n.ports[c].remote)
    ensures ExactNode(f, n)
  {
    hide TruePort, Eligible, Tabled, FindNumber, FindPort, Described, PathHops, Resolve;
    RemotesDoNotMatter(f, m, n);
    SameNumbers(m.ports, n.ports);
    forall a | 0 <= a < |n.ports| ensures ExactPort(f, Home(f, n), n.ports[a], StandIn(n, n.ports[a].number)) {
      assert ExactPort(f, Home(f, m), m.ports[a], StandIn(m, m.ports[a].number));
    }
  }

  lemma LinkKeepsClosed(f: Image, nodes: seq<Node>, queue: seq<Item>, seen: nat, a: PortRef, b: PortRef)
    requires f.Valid() && nodes != [] && Closed(f, nodes, queue, seen) && Has(nodes, a) && Has(nodes, b)
    ensures Closed(f, LinkPorts(nodes, a, b), queue, seen)
  {
    var t := LinkPorts(nodes, a, b);
    forall i, x: byte | 0 <= i < |t| && Due(f, t, seen, i, x) ensures NodeServed(f, t, queue, i, x) {
      assert Due(f, nodes, seen, i, x);
      LinkKeepsNodeServed(f, nodes, queue, a, b, i, x);
    }
  }

  lemma LinkKeepsWired(f: Image, nodes: seq<Node>, queue: seq<Item>, a: PortRef, b: PortRef)
    requires f.Valid() && nodes != [] && Wired(f, nodes, queue) && Has(nodes, a) && Has(nodes, b)
    ensures Wired(f, LinkPorts(nodes, a, b), queue)
  {
    var t := LinkPorts(nodes, a, b);
    forall i, x: byte | 0 < i < |t| && Due(f, t, 0, i, x) ensures LinkServed(f, t, queue, i, x) {
      assert Due(f, nodes, 0, i, x);
      LinkKeepsLinkServed(f, nodes, queue, a, b, i, x);
    }
  }

  lemma {:induction false} SameNumbers(m: seq<Port>, n: seq<Port>)
    requires |m| == |n| && forall c :: 0 <= c < |m| ==> n[c].number == m[c].number
    ensures forall x: byte :: FindNumber(n, x) == FindNumber(m, x)
  {
    if m != [] { SameNumbers(m[..|m| - 1], n[..|n| - 1]); }
  }

  lemma LinkKeepsQueued(nodes: seq<Node>, queue: seq<Item>, a: PortRef, b: PortRef, i: nat, x: byte, len: nat)
    requires Has(nodes, a) && Has(nodes, b) && Queued(nodes, queue, i, x, len)
    ensures Queued(LinkPorts(nodes, a, b), queue, i, x, len)
  {
    var k :| 0 <= k < |queue| && Names(nodes, queue[k], i, x, len);
    assert Names(LinkPorts(nodes, a, b), queue[k], i, x, len);
  }

  lemma LinkKeepsNodeServed(f: Image, nodes: seq<Node>, queue: seq<Item>, a: PortRef, b: PortRef, i: nat, x: byte)
    requires f.Valid() && Has(nodes, a) && Has(nodes, b) && i < |nodes| && NodeServed(f, nodes, queue, i, x)
    ensures NodeServed(f, LinkPorts(nodes, a, b), queue, i, x)
  {
    hide Readable, Resolve, PathHops, Queued, LinkPorts;
    var t := LinkPorts(nodes, a, b);
    var len := Len(nodes[i]);
    var e := Peer(f, End(Home(f, nodes[i]), x));
    if Leads(f, End(Home(f, nodes[i]), x)) {
      if KnownWithin(f, nodes, e.value.node, len + 1) {
        var j :| 0 <= j < |nodes| && Home(f, nodes[j]) == e.value.node && Len(nodes[j]) <= len + 1;
        assert Home(f, t[j]) == Home(f, nodes[j]) && Len(t[j]) == Len(nodes[j]);
      } else {
        LinkKeepsQueued(nodes, queue, a, b, i, x, len);
      }
    }
  }

  lemma LinkKeepsLinkServed(f: Image, nodes: seq<Node>, queue: seq<Item>, a: PortRef, b: PortRef, i: nat, x: byte)
    requires f.Valid() && Has(nodes, a) && Has(nodes, b) && i < |nodes| && LinkServed(f, nodes, queue, i, x)
    ensures LinkServed(f, LinkPorts(nodes, a, b), queue, i, x)
  {
    var t := LinkPorts(nodes, a, b);
    LinkKeepsTable(nodes, a, b, i);
    SameNumbers(nodes[i].ports, t[i].ports);
    if Queued(nodes, queue, i, x, Len(nodes[i])) {
      LinkKeepsQueued(nodes, queue, a, b, i, x, Len(nodes[i]));
    }
    var idx := FindNumber(nodes[i].ports, x);
    if idx.Some? {
      var r := PortRef(i, idx.value);
      assert PortAt(nodes, r).remote.Some? ==> PortAt(t, r).remote.Some?;
    }
  }

  lemma QueuedTail(nodes: seq<Node>, queue: seq<Item>, i: nat, x: byte, len: nat)
    requires queue != [] && Queued(nodes, queue, i, x, len) && !Names(nodes, queue[0], i, x, len)
    ensures Queued(nodes, queue[1..], i, x, len)
  {
    var k :| 0 <= k < |queue| && Names(nodes, queue[k], i, x, len);
    assert queue[k] == queue[1..][k - 1];
  }

  /** What following the head entry must have achieved before it can be forgotten. */
  ghost predicate HeadDone(f: Image, nodes: seq<Node>, it: Item)
    requires f.Valid() && nodes != []
  {
    Has(nodes, it.port) && Level(it) < MaxHops(Base(nodes)) ==>
      var e := Peer(f, TrueEnd(f, nodes, it.port));
      Leads(f, TrueEnd(f, nodes, it.port)) ==>
        && KnownWithin(f, nodes, e.value.node, Level(it) + 1)
        && (Lands(f, TrueEnd(f, nodes, it.port)) ==> PortAt(nodes, it.port).remote.Some?)
  }

  /** The head entry is forgotten; the level is now the head's. */
  lemma DropKeepsOnTrack(f: Image, nodes: seq<Node>, queue: seq<Item>, seen: nat, level: nat)
    requires f.Valid() && nodes != [] && queue != [] && OnTrack(f, nodes, queue, seen, level)
    requires forall i :: 0 <= i < |nodes| ==> Ascending(nodes[i].ports)
    requires HeadDone(f, nodes, queue[0])
    ensures OnTrack(f, nodes, queue[1..], seen, level)
  {
    hide Route, PathHops, ExactNode, Eligible, Home, Peer, Queued;
    var rest := queue[1..];
    forall i, x: byte | 0 <= i < |nodes| && Due(f, nodes, seen, i, x) ensures NodeServed(f, nodes, rest, i, x) {
      assert NodeServed(f, nodes, queue, i, x);
      var len := Len(nodes[i]);
      if Queued(nodes, queue, i, x, len) && !Names(nodes, queue[0], i, x, len) {
        QueuedTail(nodes, queue, i, x, len);
      }
    }
    DropKeepsWired(f, nodes, queue);
  }

  lemma DropKeepsWired(f: Image, nodes: seq<Node>, queue: seq<Item>)
    requires f.Valid() && nodes != [] && queue != [] && Wired(f, nodes, queue)
    requires forall i :: 0 <= i < |nodes| ==> Ascending(nodes[i].ports)
    requires HeadDone(f, nodes, queue[0])
    ensures Wired(f, nodes, queue[1..])
  {
    var rest := queue[1..];
    forall i, x: byte | 0 < i < |nodes| && Due(f, nodes, 0, i, x) ensures LinkServed(f, nodes, rest, i, x) {
      assert LinkServed(f, nodes, queue, i, x);
      var len := Len(nodes[i]);
      if Queued(nodes, queue, i, x, len) {
        if Names(nodes, queue[0], i, x, len) {
          FindInTable(nodes[i].ports, queue[0].port.port);
        } else {
          QueuedTail(nodes, queue, i, x, len);
        }
      }
    }
  }

  lemma {:induction false} FindInTable(ports: seq<Port>, a: nat)
    requires Ascending(ports) && a < |ports|
    ensures FindNumber(ports, ports[a].number) == Some(a)
  {
    var r := FindNumber(ports, ports[a].number);
    assert r.Some? && ports[r.value].number == ports[a].number;
  }

  /** When the head is popped the search is at its level. */
  lemma LevelOfHead(f: Image, nodes: seq<Node>, queue: seq<Item>, seen: nat, level: nat)
    requires f.Valid() && queue != [] && OnTrack(f, nodes, queue, seen, level)
    ensures OnTrack(f, nodes, queue, seen, Level(queue[0]))
  {
  }

  // ---- The result ----

  /** Every node a route within the path limit ends at is known, by a path no longer than the route. */
  ghost predicate Complete(f: Image, nodes: seq<Node>)
    requires f.Valid()
  {
    && nodes != []
    && forall hops {:trigger Route(f, hops)} :: Route(f, hops) && |hops| <= MaxHops(Base(nodes)) ==>
         KnownWithin(f, nodes, Target(f, hops), |hops|)
  }

  /** Every known node is at the end of a route, its own path, and no route to it is shorter. */
  ghost predicate Shortest(f: Image, nodes: seq<Node>)
    requires f.Valid()
  {
    forall i :: 0 <= i < |nodes| ==>
      && Route(f, PathHops(nodes[i].drPath)) && Target(f, PathHops(nodes[i].drPath)) == Home(f, nodes[i])
      && forall hops {:trigger Route(f, hops)} :: Route(f, hops) && Target(f, hops) == Home(f, nodes[i]) ==>
           Len(nodes[i]) <= |hops|
  }

  /**
   A live port of a switch searched, whose path has room for a hop, is linked exactly when its cable
   ends at a port its node tells the client about.
   */
  ghost predicate FullyLinked(f: Image, nodes: seq<Node>)
    requires f.Valid()
  {
    nodes != [] &&
    forall i, x: byte ::
      0 < i < |nodes| && nodes[i].nodeType == Switch && Len(nodes[i]) < MaxHops(Base(nodes))
      && Eligible(f, Home(f, nodes[i]), x) ==>
        (LinkedAt(nodes, i, x) <==> Lands(f, End(Home(f, nodes[i]), x)))
  }

  ghost predicate LinkedAt(nodes: seq<Node>, i: nat, x: byte)
    requires i < |nodes|
  {
    FindNumber(nodes[i].ports, x).Some? && nodes[i].ports[FindNumber(nodes[i].ports, x).value].remote.Some?
  }

  /** Node `h` is known. */
  ghost predicate IsFound(f: Image, nodes: seq<Node>, h: nat)
    requires f.Valid()
  {
    exists j :: 0 <= j < |nodes| && Home(f, nodes[j]) == h
  }

  ghost predicate RouteTo(f: Image, hops: seq<byte>, h: nat, limit: int)
    requires f.Valid()
  {
    Route(f, hops) && |hops| <= limit && Target(f, hops) == h
  }

  /** A node is known exactly when some route within the path limit ends at it. */
  ghost predicate FoundExactly(f: Image, nodes: seq<Node>)
    requires f.Valid()
  {
    nodes != [] && forall h: nat :: IsFound(f, nodes, h) <==> exists hops :: RouteTo(f, hops, h, MaxHops(Base(nodes)))
  }

  /** A sequence of hops over live cabled ports through switches, whether or not a client can record its nodes. */
  ghost predicate Way(f: Image, hops: seq<byte>)
    requires f.Valid()
    ensures Way(f, hops) ==> Resolve(f, hops).Some?
  {
    if hops == [] then f.root.Some?
    else
      var init, x := hops[..|hops| - 1], hops[|hops| - 1];
      Way(f, init) &&
      var n := Resolve(f, init).value.node;
      Expandable(f, n) && Eligible(f, n, x) && Peer(f, End(n, x)).Some?
  }

  /** Every way within the path limit ends at a node a client can record. */
  ghost predicate WaysReadable(f: Image, limit: int)
    requires f.Valid()
  {
    forall hops {:trigger Way(f, hops)} :: Way(f, hops) && |hops| <= limit ==> Readable(f, Resolve(f, hops).value.node)
  }

  ghost predicate WaysFound(f: Image, nodes: seq<Node>, limit: int)
    requires f.Valid()
  {
    forall hops {:trigger Way(f, hops)} :: Way(f, hops) && |hops| <= limit ==>
      IsFound(f, nodes, Resolve(f, hops).value.node)
  }

  /**
   What a discovery without loss ends with: all nodes some route leads to and no others, by shortest
   paths, and linked; so everything some way leads to, exactly if all that can be recorded.
   */
  ghost predicate AllFoundIn(f: Image, nodes: seq<Node>)
    requires f.Valid()
  {
    && Complete(f, nodes) && Shortest(f, nodes) && FullyLinked(f, nodes)
    && FoundExactly(f, nodes) && ExactNodes(f, nodes)
    && (WaysFound(f, nodes, MaxHops(Base(nodes))) <==> WaysReadable(f, MaxHops(Base(nodes))))
  }

  lemma {:induction false} ReadableWayIsRoute(f: Image, hops: seq<byte>, limit: int)
    requires f.Valid() && Way(f, hops) && |hops| <= limit && WaysReadable(f, limit)
    ensures Route(f, hops)
  {
    hide Readable, Eligible, Expandable;
    if hops != [] { ReadableWayIsRoute(f, hops[..|hops| - 1], limit); }
  }

  lemma ExactlyFound(f: Image, nodes: seq<Node>)
    requires f.Valid() && Complete(f, nodes) && Shortest(f, nodes)
    requires forall i :: 0 <= i < |nodes| ==> PathOk(Base(nodes), nodes[i].drPath)
    ensures FoundExactly(f, nodes)
  {
    hide Route, PathHops, Home, Resolve, Encode;
    var limit := MaxHops(Base(nodes));
    forall h: nat ensures IsFound(f, nodes, h) <==> exists hops :: RouteTo(f, hops, h, limit) {
      if IsFound(f, nodes, h) {
        var j :| 0 <= j < |nodes| && Home(f, nodes[j]) == h;
        assert RouteTo(f, PathHops(nodes[j].drPath), h, limit);
      }
      if exists hops :: RouteTo(f, hops, h, limit) {
        var hops :| RouteTo(f, hops, h, limit);
        assert KnownWithin(f, nodes, Target(f, hops), |hops|);
      }
    }
  }

  /** Everything some way leads to is found exactly if it can all be recorded. */
  lemma ReadableFound(f: Image, nodes: seq<Node>)
    requires f.Valid() && FoundExactly(f, nodes) && ExactNodes(f, nodes)
    ensures WaysFound(f, nodes, MaxHops(Base(nodes))) <==> WaysReadable(f, MaxHops(Base(nodes)))
  {
    hide Way, Route, Readable, Home, Resolve, TrueNode, ExactPort, Tabled, LidOf;
    var limit := MaxHops(Base(nodes));
    if WaysFound(f, nodes, limit) {
      forall hops {:trigger Way(f, hops)} | Way(f, hops) && |hops| <= limit
        ensures Readable(f, Resolve(f, hops).value.node)
      {
        var j :| 0 <= j < |nodes| && Home(f, nodes[j]) == Resolve(f, hops).value.node;
        assert ExactNode(f, nodes[j]);
      }
    }
    if WaysReadable(f, limit) {
      forall hops {:trigger Way(f, hops)} | Way(f, hops) && |hops| <= limit
        ensures IsFound(f, nodes, Resolve(f, hops).value.node)
      {
        ReadableWayIsRoute(f, hops, limit);
        assert RouteTo(f, hops, Resolve(f, hops).value.node, limit);
      }
    }
  }

  /** With nothing left to follow everything is found. */
  lemma AllFound(f: Image, nodes: seq<Node>, nodeMap: Registry, level: nat)
    requires f.Valid() && nodes != [] && nodes[0].drPath == START_PATH && Indexed(nodes, nodeMap)
    requires forall i :: 0 <= i < |nodes| ==> PathOk(Base(nodes), nodes[i].drPath)
    requires TrueNodes(f, nodes) && TrueLinks(f, nodes) && OnTrack(f, nodes, [], 0x100, level)
    ensures AllFoundIn(f, nodes)
  {
    hide Complete, Shortest, FullyLinked, FoundExactly, ExactNodes, WaysFound, WaysReadable, TrueNodes, TrueLinks;
    hide Closed, Routes, Wired, Indexed;
    AllRoutesKnown(f, nodes);
    AllPathsShortest(f, nodes, nodeMap);
    NothingUnlinked(f, nodes);
    ExactlyFound(f, nodes);
    ReadableFound(f, nodes);
  }

  lemma AllRoutesKnown(f: Image, nodes: seq<Node>)
    requires f.Valid() && nodes != [] && nodes[0].drPath == START_PATH
    requires TrueNodes(f, nodes) && Closed(f, nodes, [], 0x100)
    ensures Complete(f, nodes)
  {
    hide Route, KnownWithin, TrueNodes, Closed;
    forall hops {:trigger Route(f, hops)} | Route(f, hops) && |hops| <= MaxHops(Base(nodes))
      ensures KnownWithin(f, nodes, Target(f, hops), |hops|)
    {
      RouteEndsKnown(f, nodes, 0x100, hops);
    }
  }

  lemma AllPathsShortest(f: Image, nodes: seq<Node>, nodeMap: Registry)
    requires f.Valid() && nodes != [] && nodes[0].drPath == START_PATH && Indexed(nodes, nodeMap)
    requires forall i :: 0 <= i < |nodes| ==> PathOk(Base(nodes), nodes[i].drPath)
    requires TrueNodes(f, nodes) && Closed(f, nodes, [], 0x100) && Routes(f, nodes, [])
    ensures Shortest(f, nodes)
  {
    hide Route, Closed, Indexed, PathHops, PathOk, TruePort, TrueLid, GoodTable;
    forall i | 0 <= i < |nodes| ensures Target(f, PathHops(nodes[i].drPath)) == Home(f, nodes[i]) {
      assert TrueNode(f, nodes[i]);
    }
    forall i, hops | 0 <= i < |nodes| && Route(f, hops) && Target(f, hops) == Home(f, nodes[i])
      ensures Len(nodes[i]) <= |hops|
    {
      NoShorterRoute(f, nodes, nodeMap, i, hops);
    }
  }

  lemma NoShorterRoute(f: Image, nodes: seq<Node>, nodeMap: Registry, i: nat, hops: seq<byte>)
    requires f.Valid() && nodes != [] && nodes[0].drPath == START_PATH && Indexed(nodes, nodeMap)
    requires TrueNodes(f, nodes) && Closed(f, nodes, [], 0x100) && i < |nodes| && PathOk(Base(nodes), nodes[i].drPath)
    requires Route(f, hops) && Target(f, hops) == Home(f, nodes[i])
    ensures Len(nodes[i]) <= |hops|
  {
    hide Closed, Route, PathHops, TrueNode;
    if |hops| < Len(nodes[i]) {
      RouteEndsKnown(f, nodes, 0x100, hops);
      var j :| 0 <= j < |nodes| && Home(f, nodes[j]) == Target(f, hops) && Len(nodes[j]) <= |hops|;
      SameNode(f, nodes, nodeMap, i, j);
    }
  }

  lemma NothingUnlinked(f: Image, nodes: seq<Node>)
    requires f.Valid() && nodes != [] && Wired(f, nodes, []) && TrueLinks(f, nodes) && ExactNodes(f, nodes)
    ensures FullyLinked(f, nodes)
  {
    hide Lands, Eligible, Home, PathHops, TrueLinks, ExactNodes;
    forall i, x: byte |
      0 < i < |nodes| && nodes[i].nodeType == Switch && Len(nodes[i]) < MaxHops(Base(nodes))
      && Eligible(f, Home(f, nodes[i]), x)
      ensures LinkedAt(nodes, i, x) <==> Lands(f, End(Home(f, nodes[i]), x))
    {
      assert Due(f, nodes, 0, i, x);
      if LinkedAt(nodes, i, x) { LinkedLands(f, nodes, i, x); }
      if Lands(f, End(Home(f, nodes[i]), x)) { assert LinkServed(f, nodes, [], i, x); }
    }
  }

  lemma LinkedLands(f: Image, nodes: seq<Node>, i: nat, x: byte)
    requires f.Valid() && TrueLinks(f, nodes) && ExactNodes(f, nodes) && i < |nodes| && LinkedAt(nodes, i, x)
    ensures Lands(f, End(Home(f, nodes[i]), x))
  {
    hide Peer, Home, TrueNode, Tabled;
    var r := PortRef(i, FindNumber(nodes[i].ports, x).value);
    assert TrueLink(f, nodes, r);
    var o := PortAt(nodes, r).remote.value;
    assert ExactNode(f, nodes[o.node]);
    assert FindNumber(nodes[o.node].ports, PortAt(nodes, o).number).Some?;
  }

  /** With nothing left to follow, every route within the path limit ends at a known node, known by no longer a path. */
  lemma {:induction false} RouteEndsKnown(f: Image, nodes: seq<Node>, seen: nat, hops: seq<byte>)
    requires f.Valid() && nodes != [] && TrueNodes(f, nodes) && Closed(f, nodes, [], seen) && seen > 255
    requires nodes[0].drPath == START_PATH
    requires Route(f, hops) && |hops| <= MaxHops(Base(nodes))
    ensures KnownWithin(f, nodes, Target(f, hops), |hops|)
  {
    if hops == [] {
      StartPathOk(Base(nodes));
      assert Home(f, nodes[0]) == Target(f, hops) && Len(nodes[0]) == 0;
    } else {
      var init, x := hops[..|hops| - 1], hops[|hops| - 1];
      RouteEndsKnown(f, nodes, seen, init);
      var i :| 0 <= i < |nodes| && Home(f, nodes[i]) == Target(f, init) && Len(nodes[i]) <= |init|;
      StartPathOk(Base(nodes));
      OneMoreHop(f, nodes, seen, if Home(f, nodes[i]) == Home(f, nodes[0]) then 0 else i, x);
    }
  }

  lemma OneMoreHop(f: Image, nodes: seq<Node>, seen: nat, i: nat, x: byte)
    requires f.Valid() && nodes != [] && TrueNodes(f, nodes) && Closed(f, nodes, [], seen) && seen > 255
    requires f.root.Some? && i < |nodes| && (i != 0 ==> Home(f, nodes[i]) != f.root.value.node)
    requires RouteStep(f, Home(f, nodes[i]), x) && Len(nodes[i]) < MaxHops(Base(nodes))
    ensures KnownWithin(f, nodes, Peer(f, End(Home(f, nodes[i]), x)).value.node, Len(nodes[i]) + 1)
  {
    assert TrueNode(f, nodes[i]);
    assert Due(f, nodes, seen, i, x);
    assert NodeServed(f, nodes, [], i, x);
  }
}
