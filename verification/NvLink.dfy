/** What the NVLink traversal of src/discovery/nvlink.rs keeps of the registry. */
module NvLink {
  import opened Prelude
  import opened MadLayout
  import opened Simulator
  import opened Topology
  import opened Search
  import opened ShortestPaths
  import opened Arrival

  const NVLINK_RING_PORTS: seq<byte> := [73, 74]

  predicate IsRingSeed(port: Port) { port.number in NVLINK_RING_PORTS && port.Live() }

  /** The live ring ports of a node in the order they come off the stack: the last pushed first. */
  function RingSeeds(ports: seq<Port>, node: nat, path: Path): (items: seq<Item>)
    ensures |items| <= |ports|
    ensures forall k :: 0 <= k < |items| ==>
      && items[k].path == path && items[k].port.node == node && items[k].port.port < |ports|
      && IsRingSeed(ports[items[k].port.port])
  {
    if ports == [] then []
    else
      var n := |ports| - 1;
      (if IsRingSeed(ports[n]) then [Item(PortRef(node, n), path)] else []) + RingSeeds(ports[..n], node, path)
  }

  /** Few entries, all with the same path. */
  predicate AllAlong(items: seq<Item>, path: Path) {
    |items| <= 255 && forall k :: 0 <= k < |items| ==> items[k].path == path
  }

  /** The list is the rest with such entries before it. */
  ghost predicate Extends(queue: seq<Item>, rest: seq<Item>, path: Path) {
    exists more :: queue == more + rest && AllAlong(more, path)
  }

  /** The list ends with the rest. */
  ghost predicate KeepsBehind(queue: seq<Item>, rest: seq<Item>) {
    exists more :: queue == more + rest
  }

  lemma ExtendsKeeps(queue: seq<Item>, rest: seq<Item>, path: Path)
    requires Extends(queue, rest, path)
    ensures KeepsBehind(queue, rest)
  {
    hide AllAlong;
  }

  lemma ExtendsBy(more: seq<Item>, rest: seq<Item>, path: Path)
    requires |more| <= 255 && forall k :: 0 <= k < |more| ==> more[k].path == path
    ensures Extends(more + rest, rest, path) && (more == [] ==> more + rest == rest)
  {
    assert AllAlong(more, path);
  }

  /** Links do not matter to what is pushed. */
  lemma {:induction false} RingSeedsStay(m: seq<Port>, n: seq<Port>, node: nat, path: Path)
    requires |m| == |n| && forall c :: 0 <= c < |m| ==> n[c] == m[c].(remote := n[c].remote)
    ensures RingSeeds(n, node, path) == RingSeeds(m, node, path)
  {
    if m != [] { RingSeedsStay(m[..|m| - 1], n[..|n| - 1], node, path); }
  }

  lemma {:induction false} RingSeedsFew(ports: seq<Port>, node: nat, path: Path)
    requires Ascending(ports)
    ensures |RingSeeds(ports, node, path)| <= if ports == [] then 0 else ports[|ports| - 1].number
  {
    if ports != [] { RingSeedsFew(ports[..|ports| - 1], node, path); }
  }

  /** A port `discover_connected_nodes_nvlink` probes: live, unlinked, neither port 0 nor a ring port. */
  predicate IsProbed(port: Port) {
    port.number != 0 && port.number !in NVLINK_RING_PORTS && port.remote.None? && port.Live()
  }

  /** The path goes through the cable of the port. */
  ghost predicate LeadsThrough(f: Image, nodes: seq<Node>, local: PortRef, path: Path)
    requires f.Valid()
  {
    Has(nodes, local) && Resolve(f, PathHops(path)) == Peer(f, TrueEnd(f, nodes, local))
  }

  /** The path ends at node `i`. */
  ghost predicate LeadsTo(f: Image, nodes: seq<Node>, path: Path, i: nat)
    requires f.Valid()
  {
    i < |nodes| && Resolve(f, PathHops(path)).Some? && Resolve(f, PathHops(path)).value.node == Home(f, nodes[i])
  }

  /** ... entering it by its port `number`. */
  ghost predicate Enters(f: Image, nodes: seq<Node>, path: Path, i: nat, number: byte)
    requires f.Valid()
  {
    i < |nodes| && Resolve(f, PathHops(path)) == Some(End(Home(f, nodes[i]), number))
  }

  lemma GrownLeadsTo(f: Image, nodes: seq<Node>, nodes': seq<Node>, path: Path, i: nat)
    requires f.Valid() && Grown(nodes, nodes') && LeadsTo(f, nodes, path, i)
    ensures LeadsTo(f, nodes', path, i)
  {
    hide Resolve, PathHops;
    assert SameTable(nodes[i], nodes'[i]);
    SameHome(f, nodes[i], nodes'[i]);
  }

  lemma SameHome(f: Image, m: Node, n: Node)
    requires f.Valid() && SameTable(m, n)
    ensures Home(f, n) == Home(f, m)
  {
  }

  lemma GrownEnters(f: Image, nodes: seq<Node>, nodes': seq<Node>, path: Path, i: nat, number: byte)
    requires f.Valid() && Grown(nodes, nodes') && Enters(f, nodes, path, i, number)
    ensures Enters(f, nodes', path, i, number)
  {
    hide Resolve, PathHops, Home;
    assert SameTable(nodes[i], nodes'[i]);
    SameHome(f, nodes[i], nodes'[i]);
  }

  lemma GrownThrough(f: Image, nodes: seq<Node>, nodes': seq<Node>, local: PortRef, path: Path)
    requires f.Valid() && Grown(nodes, nodes') && LeadsThrough(f, nodes, local, path)
    ensures LeadsThrough(f, nodes', local, path)
  {
    hide Resolve, PathHops, Home, Peer, Grown;
    GrownEnd(f, nodes, nodes', local);
  }

  /** One more hop out of a port of node `i`, which `path` leads to. */
  lemma HopThrough(f: Image, nodes: seq<Node>, path: Path, local: PortRef, longer: Path)
    requires f.Valid() && Has(nodes, local) && LeadsTo(f, nodes, path, local.node)
    requires PathHops(longer) == PathHops(path) + [PortAt(nodes, local).number]
    ensures LeadsThrough(f, nodes, local, longer)
  {
    hide Peer, Home, RunFrom;
    assert PathHops(longer)[..|PathHops(longer)| - 1] == PathHops(path);
  }

  /** Ring entries of a switch its path leads to are good, and true. */
  lemma RingGood(nodes: seq<Node>, i: nat, path: Path, items: seq<Item>)
    requires nodes != [] && i < |nodes| && nodes[i].nodeType == Switch && items == RingSeeds(nodes[i].ports, i, path)
    requires PathOk(Base(nodes), path) && |PathHops(path)| >= 1
    ensures GoodQueue(nodes, items)
  {
    hide PathOk, PathHops;
  }

  lemma RingTrue(f: Image, nodes: seq<Node>, i: nat, path: Path, items: seq<Item>)
    requires f.Valid() && i < |nodes| && items == RingSeeds(nodes[i].ports, i, path) && LeadsTo(f, nodes, path, i)
    ensures TrueItems(f, nodes, items)
  {
    hide Resolve, PathHops, Home;
  }

  lemma GrownRing(nodes: seq<Node>, nodes': seq<Node>, i: nat, path: Path)
    requires Grown(nodes, nodes') && i < |nodes|
    ensures RingSeeds(nodes'[i].ports, i, path) == RingSeeds(nodes[i].ports, i, path)
  {
    assert SameTable(nodes[i], nodes'[i]);
    RingSeedsStay(nodes[i].ports, nodes'[i].ports, i, path);
  }

  lemma EntersLeadsTo(f: Image, nodes: seq<Node>, path: Path, i: nat, number: byte)
    requires f.Valid() && Enters(f, nodes, path, i, number)
    ensures LeadsTo(f, nodes, path, i) && Resolve(f, PathHops(path)).Some?
  {
    hide Resolve, PathHops, Home;
  }

  lemma MetLeadsTo(f: Image, nodes: seq<Node>, path: Path, i: nat)
    requires f.Valid() && i < |nodes| && Met(f, path, nodes[i])
    requires Home(f, nodes[i]) == Resolve(f, PathHops(path)).value.node
    ensures LeadsTo(f, nodes, path, i)
  {
    hide Resolve, PathHops, Home;
  }

  // ---- Links of probed ports, when every query is answered ----

  /** The port a node was entered by is in its table exactly when the cable followed lands there. */
  lemma LandsFound(f: Image, nodes: seq<Node>, local: PortRef, path: Path, i: nat, number: byte)
    requires f.Valid() && ExactNodes(f, nodes) && LeadsThrough(f, nodes, local, path)
    requires Enters(f, nodes, path, i, number)
    ensures FindNumber(nodes[i].ports, number).Some? <==> Lands(f, TrueEnd(f, nodes, local))
    ensures FindNumber(nodes[i].ports, number).None? <==> Strays(f, TrueEnd(f, nodes, local))
  {
    hide Resolve, PathHops, Home, Peer, TrueNode, Tabled, FindNumber, Readable;
    assert ExactNode(f, nodes[i]);
  }

  /** The cable out of `d` ends at a port its node, which a client can record, does not tell it about. */
  ghost predicate Strays(f: Image, d: End)
    requires f.Valid()
  {
    Leads(f, d) && !Lands(f, d)
  }

  /** The cable out of some known port strays. */
  ghost predicate SomeStrays(f: Image, nodes: seq<Node>)
    requires f.Valid()
  {
    exists r: PortRef :: Has(nodes, r) && Strays(f, TrueEnd(f, nodes, r))
  }

  /** The entry's port is not linked, its path has room for a hop, and its cable strays. */
  ghost predicate Stuck(f: Image, nodes: seq<Node>, it: Item)
    requires f.Valid()
  {
    && Has(nodes, it.port) && PortAt(nodes, it.port).remote.None? && GetHopCount(it.path) < 63
    && Strays(f, TrueEnd(f, nodes, it.port))
  }

  /** The entry's port is linked now, if its cable lands and its path has room. */
  ghost predicate EntryLinked(f: Image, before: seq<Node>, nodes: seq<Node>, it: Item)
    requires f.Valid()
  {
    Has(before, it.port) && Lands(f, TrueEnd(f, before, it.port)) && GetHopCount(it.path) < 63 ==>
      IsLinked(nodes, it.port)
  }

  lemma StillStrays(f: Image, nodes: seq<Node>, nodes': seq<Node>, it: Item)
    requires f.Valid() && Grown(nodes, nodes') && Stuck(f, nodes, it)
    ensures SomeStrays(f, nodes')
  {
    hide Grown, Strays, TrueEnd;
    GrownEnd(f, nodes, nodes', it.port);
  }

  /** Every port probed whose cable ends at a port its node tells the client about is linked. */
  ghost predicate ProbesLinked(f: Image, before: seq<Node>, nodes: seq<Node>, i: nat)
    requires f.Valid() && i < |before|
  {
    forall a: nat | a < |before[i].ports| && IsProbed(before[i].ports[a]) ::
      Lands(f, TrueEnd(f, before, PortRef(i, a))) ==> IsLinked(nodes, PortRef(i, a))
  }

  predicate IsLinked(nodes: seq<Node>, r: PortRef) {
    Has(nodes, r) && PortAt(nodes, r).remote.Some?
  }

  lemma LinkedStays(nodes: seq<Node>, nodes': seq<Node>, r: PortRef)
    requires LinksKept(nodes, nodes') && IsLinked(nodes, r)
    ensures IsLinked(nodes', r)
  {
  }

  lemma AllStayLinked(nodes: seq<Node>, nodes': seq<Node>, i: nat, ports: seq<nat>)
    requires LinksKept(nodes, nodes')
    ensures forall c :: 0 <= c < |ports| && IsLinked(nodes, PortRef(i, ports[c])) ==>
      IsLinked(nodes', PortRef(i, ports[c]))
  {
    hide LinksKept, IsLinked;
    forall c | 0 <= c < |ports| && IsLinked(nodes, PortRef(i, ports[c]))
      ensures IsLinked(nodes', PortRef(i, ports[c]))
    {
      LinkedStays(nodes, nodes', PortRef(i, ports[c]));
    }
  }
}
