/**
 What the traversal of src/discovery/nvlink.rs keeps whoever answers, and what follows for the links around
 the switches it expands when every query is answered.
 */
module RingExplored {
  import opened Prelude
  import opened MadLayout
  import opened Simulator
  import opened Topology
  import opened Search
  import opened ShortestPaths
  import opened PortTable
  import opened Arrival
  import opened NvLink
  import opened Explored

  // ---- Switches expanded ----

  /** Ports 73 and 74 of a switch lead around the ring. */
  predicate IsRing(number: byte) { number == 73 || number == 74 }

  /** The node was met over a ring port of a switch. */
  predicate OnRing(n: Node) {
    var hops := PathHops(n.drPath);
    |hops| >= 2 && IsRing(hops[|hops| - 1])
  }

  /**
   Under this path the switch has been expanded: its live ring ports are still to be followed, or done,
   and its other live ports settled.
   */
  ghost predicate Expanded(said: seq<Exchange>, nodes: seq<Node>, queue: seq<Item>, i: nat, path: Path) {
    forall r: PortRef :: IsDue(nodes, r) && r.node == i ==> ExpandedAt(said, nodes, queue, r, path)
  }

  ghost predicate ExpandedAt(said: seq<Exchange>, nodes: seq<Node>, queue: seq<Item>, r: PortRef, path: Path)
    requires Has(nodes, r)
  {
    if IsRing(PortAt(nodes, r).number) then Item(r, path) in queue || PortDone(said, nodes, r, path)
    else PortSettled(said, nodes, r, path)
  }

  /** Every switch met over a ring port has been expanded, under its own path. */
  ghost predicate RingExpanded(said: seq<Exchange>, nodes: seq<Node>, queue: seq<Item>, from: nat) {
    forall i :: from <= i < |nodes| && OnRing(nodes[i]) ==> Expanded(said, nodes, queue, i, nodes[i].drPath)
  }

  /** The node behind a port of the agent's node is known, and expanded if a switch; or it could not be recorded. */
  ghost predicate HopServed(said: seq<Exchange>, nodes: seq<Node>, queue: seq<Item>, path: Path) {
    || Failed(said, path)
    || exists i :: 0 <= i < |nodes| && GuidTold(said, path, nodes[i].guid) && Expanded(said, nodes, queue, i, path)
  }

  /** That holds of the first ports of the agent's node but port 0. */
  ghost predicate HopsServed(said: seq<Exchange>, nodes: seq<Node>, queue: seq<Item>, seen: nat) {
    nodes != [] &&
    forall k :: 0 <= k < |nodes[0].ports| && k < seen && nodes[0].ports[k].number != 0 ==>
      HopServed(said, nodes, queue, HopPath(nodes, nodes[0].ports[k].number))
  }

  /** Every entry is still there, or its port is done. */
  ghost predicate Passed(said: seq<Exchange>, nodes: seq<Node>, queue: seq<Item>, queue': seq<Item>) {
    forall it :: it in queue ==> it in queue' || PortDone(said, nodes, it.port, it.path)
  }

  lemma ExpandedNext(said: seq<Exchange>, all: seq<Exchange>, nodes: seq<Node>, nodes': seq<Node>, queue: seq<Item>,
                     queue': seq<Item>, i: nat, path: Path)
    requires Includes(all, said) && Grown(nodes, nodes') && i < |nodes| && Expanded(said, nodes, queue, i, path)
    requires Passed(all, nodes', queue, queue')
    ensures Expanded(all, nodes', queue', i, path)
  {
    hide PortDone, PortSettled, Includes, Grown;
    forall r: PortRef | IsDue(nodes', r) && r.node == i ensures ExpandedAt(all, nodes', queue', r, path) {
      GrownDue(nodes, nodes', r);
      GrownHas(nodes, nodes', r);
      assert ExpandedAt(said, nodes, queue, r, path);
      if PortDone(said, nodes, r, path) { DoneStill(said, all, nodes, nodes', r, path); }
      if PortSettled(said, nodes, r, path) { SettledStill(said, all, nodes, nodes', r, path); }
    }
  }

  lemma HopServedNext(said: seq<Exchange>, all: seq<Exchange>, nodes: seq<Node>, nodes': seq<Node>, queue: seq<Item>,
                      queue': seq<Item>, path: Path)
    requires Includes(all, said) && Grown(nodes, nodes') && HopServed(said, nodes, queue, path)
    requires Passed(all, nodes', queue, queue')
    ensures HopServed(all, nodes', queue', path)
  {
    hide Failed, GuidTold, Expanded, Includes, Passed;
    if Failed(said, path) {
      FailedStill(said, all, path);
    } else {
      var i :| 0 <= i < |nodes| && GuidTold(said, path, nodes[i].guid) && Expanded(said, nodes, queue, i, path);
      assert SameTable(nodes[i], nodes'[i]);
      GuidStill(said, all, path, nodes[i].guid);
      ExpandedNext(said, all, nodes, nodes', queue, queue', i, path);
    }
  }

  lemma HopsServedNext(said: seq<Exchange>, all: seq<Exchange>, nodes: seq<Node>, nodes': seq<Node>, queue: seq<Item>,
                       queue': seq<Item>, seen: nat)
    requires said <= all && Grown(nodes, nodes') && HopsServed(said, nodes, queue, seen)
    requires Passed(all, nodes', queue, queue')
    ensures HopsServed(all, nodes', queue', seen)
  {
    hide HopServed, Includes, Passed;
    PrefixIncluded(said, all);
    GrownRoot(nodes, nodes');
    assert SameTable(nodes[0], nodes'[0]);
    forall k | 0 <= k < |nodes'[0].ports| && k < seen && nodes'[0].ports[k].number != 0
      ensures HopServed(all, nodes', queue', HopPath(nodes', nodes'[0].ports[k].number))
    {
      HopServedNext(said, all, nodes, nodes', queue, queue', HopPath(nodes, nodes[0].ports[k].number));
    }
  }

  /** What was expanded stays so, and what is new has been. */
  lemma RingExpandedNext(said: seq<Exchange>, all: seq<Exchange>, nodes: seq<Node>, nodes': seq<Node>, queue: seq<Item>,
                         queue': seq<Item>)
    requires said <= all && Grown(nodes, nodes') && RingExpanded(said, nodes, queue, 0)
    requires Passed(all, nodes', queue, queue') && RingExpanded(all, nodes', queue', |nodes|)
    ensures RingExpanded(all, nodes', queue', 0)
  {
    hide OnRing, Expanded, Includes, Passed;
    PrefixIncluded(said, all);
    forall i | 0 <= i < |nodes'| && OnRing(nodes'[i]) ensures Expanded(all, nodes', queue', i, nodes'[i].drPath) {
      if i < |nodes| {
        assert SameTable(nodes[i], nodes'[i]);
        SamePathOnRing(nodes[i], nodes'[i]);
        ExpandedNext(said, all, nodes, nodes', queue, queue', i, nodes[i].drPath);
      }
    }
  }

  lemma SamePathOnRing(m: Node, n: Node)
    requires m.drPath == n.drPath
    ensures OnRing(m) <==> OnRing(n)
  {
  }

  /** The nodes from `from` on were not met over a ring port. */
  predicate OffRing(nodes: seq<Node>, from: nat) {
    forall i :: from <= i < |nodes| ==> !OnRing(nodes[i])
  }

  lemma OffRingExpanded(said: seq<Exchange>, nodes: seq<Node>, queue: seq<Item>, from: nat)
    requires OffRing(nodes, from)
    ensures RingExpanded(said, nodes, queue, from)
  {
    hide OnRing, Expanded;
  }

  /** Nodes met at the end of a path were not met over a ring port if that is not its last hop, or if it has but one. */
  lemma NewOffRing(nodes: seq<Node>, from: nat, path: Path)
    requires forall i :: from <= i < |nodes| ==> nodes[i].drPath == path
    requires var hops := PathHops(path); |hops| < 2 || !IsRing(hops[|hops| - 1])
    ensures OffRing(nodes, from)
  {
    hide PathHops;
  }

  lemma RootOffRing(nodes: seq<Node>)
    requires |nodes| == 1 && nodes[0].drPath == START_PATH
    ensures OffRing(nodes, 0)
  {
    hide PathHops;
    StartPathOk(1);
  }

  lemma NoneServed(said: seq<Exchange>, nodes: seq<Node>)
    requires nodes != []
    ensures HopsServed(said, nodes, [], 0)
  {
  }

  /** Port 0 of the agent's node is passed over. */
  lemma HopZero(said: seq<Exchange>, nodes: seq<Node>, queue: seq<Item>, k: nat)
    requires HopsServed(said, nodes, queue, k) && k < |nodes[0].ports| && nodes[0].ports[k].number == 0
    ensures HopsServed(said, nodes, queue, k + 1)
  {
    hide HopServed;
  }

  lemma HopsServedMore(said: seq<Exchange>, all: seq<Exchange>, nodes: seq<Node>, nodes': seq<Node>, queue: seq<Item>,
                       queue': seq<Item>, k: nat)
    requires said <= all && Grown(nodes, nodes') && HopsServed(said, nodes, queue, k) && k < |nodes[0].ports|
    requires KeepsBehind(queue', queue)
    requires HopServed(all, nodes', queue', HopPath(nodes, nodes[0].ports[k].number))
    ensures HopsServed(all, nodes', queue', k + 1)
  {
    hide HopServed, Passed;
    var more :| queue' == more + queue;
    NothingPassed(all, nodes', more, queue);
    HopsServedNext(said, all, nodes, nodes', queue, queue', k);
    GrownRoot(nodes, nodes');
    assert SameTable(nodes[0], nodes'[0]);
  }

  lemma AllOffRing(nodes: seq<Node>)
    ensures OffRing(nodes, |nodes|)
  {
  }

  lemma MetOffRing(from: nat, nodes: seq<Node>, i: nat, path: Path)
    requires MetAt(from, nodes, i, path)
    requires var hops := PathHops(path); |hops| < 2 || !IsRing(hops[|hops| - 1])
    ensures OffRing(nodes, from)
  {
    hide PathHops;
    NewOffRing(nodes, from, path);
  }

  lemma LinkedOffRing(nodes: seq<Node>, nodes': seq<Node>, from: nat)
    requires OffRing(nodes, from) && Grown(nodes, nodes') && |nodes'| == |nodes|
    ensures OffRing(nodes', from)
  {
    GrownOffRing(nodes, nodes', from);
  }

  lemma GrownOffRing(nodes: seq<Node>, nodes': seq<Node>, from: nat)
    requires OffRing(nodes, from) && Grown(nodes, nodes') && OffRing(nodes', |nodes|)
    ensures OffRing(nodes', from)
  {
    hide OnRing;
    forall i | from <= i < |nodes'| ensures !OnRing(nodes'[i]) {
      if i < |nodes| {
        assert SameTable(nodes[i], nodes'[i]);
        SamePathOnRing(nodes[i], nodes'[i]);
      }
    }
  }

  // ---- The ports of one switch ----

  /** The live ports of the node but port 0 and the ring ports are settled under this path. */
  ghost predicate OthersSettled(said: seq<Exchange>, nodes: seq<Node>, i: nat, path: Path) {
    forall r: PortRef :: IsDue(nodes, r) && r.node == i && !IsRing(PortAt(nodes, r).number) ==>
      PortSettled(said, nodes, r, path)
  }

  /** These ports of the node are settled. */
  ghost predicate TheseSettled(said: seq<Exchange>, nodes: seq<Node>, i: nat, ports: seq<nat>, path: Path) {
    forall c :: 0 <= c < |ports| ==> PortSettled(said, nodes, PortRef(i, ports[c]), path)
  }

  lemma NoneSettled(said: seq<Exchange>, nodes: seq<Node>, i: nat, path: Path)
    ensures TheseSettled(said, nodes, i, [], path)
  {
  }

  lemma TheseNext(said: seq<Exchange>, all: seq<Exchange>, nodes: seq<Node>, nodes': seq<Node>, i: nat, ports: seq<nat>,
                  a: nat, path: Path)
    requires said <= all && Grown(nodes, nodes') && TheseSettled(said, nodes, i, ports, path)
    requires PortSettled(all, nodes', PortRef(i, a), path)
    ensures TheseSettled(all, nodes', i, ports + [a], path)
  {
    hide PortSettled, Includes, Grown;
    PrefixIncluded(said, all);
    forall c | 0 <= c < |ports| ensures PortSettled(all, nodes', PortRef(i, ports[c]), path) {
      SettledStill(said, all, nodes, nodes', PortRef(i, ports[c]), path);
    }
  }

  /** The ports to probe are settled, and the other ports were linked before. */
  lemma ProbedSettled(said: seq<Exchange>, all: seq<Exchange>, nodes: seq<Node>, nodes': seq<Node>, i: nat,
                      probes: seq<nat>, path: Path)
    requires said <= all && Grown(nodes, nodes') && i < |nodes|
    requires forall a: nat :: a < |nodes[i].ports| && IsProbed(nodes[i].ports[a]) ==> a in probes
    requires TheseSettled(all, nodes', i, probes, path)
    ensures OthersSettled(all, nodes', i, path)
  {
    hide PortSettled, Includes, Grown;
    PrefixIncluded(said, all);
    forall r: PortRef | IsDue(nodes', r) && r.node == i && !IsRing(PortAt(nodes', r).number)
      ensures PortSettled(all, nodes', r, path)
    {
      GrownDue(nodes, nodes', r);
      GrownHas(nodes, nodes', r);
      if r.port in probes {
        var c :| 0 <= c < |probes| && probes[c] == r.port;
        assert PortSettled(all, nodes', PortRef(i, probes[c]), path);
      } else {
        LinkedSettled(said, nodes, r, path);
        SettledStill(said, all, nodes, nodes', r, path);
      }
    }
  }

  lemma {:induction false} RingSeedsHasAll(ports: seq<Port>, node: nat, path: Path, a: nat)
    requires a < |ports| && IsRingSeed(ports[a])
    ensures Item(PortRef(node, a), path) in RingSeeds(ports, node, path)
  {
    if a < |ports| - 1 { RingSeedsHasAll(ports[..|ports| - 1], node, path, a); }
  }

  /** With its ring ports pushed and the others settled, a node has been expanded. */
  lemma PushedExpanded(said: seq<Exchange>, nodes: seq<Node>, i: nat, path: Path, stack: seq<Item>)
    requires i < |nodes| && OthersSettled(said, nodes, i, path)
    ensures Expanded(said, nodes, RingSeeds(nodes[i].ports, i, path) + stack, i, path)
  {
    hide PortSettled, PortDone, RingSeeds;
    forall r: PortRef | IsDue(nodes, r) && r.node == i
      ensures ExpandedAt(said, nodes, RingSeeds(nodes[i].ports, i, path) + stack, r, path)
    {
      if IsRing(PortAt(nodes, r).number) { RingSeedsHasAll(nodes[i].ports, i, path, r.port); }
    }
  }

  /** Only switches have ports to expand. */
  lemma NoSwitchExpanded(said: seq<Exchange>, nodes: seq<Node>, queue: seq<Item>, i: nat, path: Path)
    requires i < |nodes| && nodes[i].nodeType != Switch
    ensures Expanded(said, nodes, queue, i, path)
  {
  }

  /** What meeting the node at the end of a path adds has been expanded if it was met over a ring port. */
  lemma MetExpanded(said: seq<Exchange>, nodes: seq<Node>, met: nat, from: nat, queue: seq<Item>, i: nat, path: Path)
    requires from <= met <= |nodes| && OffRing(nodes, met) && (from < met ==> met == from + 1 && i == from)
    requires from < met ==> nodes[i].drPath == path && Expanded(said, nodes, queue, i, path)
    ensures RingExpanded(said, nodes, queue, from)
  {
    hide OnRing, Expanded;
  }

  /** Meeting a node and expanding it if it is new, as one step. */
  lemma MetTurn(heard: seq<Exchange>, asked: seq<Exchange>, all: seq<Exchange>, base: nat, from: nat, met: seq<Node>,
                nodes: seq<Node>, queue: seq<Item>, i: nat, number: byte, path: Path)
    requires heard <= asked <= all && Grown(met, nodes) && from <= |met| && i < |met| && MetAt(from, met, i, path)
    requires Counted(true, base, asked, |heard|) && Counted(true, base, all, |asked|)
    requires GuidTold(asked, path, met[i].guid) && EnteredBy(asked, path, number)
    requires OffRing(nodes, |met|) && (from < |met| ==> Expanded(all, nodes, queue, i, path))
    ensures Counted(true, base, all, |heard|) && i < |nodes| && GuidTold(all, path, nodes[i].guid)
    ensures EnteredBy(all, path, number) && RingExpanded(all, nodes, queue, from)
  {
    hide Counted, GuidTold, EnteredBy, OffRing, Expanded, MetAt, RingExpanded, Grown;
    GrownCount(met, nodes);
    CountedJoin(true, base, asked, all, |heard|);
    GuidNow(asked, all, met, nodes, path, i);
    EnteredStill(asked, all, path, number);
    MetStays(from, met, nodes, i, path);
    MetExpanded(all, nodes, |met|, from, queue, i, path);
  }

  /** Linking a port probed with the port its neighbour was entered by, as one step. */
  lemma ProbeTurn(said: seq<Exchange>, from: nat, nodes: seq<Node>, nodes': seq<Node>, r: PortRef, i: nat, number: byte,
                  path: Path)
    requires nodes != [] && Has(nodes, r) && i < |nodes| && GetHopCount(path) < 63 && Grown(nodes, nodes')
    requires nodes' == LinkedTo(nodes, r, i, number)
    requires var longer := Longer(path, PortAt(nodes, r).number);
             && EnteredBy(said, longer, number) && GuidTold(said, longer, nodes[i].guid)
             && MetAt(from, nodes, i, longer)
             && var hops := PathHops(longer); |hops| < 2 || !IsRing(hops[|hops| - 1])
    ensures PortSettled(said, nodes', r, path) && OffRing(nodes', from)
    ensures AllHeard(said, nodes) ==> AllHeard(said, nodes')
    ensures nodes' != [] && Base(nodes') == Base(nodes)
  {
    hide GetHopCount, EnteredBy, GuidTold, PathHops, PortSettled, OffRing, AllHeard, LinkedTo, Longer, Grown, MetAt;
    JoinEntered(said, nodes, r, i, number, path);
    MetOffRing(from, nodes, i, Longer(path, PortAt(nodes, r).number));
    LinkingHeard(said, nodes, r, i, number);
    LinkedOffRing(nodes, nodes', from);
    GrownRoot(nodes, nodes');
  }

  /** One more port of the node probed, as one step. */
  lemma ProbesTurn(start: nat, said: seq<Exchange>, all: seq<Exchange>, from: nat, nodes: seq<Node>, nodes': seq<Node>,
                   i: nat, ports: seq<nat>, a: nat, path: Path)
    requires start <= |said| && said <= all && nodes != [] && Grown(nodes, nodes')
    requires TheseSettled(said, nodes, i, ports, path) && PortSettled(all, nodes', PortRef(i, a), path)
    requires OffRing(nodes, from) && OffRing(nodes', |nodes|)
    requires Counted(true, Base(nodes), said, start) && nodes' != [] && Counted(true, Base(nodes'), all, |said|)
    ensures TheseSettled(all, nodes', i, ports + [a], path) && OffRing(nodes', from)
    ensures Base(nodes') == Base(nodes) && Counted(true, Base(nodes'), all, start)
  {
    hide PortSettled, TheseSettled, OffRing, Counted, Grown;
    TheseNext(said, all, nodes, nodes', i, ports, a, path);
    GrownOffRing(nodes, nodes', from);
    GrownRoot(nodes, nodes');
    CountedJoin(true, Base(nodes'), said, all, start);
  }

  /** Linking takes nothing from what was expanded. */
  lemma RingExpandedStill(said: seq<Exchange>, all: seq<Exchange>, nodes: seq<Node>, nodes': seq<Node>,
                          queue: seq<Item>, from: nat)
    requires said <= all && Grown(nodes, nodes') && |nodes'| == |nodes| && RingExpanded(said, nodes, queue, from)
    ensures RingExpanded(all, nodes', queue, from)
  {
    hide OnRing, Expanded, Includes, PortDone;
    PrefixIncluded(said, all);
    forall i | from <= i < |nodes'| && OnRing(nodes'[i]) ensures Expanded(all, nodes', queue, i, nodes'[i].drPath) {
      assert SameTable(nodes[i], nodes'[i]);
      SamePathOnRing(nodes[i], nodes'[i]);
      ExpandedNext(said, all, nodes, nodes', queue, queue, i, nodes[i].drPath);
    }
  }

  /** What is put before the rest of the list loses no entry but the one taken. */
  lemma TurnPassed(said: seq<Exchange>, nodes: seq<Node>, it: Item, more: seq<Item>, rest: seq<Item>)
    requires PortDone(said, nodes, it.port, it.path)
    ensures Passed(said, nodes, [it] + rest, more + rest)
  {
    hide PortDone;
  }

  lemma NothingPassed(said: seq<Exchange>, nodes: seq<Node>, more: seq<Item>, rest: seq<Item>)
    ensures Passed(said, nodes, rest, more + rest)
  {
    hide PortDone;
  }

  // ---- The ring traversal as a whole ----

  /**
   What the traversal keeps whoever answers: every record is made of answers, the switches one hop out and
   those met over a ring port are expanded, and every query carried the hop count of its path.
   */
  ghost predicate RingAccounted(said: seq<Exchange>, nodes: seq<Node>, queue: seq<Item>) {
    && nodes != [] && AllHeard(said, nodes) && HopsServed(said, nodes, queue, |nodes[0].ports|)
    && RingExpanded(said, nodes, queue, 0) && Counted(true, Base(nodes), said, 0)
  }

  lemma RingStart(said: seq<Exchange>, nodes: seq<Node>, queue: seq<Item>)
    requires nodes != [] && AllHeard(said, nodes) && HopsServed(said, nodes, queue, |nodes[0].ports|)
    requires RingExpanded(said, nodes, queue, 0) && Counted(true, Base(nodes), said, 0)
    ensures RingAccounted(said, nodes, queue)
  {
    hide AllHeard, HopsServed, RingExpanded, Counted;
  }

  lemma RingNext(said: seq<Exchange>, all: seq<Exchange>, nodes: seq<Node>, nodes': seq<Node>, it: Item,
                 rest: seq<Item>, queue: seq<Item>)
    requires said <= all && nodes != [] && Grown(nodes, nodes') && RingAccounted(said, nodes, [it] + rest)
    requires AllHeard(said, nodes) ==> AllHeard(all, nodes')
    requires PortDone(all, nodes', it.port, it.path) && RingExpanded(all, nodes', queue, |nodes|)
    requires KeepsBehind(queue, rest)
    requires nodes' != [] && Counted(true, Base(nodes'), all, |said|)
    ensures RingAccounted(all, nodes', queue)
  {
    hide AllHeard, HopsServed, RingExpanded, Counted, PortDone, Grown, Passed;
    var more :| queue == more + rest;
    TurnPassed(all, nodes', it, more, rest);
    GrownRoot(nodes, nodes');
    SameRootPorts(nodes, nodes');
    HopsServedNext(said, all, nodes, nodes', [it] + rest, queue, |nodes[0].ports|);
    RingExpandedNext(said, all, nodes, nodes', [it] + rest, queue);
    CountedJoin(true, Base(nodes'), said, all, 0);
  }

  /** The part of it that a turn which gives up keeps too. */
  ghost predicate RingHeard(said: seq<Exchange>, nodes: seq<Node>) {
    nodes != [] && AllHeard(said, nodes) && Counted(true, Base(nodes), said, 0)
  }

  lemma RingAll(said: seq<Exchange>, nodes: seq<Node>, queue: seq<Item>)
    requires RingAccounted(said, nodes, queue)
    ensures RingHeard(said, nodes)
  {
  }

  lemma RingTurn(said: seq<Exchange>, all: seq<Exchange>, nodes: seq<Node>, nodes': seq<Node>, queue: seq<Item>)
    requires said <= all && Grown(nodes, nodes') && RingAccounted(said, nodes, queue)
    requires AllHeard(said, nodes) ==> AllHeard(all, nodes')
    requires nodes' != [] && Base(nodes') == Base(nodes) && Counted(true, Base(nodes'), all, |said|)
    ensures RingHeard(all, nodes')
  {
    hide AllHeard, HopsServed, RingExpanded, Counted, Grown;
    CountedJoin(true, Base(nodes'), said, all, 0);
  }

  /** Some answer names a port that the table of its node does not have. */
  ghost predicate SomeMisnamed(said: seq<Exchange>, nodes: seq<Node>) {
    exists path :: Misnamed(said, nodes, path)
  }

  lemma SomeMisnamedAt(said: seq<Exchange>, nodes: seq<Node>, it: Item)
    requires MisnamedAt(said, nodes, it.port, it.path)
    ensures SomeMisnamed(said, nodes)
  {
    hide Misnamed;
  }

  // ---- When every query is answered ----

  /** Of the live ports of node `i` those with room in this path are linked whose cables land. */
  ghost predicate LandingLinked(f: Image, nodes: seq<Node>, i: nat, path: Path)
    requires f.Valid()
  {
    forall r: PortRef :: IsDue(nodes, r) && r.node == i && GetHopCount(path) < 63 ==>
      Lands(f, TrueEnd(f, nodes, r)) ==> IsLinked(nodes, r)
  }

  /** The node behind a port of the agent's node is known, and its live ports are linked whose cables land. */
  ghost predicate HopLinked(f: Image, nodes: seq<Node>, path: Path)
    requires f.Valid()
  {
    exists i :: 0 <= i < |nodes| && LeadsTo(f, nodes, path, i) && LandingLinked(f, nodes, i, path)
  }

  /** That holds of each switch first met over a ring port, and behind each port of the agent's node. */
  ghost predicate LinkedAround(f: Image, nodes: seq<Node>)
    requires f.Valid()
  {
    && nodes != []
    && (forall i :: 0 <= i < |nodes| && OnRing(nodes[i]) ==> LandingLinked(f, nodes, i, nodes[i].drPath))
    && (forall k :: 0 <= k < |nodes[0].ports| && nodes[0].ports[k].number != 0 ==>
          var path := HopPath(nodes, nodes[0].ports[k].number);
          Ends(f, PathHops(path)) ==> HopLinked(f, nodes, path))
  }

  lemma ToldIsTrue(f: Image, said: seq<Exchange>, path: Path, ni: NodeInfo)
    requires f.Valid() && Truthful(said, f) && Told(said, path, ni)
    ensures var e := Resolve(f, PathHops(path));
            e.Some? && ni == f.nodes[e.value.node].nodeInfo.(localPort := e.value.num)
  {
    hide Resolve, PathHops, TrueOrMissing, DecodeNodeInfo;
    var k :| 0 <= k < |said| && Tells(said[k], path, ni);
    assert said[k] == Exchange(NodeInfoQuery(path), said[k].hopCnt, said[k].answer);
    TrueNodeInfo(f, path, said[k].hopCnt, said[k].answer);
  }

  /** Where a GUID was told of, a node with that GUID is. */
  lemma GuidLeads(f: Image, said: seq<Exchange>, nodes: seq<Node>, path: Path, i: nat)
    requires f.Valid() && GuidsDistinct(f) && Truthful(said, f) && TrueNodes(f, nodes)
    requires i < |nodes| && GuidTold(said, path, nodes[i].guid)
    ensures LeadsTo(f, nodes, path, i)
  {
    hide Resolve, PathHops, Truthful, Told, Home, TrueNodes, GuidsDistinct;
    var ni :| Told(said, path, ni) && ni.nodeGuid == nodes[i].guid;
    ToldIsTrue(f, said, path, ni);
    HomeByGuid(f, nodes, i, Resolve(f, PathHops(path)).value.node);
  }

  /** A query about a node a client can record does not fail. */
  lemma NoFailure(f: Image, said: seq<Exchange>, path: Path)
    requires f.Valid() && Truthful(said, f) && Lossless(said, f) && Ends(f, PathHops(path))
    ensures !Failed(said, path)
  {
    hide Resolve, PathHops, Truthful, Lossless, Told, DecodeNodeInfo, DecodePort, Readable;
    var e := Resolve(f, PathHops(path)).value;
    if NodeFailed(said, path) {
      var k :| 0 <= k < |said| && Fatal(said[k], path);
      NotFatal(f, said, path, k);
    } else if Failed(said, path) {
      var ni :| Told(said, path, ni) && SomePortFailed(said, path, ni.nports);
      ToldIsTrue(f, said, path, ni);
      var k :| 0 <= k < |said| && FatalPort(said[k], path, ni.nports);
      var error := DecodePort(said[k].answer, said[k].query.modifier).error;
      assert FailsWith(said[k], path, said[k].query.modifier, error);
      NoPortFails(f, said, path, e, error);
    }
  }

  lemma NotFatal(f: Image, said: seq<Exchange>, path: Path, k: nat)
    requires f.Valid() && Lossless(said, f) && Ends(f, PathHops(path)) && k < |said|
    ensures !Fatal(said[k], path)
  {
    hide Resolve, PathHops, DecodeNodeInfo, Described;
    var x := said[k];
    if x.query == NodeInfoQuery(path) {
      NodeInfoAnswered(f, path);
      assert x == Exchange(NodeInfoQuery(path), x.hopCnt, x.answer);
      AnswerTrue(f, path, x);
    } else if x.query == DescQuery(path) {
      DescAnswered(f, path);
    }
  }

  lemma AnswerTrue(f: Image, path: Path, x: Exchange)
    requires f.Valid() && x.query == NodeInfoQuery(path) && x.answer == Answer(f, x.query)
    ensures var d, e := DecodeNodeInfo(x.answer), Resolve(f, PathHops(path));
            d.Ok? ==> e.Some? && d.value.nodeType == f.nodes[e.value.node].nodeInfo.nodeType
  {
    hide Resolve, PathHops, DecodeNodeInfo, Answer;
    TrueNodeInfo(f, path, x.hopCnt, x.answer);
  }

  lemma DescAnswered(f: Image, path: Path)
    requires f.Valid() && Resolve(f, PathHops(path)).Some?
    ensures Answer(f, DescQuery(path)).Ok?
  {
    hide Resolve, PathHops;
  }

  /** The node behind a port whose cable lands tells of the port it is entered by. */
  lemma NoMisnaming(f: Image, said: seq<Exchange>, nodes: seq<Node>, r: PortRef, longer: Path)
    requires f.Valid() && GuidsDistinct(f) && Truthful(said, f) && TrueNodes(f, nodes) && ExactNodes(f, nodes)
    requires LeadsThrough(f, nodes, r, longer) && Lands(f, TrueEnd(f, nodes, r))
    ensures !Misnamed(said, nodes, longer)
  {
    hide Resolve, PathHops, Truthful, Told, GuidTold, TrueNodes, ExactNodes, GuidsDistinct, Lands, TrueEnd;
    hide FindNumber, Home, Peer, LeadsThrough;
    if Misnamed(said, nodes, longer) {
      var ni, i :| MisnamedBy(said, nodes, longer, ni, i);
      ToldIsTrue(f, said, longer, ni);
      GuidLeads(f, said, nodes, longer, i);
      assert Enters(f, nodes, longer, i, ni.localPort);
      LandsFound(f, nodes, r, longer, i, ni.localPort);
    }
  }

  /** So a port that is settled, under a path to its node, is linked if its cable lands. */
  lemma SettledLinked(f: Image, said: seq<Exchange>, nodes: seq<Node>, base: nat, r: PortRef, path: Path)
    requires f.Valid() && GuidsDistinct(f) && Truthful(said, f) && Lossless(said, f) && TrueNodes(f, nodes)
    requires ExactNodes(f, nodes) && PathOk(base, path) && |PathHops(path)| >= 1 && LeadsTo(f, nodes, path, r.node)
    requires PortSettled(said, nodes, r, path) && PortAt(nodes, r).number != 0
    requires GetHopCount(path) < 63 && Lands(f, TrueEnd(f, nodes, r))
    ensures IsLinked(nodes, r)
  {
    hide Resolve, PathHops, PathOk, Truthful, Lossless, TrueNodes, ExactNodes, GuidsDistinct, GetHopCount, Failed;
    hide Misnamed, Tabled, Home, Peer, Readable;
    if PortAt(nodes, r).remote.None? {
      var longer := Longer(path, PortAt(nodes, r).number);
      ExtendPath(base, path, PortAt(nodes, r).number);
      HopThrough(f, nodes, path, r, longer);
      NoFailure(f, said, longer);
      NoMisnaming(f, said, nodes, r, longer);
    }
  }

  lemma ExpandedLinked(f: Image, said: seq<Exchange>, nodes: seq<Node>, base: nat, i: nat, path: Path)
    requires f.Valid() && GuidsDistinct(f) && Truthful(said, f) && Lossless(said, f) && TrueNodes(f, nodes)
    requires ExactNodes(f, nodes) && PathOk(base, path) && |PathHops(path)| >= 1 && LeadsTo(f, nodes, path, i)
    requires Expanded(said, nodes, [], i, path)
    ensures LandingLinked(f, nodes, i, path)
  {
    hide PathHops, PathOk, Truthful, Lossless, TrueNodes, ExactNodes, GuidsDistinct, GetHopCount, LeadsTo, PortDone;
    hide MisnamedAt, Lands, TrueEnd, IsLinked;
    forall r: PortRef | IsDue(nodes, r) && r.node == i && GetHopCount(path) < 63 && Lands(f, TrueEnd(f, nodes, r))
      ensures IsLinked(nodes, r)
    {
      assert ExpandedAt(said, nodes, [], r, path);
      SettledLinked(f, said, nodes, base, r, path);
    }
  }

  lemma OwnPathLeads(f: Image, nodes: seq<Node>, i: nat)
    requires f.Valid() && TrueNodes(f, nodes) && i < |nodes|
    ensures LeadsTo(f, nodes, nodes[i].drPath, i)
  {
    hide Resolve, PathHops, TruePort, TrueLid;
    assert TrueNode(f, nodes[i]);
  }

  /** With nothing left to follow and every query answered, the ports around expanded switches are linked. */
  lemma AllLinkedAround(f: Image, said: seq<Exchange>, nodes: seq<Node>, nodeMap: Registry)
    requires f.Valid() && GuidsDistinct(f) && Truthful(said, f) && Lossless(said, f) && TrueNodes(f, nodes)
    requires ExactNodes(f, nodes) && Consistent(nodes, nodeMap) && RingAccounted(said, nodes, [])
    ensures LinkedAround(f, nodes)
  {
    hide PathHops, PathOk, Truthful, Lossless, TrueNodes, ExactNodes, GuidsDistinct, Ends, LeadsTo, Expanded;
    hide AllHeard, Counted, LandingLinked, Failed, GuidTold;
    forall i | 0 <= i < |nodes| && OnRing(nodes[i]) ensures LandingLinked(f, nodes, i, nodes[i].drPath) {
      OwnPathLeads(f, nodes, i);
      ExpandedLinked(f, said, nodes, Base(nodes), i, nodes[i].drPath);
    }
    forall k | 0 <= k < |nodes[0].ports| && nodes[0].ports[k].number != 0
      ensures var path := HopPath(nodes, nodes[0].ports[k].number);
              Ends(f, PathHops(path)) ==> HopLinked(f, nodes, path)
    {
      var path := HopPath(nodes, nodes[0].ports[k].number);
      if Ends(f, PathHops(path)) { HopIsLinked(f, said, nodes, nodes[0].ports[k].number); }
    }
  }

  lemma HopIsLinked(f: Image, said: seq<Exchange>, nodes: seq<Node>, x: byte)
    requires f.Valid() && GuidsDistinct(f) && Truthful(said, f) && Lossless(said, f) && TrueNodes(f, nodes)
    requires ExactNodes(f, nodes) && nodes != [] && x != 0 && Ends(f, PathHops(HopPath(nodes, x)))
    requires HopServed(said, nodes, [], HopPath(nodes, x))
    ensures HopLinked(f, nodes, HopPath(nodes, x))
  {
    hide PathHops, PathOk, Truthful, Lossless, TrueNodes, ExactNodes, GuidsDistinct, Ends, LeadsTo, Expanded;
    hide LandingLinked, Failed, GuidTold;
    var path := HopPath(nodes, x);
    NoFailure(f, said, path);
    var i :| 0 <= i < |nodes| && GuidTold(said, path, nodes[i].guid) && Expanded(said, nodes, [], i, path);
    GuidLeads(f, said, nodes, path, i);
    FirstHopOk(Base(nodes), x);
    ExpandedLinked(f, said, nodes, Base(nodes), i, path);
  }
}
