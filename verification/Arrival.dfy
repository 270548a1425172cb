/** What holds after a node has been reached: the registry, the work list and the truth of both. */
module Arrival {
  import opened Prelude
  import opened MadLayout
  import opened Simulator
  import opened Topology
  import opened Search
  import opened ShortestPaths

  /** What `discover_node` does to the registry when it succeeds with node `i`: nothing, or one new entry. */
  ghost predicate Registers(nodes: seq<Node>, nodeMap: Registry, nodes': seq<Node>, nodeMap': Registry, path: Path,
                            i: nat) {
    && i < |nodes'|
    && if |nodes'| == |nodes| then nodes' == nodes && nodeMap' == nodeMap
       else
         && i == |nodes| && nodes' == nodes + [nodes'[i]]
         && nodes'[i].guid !in nodeMap && nodeMap' == nodeMap[nodes'[i].guid := i]
         && nodes'[i].drPath == path && GoodTable(nodes'[i]) && Unlinked(nodes'[i])
  }

  lemma RegistersFacts(nodes: seq<Node>, nodeMap: Registry, nodes': seq<Node>, nodeMap': Registry, path: Path, i: nat)
    requires Registers(nodes, nodeMap, nodes', nodeMap', path, i)
    ensures i < |nodes'|
  {
  }

  lemma ArrivalTrue(f: Image, nodes: seq<Node>, nodeMap: Registry, nodes': seq<Node>, nodeMap': Registry, path: Path,
                    i: nat)
    requires f.Valid() && Registers(nodes, nodeMap, nodes', nodeMap', path, i) && TrueNodes(f, nodes)
    requires |nodes'| > |nodes| ==> TrueNode(f, nodes'[i])
    ensures TrueNodes(f, nodes')
  {
    hide TrueNode, GoodTable, Unlinked;
  }

  lemma ArrivalExact(f: Image, nodes: seq<Node>, nodeMap: Registry, nodes': seq<Node>, nodeMap': Registry, path: Path,
                     i: nat)
    requires f.Valid() && Registers(nodes, nodeMap, nodes', nodeMap', path, i) && ExactNodes(f, nodes)
    requires |nodes'| > |nodes| ==> ExactNode(f, nodes'[i])
    ensures ExactNodes(f, nodes')
  {
    hide ExactNode, GoodTable, Unlinked;
  }

  /** The path leads to the true node with this record's GUID. */
  ghost predicate Met(f: Image, path: Path, n: Node)
    requires f.Valid()
  {
    var e := Resolve(f, PathHops(path));
    e.Some? && n.guid == f.nodes[e.value.node].nodeInfo.nodeGuid
  }

  /** The path is one hop further than the level searched, and a route if it leads anywhere. */
  ghost predicate Outward(f: Image, path: Path, level: nat)
    requires f.Valid()
  {
    |PathHops(path)| == level + 1 && (Ends(f, PathHops(path)) ==> Route(f, PathHops(path)))
  }

  lemma OutwardRoute(f: Image, path: Path, level: nat)
    requires f.Valid() && Outward(f, path, level)
    ensures |PathHops(path)| == level + 1
    ensures Ends(f, PathHops(path)) ==> Route(f, PathHops(path))
  {
  }

  /** The entries pushed when node `i` is reached by `path`. */
  function Pushes(nodes: seq<Node>, i: nat, path: Path): seq<Item>
    requires i < |nodes|
  {
    if nodes[i].nodeType == Switch then Seeds(nodes[i].ports, i, path) else []
  }

  lemma PushesAre(nodes: seq<Node>, i: nat, path: Path)
    requires i < |nodes| && Ascending(nodes[i].ports)
    ensures var more := Pushes(nodes, i, path);
            && |more| <= 255
            && forall k :: 0 <= k < |more| ==>
              more[k].path == path && more[k].port.node == i && Has(nodes, more[k].port)
  {
    SeedsFew(nodes[i].ports, i, path);
  }

  lemma ArrivalConsistent(nodes: seq<Node>, nodeMap: Registry, nodes': seq<Node>, nodeMap': Registry, path: Path,
                          i: nat, queue: seq<Item>)
    requires Consistent(nodes, nodeMap) && GoodQueue(nodes, queue)
    requires Registers(nodes, nodeMap, nodes', nodeMap', path, i) && PathOk(Base(nodes), path)
    ensures Consistent(nodes', nodeMap') && GoodQueue(nodes', queue)
    ensures nodes' != [] && nodes'[0] == nodes[0]
  {
    if |nodes'| > |nodes| {
      RegisterKeepsConsistent(nodes, nodeMap, nodes'[i]);
      RegisterKeepsQueue(nodes, queue, nodes'[i]);
    }
  }

  lemma PushesGood(nodes: seq<Node>, i: nat, path: Path)
    requires nodes != [] && i < |nodes| && PathOk(Base(nodes), path) && |PathHops(path)| >= 1
    ensures GoodQueue(nodes, Pushes(nodes, i, path))
  {
    hide PathOk, PathHops;
  }

  lemma QueueConcat(nodes: seq<Node>, a: seq<Item>, b: seq<Item>)
    requires GoodQueue(nodes, a) && GoodQueue(nodes, b)
    ensures GoodQueue(nodes, a + b)
  {
  }

  /** Reaching a node keeps the picture true, and the node is the one the path leads to. */
  lemma ArrivalSound(f: Image, nodes: seq<Node>, nodeMap: Registry, nodes': seq<Node>, nodeMap': Registry, path: Path,
                     i: nat, queue: seq<Item>)
    requires f.Valid() && GuidsDistinct(f) && Sound(f, nodes, queue)
    requires Registers(nodes, nodeMap, nodes', nodeMap', path, i)
    requires Met(f, path, nodes'[i]) && (|nodes'| > |nodes| ==> TrueNode(f, nodes'[i]))
    ensures Sound(f, nodes', queue)
    ensures Home(f, nodes'[i]) == Resolve(f, PathHops(path)).value.node
  {
    if |nodes'| > |nodes| { RegisterKeepsSound(f, nodes, queue, nodes'[i]); }
    HomeByGuid(f, nodes', i, Resolve(f, PathHops(path)).value.node);
  }

  lemma PushesTrue(f: Image, nodes: seq<Node>, i: nat, path: Path)
    requires f.Valid() && i < |nodes| && Resolve(f, PathHops(path)).Some?
    requires Home(f, nodes[i]) == Resolve(f, PathHops(path)).value.node
    ensures TrueItems(f, nodes, Pushes(nodes, i, path))
  {
  }

  lemma TrueConcat(f: Image, nodes: seq<Node>, a: seq<Item>, b: seq<Item>)
    requires f.Valid() && TrueItems(f, nodes, a) && TrueItems(f, nodes, b)
    ensures TrueItems(f, nodes, a + b)
  {
  }

  /** A node of an exact picture that a path leads to is one a client can record. */
  lemma ReachedEnds(f: Image, nodes: seq<Node>, path: Path, i: nat)
    requires f.Valid() && i < |nodes| && ExactNode(f, nodes[i]) && Resolve(f, PathHops(path)).Some?
    requires Home(f, nodes[i]) == Resolve(f, PathHops(path)).value.node
    ensures Ends(f, PathHops(path))
  {
    hide Readable, PathHops, Home, Resolve;
  }

  /** Reaching a node one level out keeps the search on track. */
  lemma ArrivalOnTrack(f: Image, nodes: seq<Node>, nodeMap: Registry, nodes': seq<Node>, nodeMap': Registry,
                       path: Path, i: nat,
                       queue: seq<Item>, seen: nat, level: nat)
    requires f.Valid() && nodes != [] && OnTrack(f, nodes, queue, seen, level)
    requires Registers(nodes, nodeMap, nodes', nodeMap', path, i)
    requires |nodes'| > |nodes| ==> ExactNode(f, nodes'[i])
    requires Route(f, PathHops(path)) && |PathHops(path)| == level + 1
    ensures OnTrack(f, nodes', queue + Pushes(nodes', i, path), seen, level)
  {
    hide OnTrack, ExactNode, Route, PathHops, Seeds, Unlinked, GoodTable;
    if |nodes'| > |nodes| {
      RegisterKeepsOnTrack(f, nodes, queue, seen, level, nodes'[i]);
    } else {
      PushKeepsOnTrack(f, nodes, queue, seen, level, Pushes(nodes', i, path));
    }
  }

  /** The path one hop past a work-list entry leads through the cable of its port. */
  lemma NextHop(f: Image, nodes: seq<Node>, it: Item, path: Path)
    requires f.Valid() && TrueItem(f, nodes, it)
    requires PathHops(path) == PathHops(it.path) + [PortAt(nodes, it.port).number]
    ensures Resolve(f, PathHops(path)) == Peer(f, TrueEnd(f, nodes, it.port))
  {
    assert PathHops(path)[..|PathHops(path)| - 1] == PathHops(it.path);
  }

  /** Following a live port of a switch whose cable leads somewhere extends a route. */
  lemma NextRoute(f: Image, nodes: seq<Node>, it: Item, path: Path)
    requires f.Valid() && TrueNodes(f, nodes) && TrueItem(f, nodes, it) && nodes != [] && GoodItem(nodes, it)
    requires Route(f, PathHops(it.path)) && Ends(f, PathHops(path))
    requires PathHops(path) == PathHops(it.path) + [PortAt(nodes, it.port).number]
    ensures Route(f, PathHops(path))
  {
    NextHop(f, nodes, it, path);
    assert TrueNode(f, nodes[it.port.node]);
    RouteAppend(f, PathHops(it.path), PortAt(nodes, it.port).number);
  }

  // ---- The agent's own node ----

  lemma RootIsHome(f: Image, nodes: seq<Node>)
    requires f.Valid() && nodes != [] && TrueNodes(f, nodes) && nodes[0].drPath == START_PATH
    ensures f.root.Some? && Home(f, nodes[0]) == f.root.value.node && Len(nodes[0]) == 0
  {
    StartPathOk(Base(nodes));
    assert TrueNode(f, nodes[0]);
  }

  lemma RootIsRoute(f: Image, nodes: seq<Node>, queue: seq<Item>, seen: nat, level: nat)
    requires f.Valid() && nodes != [] && nodes[0].drPath == START_PATH && OnTrack(f, nodes, queue, seen, level)
    ensures Route(f, [])
  {
    hide Route, ExactNodes, Closed, Wired, Fifo, PathHops;
    StartPathOk(1);
    assert Route(f, PathHops(nodes[0].drPath));
  }

  lemma RootRoute(f: Image, nodes: seq<Node>, x: byte, path: Path)
    requires f.Valid() && nodes != [] && TrueNodes(f, nodes) && nodes[0].drPath == START_PATH
    requires PathHops(path) == [x] && Eligible(f, Home(f, nodes[0]), x) && Route(f, [])
    ensures Resolve(f, PathHops(path)) == Peer(f, End(Home(f, nodes[0]), x))
    ensures Ends(f, PathHops(path)) ==> Route(f, PathHops(path))
  {
    RootIsHome(f, nodes);
    assert [x][..0] == [];
    if Leads(f, End(Home(f, nodes[0]), x)) {
      RouteAppend(f, [], x);
      assert [] + [x] == [x];
    }
  }

  /** The agent's own ports below this number have been dealt with when the loop is at index `k` of its table. */
  function SeenAt(ports: seq<Port>, k: nat): nat {
    if k < |ports| then ports[k].number else 0x100
  }

  /** A port number not in the table of the agent's node may not be followed. */
  lemma NotInTable(f: Image, n: Node, x: byte)
    requires f.Valid() && ExactNode(f, n) && forall a :: 0 <= a < |n.ports| ==> n.ports[a].number != x
    ensures !Eligible(f, Home(f, n), x)
  {
  }

  /** Moving on to the next port of the table, once this one has been served. */
  lemma SeenNext(f: Image, nodes: seq<Node>, queue: seq<Item>, k: nat, level: nat)
    requires f.Valid() && nodes != [] && Ascending(nodes[0].ports) && k < |nodes[0].ports|
    requires OnTrack(f, nodes, queue, SeenAt(nodes[0].ports, k), level)
    requires var x := nodes[0].ports[k].number;
             Eligible(f, Home(f, nodes[0]), x) ==> NodeServed(f, nodes, queue, 0, x)
    ensures OnTrack(f, nodes, queue, SeenAt(nodes[0].ports, k + 1), level)
  {
    hide Eligible, NodeServed, ExactNode, Routes, Fifo, Wired, Home, Base, PathHops;
    var ports := nodes[0].ports;
    assert ExactNode(f, nodes[0]);
    forall i, x: byte | 0 <= i < |nodes| && Due(f, nodes, SeenAt(ports, k + 1), i, x)
      ensures NodeServed(f, nodes, queue, i, x)
    {
      if i != 0 || x < ports[k].number {
        assert Due(f, nodes, SeenAt(ports, k), i, x);
      } else if x > ports[k].number {
        NotInTable(f, nodes[0], x);
      }
    }
  }

  lemma SeenNone(f: Image, nodes: seq<Node>, queue: seq<Item>, level: nat)
    requires f.Valid() && nodes != [] && Ascending(nodes[0].ports) && OnTrack(f, nodes, queue, 0, level)
    ensures OnTrack(f, nodes, queue, SeenAt(nodes[0].ports, 0), level)
  {
    assert ExactNode(f, nodes[0]);
    forall i, x: byte | 0 <= i < |nodes| && Due(f, nodes, SeenAt(nodes[0].ports, 0), i, x)
      ensures NodeServed(f, nodes, queue, i, x)
    {
      if i != 0 {
        assert Due(f, nodes, 0, i, x);
      } else {
        NotInTable(f, nodes[0], x);
      }
    }
  }

  lemma RootEnds(f: Image)
    requires f.Valid() && Route(f, [])
    ensures Ends(f, PathHops(START_PATH))
  {
    StartPathOk(1);
  }

  /** A root record that is complete shows the agent's node can be recorded. */
  lemma RootReadable(f: Image, nodes: seq<Node>)
    requires f.Valid() && |nodes| == 1 && nodes[0].drPath == START_PATH && ExactNode(f, nodes[0])
    ensures Route(f, [])
  {
    hide Readable, PathHops;
    StartPathOk(1);
  }

  lemma TrackedExact(f: Image, nodes: seq<Node>, queue: seq<Item>, seen: nat, level: nat)
    requires f.Valid() && OnTrack(f, nodes, queue, seen, level)
    ensures ExactNodes(f, nodes)
  {
  }

  lemma ExactOf(f: Image, nodes: seq<Node>, i: nat)
    requires f.Valid() && ExactNodes(f, nodes) && i < |nodes|
    ensures ExactNode(f, nodes[i])
  {
  }

  lemma RootConsistent(nodes: seq<Node>, nodeMap: Registry)
    requires |nodes| == 1 && Registers([], map[], nodes, nodeMap, START_PATH, 0)
    ensures Consistent(nodes, nodeMap) && nodes[0].drPath == START_PATH && GoodQueue(nodes, [])
  {
    StartPathOk(Base(nodes));
    assert [] + [nodes[0]] == nodes;
    RegisterKeepsConsistent([], map[], nodes[0]);
  }

  lemma RootSound(f: Image, nodes: seq<Node>)
    requires f.Valid() && |nodes| == 1 && TrueNode(f, nodes[0]) && Unlinked(nodes[0])
    ensures Sound(f, nodes, [])
  {
    assert [] + [nodes[0]] == nodes;
    RegisterKeepsSound(f, [], [], nodes[0]);
  }

  lemma TableOfRoot(n: Node)
    requires GoodTable(n)
    ensures Ascending(n.ports)
  {
  }

  lemma RootOnTrack(f: Image, nodes: seq<Node>)
    requires f.Valid() && Route(f, []) && |nodes| == 1 && nodes[0].drPath == START_PATH
    requires ExactNode(f, nodes[0]) && GoodTable(nodes[0])
    ensures OnTrack(f, nodes, [], SeenAt(nodes[0].ports, 0), 0)
  {
    hide Peer, Eligible, ExactNode, KnownWithin, Queued, GoodTable, RunFrom, Seeds;
    StartPathOk(1);
    assert Route(f, []);
    assert forall i, x: byte :: 0 <= i < |nodes| ==> !Due(f, nodes, 0, i, x);
    TableOfRoot(nodes[0]);
    SeenNone(f, nodes, [], 0);
  }

  // ---- One step of the first-hop loop ----

  /** A live port of the agent's node leads one hop out. */
  lemma RootStep(f: Image, nodes: seq<Node>, k: nat, path: Path)
    requires f.Valid() && nodes != [] && TrueNodes(f, nodes) && nodes[0].drPath == START_PATH
    requires k < |nodes[0].ports| && nodes[0].ports[k].Live() && nodes[0].ports[k].number != 0
    requires PathHops(path) == [nodes[0].ports[k].number] && Route(f, [])
    ensures Outward(f, path, 0)
    ensures Resolve(f, PathHops(path)) == Peer(f, End(Home(f, nodes[0]), nodes[0].ports[k].number))
  {
    assert TrueNode(f, nodes[0]);
    RootRoute(f, nodes, nodes[0].ports[k].number, path);
  }

  /** Once its neighbour is known, or it turned out to have none, the port has been served. */
  lemma RootPortServed(f: Image, nodes: seq<Node>, queue: seq<Item>, k: nat, path: Path, reached: Result<nat>)
    requires f.Valid() && nodes != [] && TrueNodes(f, nodes) && nodes[0].drPath == START_PATH
    requires Ascending(nodes[0].ports) && k < |nodes[0].ports|
    requires nodes[0].ports[k].Live() && nodes[0].ports[k].number != 0
    requires PathHops(path) == [nodes[0].ports[k].number]
    requires Ends(f, PathHops(path)) ==> reached.Ok?
    requires reached.Ok? ==>
      && reached.value < |nodes| && Resolve(f, PathHops(path)).Some?
      && Home(f, nodes[reached.value]) == Resolve(f, PathHops(path)).value.node
    requires OnTrack(f, nodes, queue, SeenAt(nodes[0].ports, k), 0)
    ensures OnTrack(f, nodes, queue, SeenAt(nodes[0].ports, k + 1), 0)
  {
    hide PathHops, Resolve, Route, Closed, Wired, Eligible, Readable;
    RootIsRoute(f, nodes, queue, SeenAt(nodes[0].ports, k), 0);
    RootStep(f, nodes, k, path);
    SeenNext(f, nodes, queue, k, 0);
  }

  lemma RootPortIdle(f: Image, nodes: seq<Node>, queue: seq<Item>, k: nat)
    requires f.Valid() && nodes != [] && Ascending(nodes[0].ports) && k < |nodes[0].ports|
    requires !nodes[0].ports[k].Live() || nodes[0].ports[k].number == 0
    requires OnTrack(f, nodes, queue, SeenAt(nodes[0].ports, k), 0)
    ensures OnTrack(f, nodes, queue, SeenAt(nodes[0].ports, k + 1), 0)
  {
    assert ExactNode(f, nodes[0]);
    FindInTable(nodes[0].ports, k);
    SeenNext(f, nodes, queue, k, 0);
  }

  // ---- Finishing with the head of the work list ----

  lemma TailGood(nodes: seq<Node>, it: Item, rest: seq<Item>)
    requires GoodQueue(nodes, [it] + rest)
    ensures GoodItem(nodes, it) && GoodQueue(nodes, rest)
  {
    assert ([it] + rest)[0] == it;
    forall k | 0 <= k < |rest| ensures GoodItem(nodes, rest[k]) {
      assert ([it] + rest)[k + 1] == rest[k];
    }
  }

  lemma TailSound(f: Image, nodes: seq<Node>, it: Item, rest: seq<Item>)
    requires f.Valid() && Sound(f, nodes, [it] + rest)
    ensures TrueItem(f, nodes, it) && Sound(f, nodes, rest)
  {
    hide TrueItem, TrueNode, TrueLink;
    assert ([it] + rest)[0] == it;
    forall k | 0 <= k < |rest| ensures TrueItem(f, nodes, rest[k]) {
      assert ([it] + rest)[k + 1] == rest[k];
    }
  }

  /** The head is done with: drop it. */
  lemma HeadDropped(f: Image, nodes: seq<Node>, it: Item, rest: seq<Item>, seen: nat, level: nat)
    requires f.Valid() && nodes != [] && OnTrack(f, nodes, [it] + rest, seen, level) && HeadDone(f, nodes, it)
    requires forall i :: 0 <= i < |nodes| ==> Ascending(nodes[i].ports)
    ensures OnTrack(f, nodes, rest, seen, level)
  {
    hide OnTrack, HeadDone, Ascending;
    DropKeepsOnTrack(f, nodes, [it] + rest, seen, level);
    assert ([it] + rest)[1..] == rest;
  }

  lemma HeadFacts(f: Image, nodes: seq<Node>, it: Item, rest: seq<Item>, seen: nat, level: nat)
    requires f.Valid() && OnTrack(f, nodes, [it] + rest, seen, level)
    ensures OnTrack(f, nodes, [it] + rest, seen, Level(it))
    ensures Route(f, PathHops(it.path))
    ensures forall i :: 0 <= i < |nodes| ==> Len(nodes[i]) <= Level(it) + 1
  {
    hide Route, ExactNodes, Closed, Wired, PathHops;
    assert ([it] + rest)[0] == it;
    LevelOfHead(f, nodes, [it] + rest, seen, level);
  }

  /** A port already linked was met from its other end. */
  lemma HeadLinked(f: Image, nodes: seq<Node>, it: Item, rest: seq<Item>, seen: nat, level: nat)
    requires f.Valid() && nodes != [] && OnTrack(f, nodes, [it] + rest, seen, level)
    requires TrueLinks(f, nodes) && Has(nodes, it.port) && PortAt(nodes, it.port).remote.Some?
    ensures HeadDone(f, nodes, it)
  {
    HeadFacts(f, nodes, it, rest, seen, level);
    hide OnTrack, Route, PathHops, Peer, Home;
    assert TrueLink(f, nodes, it.port);
    var o := PortAt(nodes, it.port).remote.value;
    assert Len(nodes[o.node]) <= Level(it) + 1;
  }

  /** A path with no room for another hop, or a cable that leads nowhere, needs nothing. */
  lemma HeadIdle(f: Image, nodes: seq<Node>, it: Item)
    requires f.Valid() && nodes != [] && Has(nodes, it.port)
    requires Level(it) >= MaxHops(Base(nodes)) || !Leads(f, TrueEnd(f, nodes, it.port))
    ensures HeadDone(f, nodes, it)
  {
  }

  /** The node behind the port is known, and the port linked if that node reports the port it was entered by. */
  lemma HeadReached(f: Image, nodes: seq<Node>, it: Item, i: nat)
    requires f.Valid() && nodes != [] && Has(nodes, it.port) && i < |nodes|
    requires Peer(f, TrueEnd(f, nodes, it.port)).Some?
    requires Home(f, nodes[i]) == Peer(f, TrueEnd(f, nodes, it.port)).value.node
    requires Len(nodes[i]) <= Level(it) + 1
    requires Lands(f, TrueEnd(f, nodes, it.port)) ==> PortAt(nodes, it.port).remote.Some?
    ensures HeadDone(f, nodes, it)
  {
  }

  /** The port a node was entered by is in its table exactly when the cable lands there. */
  lemma EntryPortKnown(f: Image, nodes: seq<Node>, d: End, i: nat)
    requires f.Valid() && i < |nodes| && ExactNode(f, nodes[i]) && Peer(f, d).Some?
    requires Home(f, nodes[i]) == Peer(f, d).value.node
    ensures FindNumber(nodes[i].ports, Peer(f, d).value.num).Some? <==> Lands(f, d)
  {
    hide Peer, Home, Eligible, TrueNode;
  }

  /** Node `i`, entered by its port `num`, is at the other end of the cable of the entry's port. */
  ghost predicate Behind(f: Image, nodes: seq<Node>, it: Item, i: nat, num: byte)
    requires f.Valid()
  {
    Has(nodes, it.port) && i < |nodes| && Peer(f, TrueEnd(f, nodes, it.port)) == Some(End(Home(f, nodes[i]), num))
  }

  lemma BehindNode(f: Image, nodes: seq<Node>, it: Item, path: Path, i: nat)
    requires f.Valid() && TrueItem(f, nodes, it) && i < |nodes| && Resolve(f, PathHops(path)).Some?
    requires Resolve(f, PathHops(path)) == Peer(f, TrueEnd(f, nodes, it.port))
    requires Home(f, nodes[i]) == Resolve(f, PathHops(path)).value.node
    ensures Behind(f, nodes, it, i, Resolve(f, PathHops(path)).value.num)
  {
    hide Peer, Resolve, PathHops, Home;
  }

  /** Registering nodes does not change what an entry stands for. */
  lemma EndStays(f: Image, nodes: seq<Node>, nodes': seq<Node>, r: PortRef)
    requires f.Valid() && Has(nodes, r) && |nodes'| >= |nodes| && nodes'[..|nodes|] == nodes
    ensures Has(nodes', r) && PortAt(nodes', r) == PortAt(nodes, r) && TrueEnd(f, nodes', r) == TrueEnd(f, nodes, r)
  {
    hide Home;
    assert nodes'[r.node] == nodes'[..|nodes|][r.node];
  }

  /** Linking the two ports keeps the picture true and every link made. */
  ghost predicate JoinedSoundly(f: Image, nodes: seq<Node>, queue: seq<Item>, a: PortRef, b: PortRef)
    requires f.Valid()
  {
    && Has(nodes, a) && Has(nodes, b)
    && Sound(f, LinkPorts(nodes, a, b), queue) && LinksKept(nodes, LinkPorts(nodes, a, b))
  }

  /** Linking the entry's port with the port its node was entered by follows a true cable. */
  lemma JoinSound(f: Image, nodes: seq<Node>, nodeMap: Registry, queue: seq<Item>, it: Item, i: nat, num: byte, b: nat)
    requires f.Valid() && Symmetric(f) && Sound(f, nodes, queue) && Consistent(nodes, nodeMap)
    requires Behind(f, nodes, it, i, num) && FindNumber(nodes[i].ports, num) == Some(b)
    ensures JoinedSoundly(f, nodes, queue, it.port, PortRef(i, b))
  {
    hide Peer, Home, Consistent, Symmetric, TrueNodes, TrueLinks, TrueItems, LinkPorts, LinksKept;
    LinkKeepsSound(f, nodes, nodeMap, queue, it.port, PortRef(i, b));
    LinkingKeepsLinks(f, nodes, nodeMap, it.port, PortRef(i, b));
  }

  /** After linking, the head is done with. */
  lemma JoinDone(f: Image, nodes: seq<Node>, queue: seq<Item>, it: Item, i: nat, num: byte, nodes': seq<Node>,
                 level: nat)
    requires f.Valid() && nodes != [] && OnTrack(f, nodes, queue, 0x100, level) && level == Level(it)
    requires Has(nodes, it.port) && i < |nodes| && Behind(f, nodes, it, i, num)
    requires nodes' == LinkedTo(nodes, it.port, i, num)
    ensures HeadDone(f, nodes', it)
  {
    hide Route, Closed, Wired, Peer, Resolve, PathHops, RunFrom, Tabled;
    assert ExactNode(f, nodes[i]);
    EntryPortKnown(f, nodes, TrueEnd(f, nodes, it.port), i);
    assert Len(nodes[i]) <= level + 1;
    HeadReached(f, nodes', it, i);
  }

  // ---- What a step never undoes ----

  /** The same node with the same ports, those linked still linked and some others perhaps. */
  ghost predicate SameTable(m: Node, n: Node) {
    && SameButPorts(m, n)
    && (forall c :: 0 <= c < |m.ports| ==> n.ports[c] == m.ports[c].(remote := n.ports[c].remote))
    && (forall c :: 0 <= c < |m.ports| && m.ports[c].remote.Some? ==> n.ports[c].remote.Some?)
  }

  /** Nodes have been registered and links made, and nothing else. */
  ghost predicate Grown(nodes: seq<Node>, nodes': seq<Node>) {
    && |nodes'| >= |nodes|
    && forall i :: 0 <= i < |nodes| ==> SameTable(nodes[i], nodes'[i])
  }

  lemma PrefixGrown(nodes: seq<Node>, nodes': seq<Node>)
    requires |nodes'| >= |nodes| && nodes'[..|nodes|] == nodes
    ensures Grown(nodes, nodes')
  {
    assert forall i :: 0 <= i < |nodes| ==> nodes'[i] == nodes'[..|nodes|][i];
  }

  lemma LinkGrown(nodes: seq<Node>, a: PortRef, b: PortRef)
    requires Has(nodes, a) && Has(nodes, b)
    ensures Grown(nodes, LinkPorts(nodes, a, b))
  {
    var t := LinkPorts(nodes, a, b);
    forall i | 0 <= i < |nodes| ensures SameTable(nodes[i], t[i]) {
      LinkKeepsTable(nodes, a, b, i);
      forall c | 0 <= c < |nodes[i].ports| && nodes[i].ports[c].remote.Some? ensures t[i].ports[c].remote.Some? {
        assert Has(nodes, PortRef(i, c)) && PortAt(t, PortRef(i, c)) == t[i].ports[c];
      }
    }
  }

  lemma GrownTwice(nodes: seq<Node>, nodes': seq<Node>, nodes'': seq<Node>)
    requires Grown(nodes, nodes') && Grown(nodes', nodes'')
    ensures Grown(nodes, nodes'')
  {
    forall i | 0 <= i < |nodes| ensures SameTable(nodes[i], nodes''[i]) {
      assert SameTable(nodes[i], nodes'[i]) && SameTable(nodes'[i], nodes''[i]);
    }
  }

  /** References and what they stand for survive growth. */
  lemma GrownEnd(f: Image, nodes: seq<Node>, nodes': seq<Node>, r: PortRef)
    requires f.Valid() && Grown(nodes, nodes') && Has(nodes, r)
    ensures Has(nodes', r) && PortAt(nodes', r).number == PortAt(nodes, r).number
    ensures TrueEnd(f, nodes', r) == TrueEnd(f, nodes, r) && Home(f, nodes'[r.node]) == Home(f, nodes[r.node])
  {
    assert SameTable(nodes[r.node], nodes'[r.node]);
  }

  lemma GrownHas(nodes: seq<Node>, nodes': seq<Node>, r: PortRef)
    requires Grown(nodes, nodes') && Has(nodes, r)
    ensures Has(nodes', r) && PortAt(nodes', r).number == PortAt(nodes, r).number
    ensures PortAt(nodes', r).linkState == PortAt(nodes, r).linkState
    ensures nodes'[r.node].nodeType == nodes[r.node].nodeType
  {
    assert SameTable(nodes[r.node], nodes'[r.node]);
  }

  lemma GrownRoot(nodes: seq<Node>, nodes': seq<Node>)
    requires nodes != [] && Grown(nodes, nodes')
    ensures nodes' != [] && Base(nodes') == Base(nodes) && nodes'[0].drPath == nodes[0].drPath
  {
    assert SameTable(nodes[0], nodes'[0]);
  }

  lemma GrownCount(nodes: seq<Node>, nodes': seq<Node>)
    requires Grown(nodes, nodes')
    ensures |nodes'| >= |nodes|
  {
  }

  /** Every link made is still there, and still the same. */
  ghost predicate LinksKept(nodes: seq<Node>, nodes': seq<Node>) {
    forall r: PortRef :: Has(nodes, r) && PortAt(nodes, r).remote.Some? ==>
      Has(nodes', r) && PortAt(nodes', r).remote == PortAt(nodes, r).remote
  }

  lemma PrefixLinks(nodes: seq<Node>, nodes': seq<Node>)
    requires |nodes'| >= |nodes| && nodes'[..|nodes|] == nodes
    ensures LinksKept(nodes, nodes')
  {
    assert forall i :: 0 <= i < |nodes| ==> nodes'[i] == nodes'[..|nodes|][i];
  }

  lemma LinksTwice(nodes: seq<Node>, nodes': seq<Node>, nodes'': seq<Node>)
    requires LinksKept(nodes, nodes') && LinksKept(nodes', nodes'')
    ensures LinksKept(nodes, nodes'')
  {
  }

  /** Linking along a true cable overwrites no link with a different one. */
  lemma LinkingKeepsLinks(f: Image, nodes: seq<Node>, nodeMap: Registry, a: PortRef, b: PortRef)
    requires f.Valid() && Symmetric(f) && TrueNodes(f, nodes) && TrueLinks(f, nodes) && Consistent(nodes, nodeMap)
    requires Has(nodes, a) && Has(nodes, b)
    requires Peer(f, TrueEnd(f, nodes, a)) == Some(TrueEnd(f, nodes, b))
    ensures LinksKept(nodes, LinkPorts(nodes, a, b))
  {
    hide TrueNodes, TrueLinks, Consistent, Symmetric, Peer, Home;
    FarEndIsFree(f, nodes, nodeMap, a, b);
  }
}
