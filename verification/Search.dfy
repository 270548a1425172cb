/**
 What the traversals in src/discovery/ib.rs and src/discovery/nvlink.rs keep: the work list shrinks
 in weight whoever answers, and the picture stays true when answers are true or missing.
 */
module Search {
  import opened Prelude
  import opened MadLayout
  import opened Simulator
  import opened Topology
  import PI = PortInfo

  // ---- Who answers ----

  /** A query a client made, with the hop count in its header, and what it took the answer to be. */
  datatype Exchange = Exchange(query: Query, hopCnt: byte, answer: Result<Attr64>)

  /** An answer is true or missing. */
  ghost predicate TrueOrMissing(f: Image, x: Exchange)
    requires f.Valid()
  {
    x.answer.Err? || x.answer == Answer(f, x.query)
  }

  ghost predicate Truthful(said: seq<Exchange>, f: Image)
    requires f.Valid()
  {
    forall k :: 0 <= k < |said| ==> TrueOrMissing(f, said[k])
  }

  /** Every query the fabric can answer was answered. */
  ghost predicate Lossless(said: seq<Exchange>, f: Image)
    requires f.Valid()
  {
    forall k :: 0 <= k < |said| ==> said[k].answer == Answer(f, said[k].query)
  }

  /** A history is true, or lossless, when all its parts are. */
  lemma TruthOfParts(a: seq<Exchange>, b: seq<Exchange>, f: Image)
    requires f.Valid()
    ensures Truthful(a + b, f) <==> Truthful(a, f) && Truthful(b, f)
    ensures Lossless(a + b, f) <==> Lossless(a, f) && Lossless(b, f)
  {
    hide Answer, TrueOrMissing;
    var all := a + b;
    assert forall k :: 0 <= k < |a| ==> all[k] == a[k];
    assert forall k :: 0 <= k < |b| ==> all[|a| + k] == b[k];
  }

  lemma OneMoreTold(said: seq<Exchange>, x: Exchange, f: Image)
    requires f.Valid()
    ensures Truthful(said + [x], f) <==> Truthful(said, f) && TrueOrMissing(f, x)
    ensures Lossless(said + [x], f) <==> Lossless(said, f) && x.answer == Answer(f, x.query)
  {
    hide TrueOrMissing, Answer;
    TruthOfParts(said, [x], f);
    assert [x][0] == x;
  }

  lemma LastTold(said: seq<Exchange>, x: Exchange, f: Image)
    requires f.Valid()
    ensures Truthful(said + [x], f) ==> Truthful(said, f) && TrueOrMissing(f, x)
    ensures Lossless(said + [x], f) ==> Lossless(said, f) && x.answer == Answer(f, x.query)
  {
    hide Answer, TrueOrMissing;
    TruthOfParts(said, [x], f);
    assert [x][0] == x;
  }

  /** The history ends with these exchanges. */
  predicate EndsWith(all: seq<Exchange>, end: seq<Exchange>) {
    |end| <= |all| && all[|all| - |end|..] == end
  }

  lemma EndsWithNone(all: seq<Exchange>)
    ensures EndsWith(all, [])
  {
  }

  lemma EndsWithSuffix(before: seq<Exchange>, end: seq<Exchange>)
    ensures EndsWith(before + end, end)
  {
  }

  lemma EndIsTrue(all: seq<Exchange>, end: seq<Exchange>, f: Image)
    requires f.Valid() && EndsWith(all, end)
    ensures Truthful(all, f) ==> Truthful(end, f)
    ensures Lossless(all, f) ==> Lossless(end, f)
  {
    assert all == all[..|all| - |end|] + end;
    TruthOfParts(all[..|all| - |end|], end, f);
  }

  // ---- Termination ----

  /** 256^(64 - hop count): an entry weighs more than any 255 entries one hop further out. */
  function ItemWeight(path: Path): nat {
    Pow2(8 * (64 - GetHopCount(path)))
  }

  function Weight(queue: seq<Item>): nat {
    if queue == [] then 0 else ItemWeight(queue[0].path) + Weight(queue[1..])
  }

  lemma {:induction false} WeightConcat(a: seq<Item>, b: seq<Item>)
    ensures Weight(a + b) == Weight(a) + Weight(b)
  {
    if a == [] {
      assert a + b == b;
    } else {
      assert (a + b)[1..] == a[1..] + b;
      WeightConcat(a[1..], b);
    }
  }

  lemma {:induction false} WeightOfEqual(items: seq<Item>, path: Path)
    requires forall k :: 0 <= k < |items| ==> items[k].path == path
    ensures Weight(items) == Times(|items|, ItemWeight(path))
  {
    hide ItemWeight;
    if items != [] { WeightOfEqual(items[1..], path); }
  }

  /** `n` times `u`, by repeated addition. */
  function Times(n: nat, u: nat): nat {
    if n == 0 then 0 else u + Times(n - 1, u)
  }

  lemma {:induction false} TimesIsMul(n: nat, u: nat)
    ensures Times(n, u) == n * u
  {
    if n > 0 {
      TimesIsMul(n - 1, u);
      assert n * u == (n - 1) * u + u;
    }
  }

  lemma TimesFew(n: nat, u: nat)
    requires n <= 255 && u >= 1
    ensures Times(n, u) < 0x100 * u
  {
    TimesMonotone(n, 255, u);
    TimesIsMul(255, u);
  }

  lemma {:induction false} TimesMonotone(m: nat, n: nat, u: nat)
    requires m <= n
    ensures Times(m, u) <= Times(n, u)
  {
    if m < n { TimesMonotone(m, n - 1, u); }
  }

  lemma WeightOfHops(shorter: Path, longer: Path)
    requires GetHopCount(longer) == GetHopCount(shorter) + 1
    ensures ItemWeight(shorter) == 0x100 * ItemWeight(longer)
  {
    hide GetHopCount;
    Pow2Add(8, 8 * (64 - GetHopCount(longer)));
    Pow2Of8();
  }

  /** Replacing an entry by at most 255 entries whose path is longer makes the work list lighter. */
  lemma ExpansionIsLighter(it: Item, rest: seq<Item>, items: seq<Item>, path: Path)
    requires forall k :: 0 <= k < |items| ==> items[k].path == path
    requires |items| <= 255 && GetHopCount(path) == GetHopCount(it.path) + 1
    ensures Weight(rest + items) < Weight([it] + rest)
    ensures Weight(items + rest) < Weight([it] + rest)
  {
    WeightConcat(rest, items);
    WeightConcat(items, rest);
    WeightOfOne(it, rest);
    WeightOfEqual(items, path);
    WeightOfHops(it.path, path);
    TimesFew(|items|, ItemWeight(path));
  }

  lemma WeightOfOne(it: Item, rest: seq<Item>)
    ensures Weight([it] + rest) == ItemWeight(it.path) + Weight(rest)
  {
    assert ([it] + rest)[1..] == rest;
  }

  lemma PopIsLighter(it: Item, rest: seq<Item>)
    ensures Weight(rest) < Weight([it] + rest)
  {
    WeightOfOne(it, rest);
  }

  // ---- Truth ----

  /** Different nodes have different GUIDs. */
  ghost predicate GuidsDistinct(f: Image) {
    forall i, j :: 0 <= i < |f.nodes| && 0 <= j < |f.nodes| ==>
      f.nodes[i].nodeInfo.nodeGuid == f.nodes[j].nodeInfo.nodeGuid ==> i == j
  }

  predicate LiveInfo(info: PI.Attribute) {
    PI.Get(info, PI.PortState) in {2, 4}
  }

  /** Port `x` of node `n` is one a client may follow: in 1..nports, present, and active or initialising. */
  ghost predicate Eligible(f: Image, n: nat, x: byte) {
    && n < |f.nodes| && 1 <= x <= f.nodes[n].nodeInfo.nports
    && FindPort(f.nodes[n].ports, x).Some?
    && LiveInfo(f.nodes[n].ports[FindPort(f.nodes[n].ports, x).value].info)
  }

  /** The true node a discovered node stands for: the one its path leads to. */
  ghost function Home(f: Image, n: Node): nat
    requires f.Valid()
  {
    match Resolve(f, PathHops(n.drPath))
    case None => |f.nodes|
    case Some(e) => e.node
  }

  ghost predicate TrueNode(f: Image, n: Node)
    requires f.Valid()
  {
    var h := Home(f, n);
    && h < |f.nodes|
    && n.guid == f.nodes[h].nodeInfo.nodeGuid
    && NodeTypeOf(f.nodes[h].nodeInfo.nodeType) == Some(n.nodeType)
    && n.nports == f.nodes[h].nodeInfo.nports
    && n.localPort == Resolve(f, PathHops(n.drPath)).value.num
    && (0 !in f.nodes[h].description ==> n.description == Some(f.nodes[h].description))
    && (forall a :: 0 <= a < |n.ports| && n.ports[a].Live() && n.ports[a].number != 0 ==>
          Eligible(f, h, n.ports[a].number))
    && (forall a :: 0 <= a < |n.ports| ==> TruePort(f, h, n.ports[a], StandIn(n, n.ports[a].number)))
    && TrueLid(f, h, n)
  }

  /** The record a client makes of port `x` of a true node; asked about port 0, the node answers for port 1. */
  function Described(f: Image, h: nat, x: byte): (r: Option<Port>)
    requires h < |f.nodes|
  {
    match FindPort(f.nodes[h].ports, if x == 0 then 1 else x)
    case None => None
    case Some(i) =>
      match DecodePort(Ok(f.nodes[h].ports[i].info), x)
      case Err(_) => None
      case Ok(p) => Some(p)
  }

  /**
   The states and the LID recorded for a port are the true ones, or those of a placeholder for a port
   other than 0; a LID may stand in place of its own.
   */
  predicate TruePort(f: Image, h: nat, p: Port, standIn: u16)
    requires h < |f.nodes|
  {
    || (p.number != 0 && IsBlank(p, standIn))
    || (Described(f, h, p.number).Some? && SameRecord(p, Described(f, h, p.number).value, standIn))
  }

  /** The LID recorded for a node is that of port 0 of a switch, or of its local port, or none. */
  predicate TrueLid(f: Image, h: nat, n: Node)
    requires h < |f.nodes|
  {
    n.lid == 0 || (n.nodeType == Switch && DescribedLid(f, h, 0, n.lid)) || DescribedLid(f, h, n.localPort, n.lid)
  }

  predicate DescribedLid(f: Image, h: nat, x: byte, lid: u16)
    requires h < |f.nodes|
  {
    Described(f, h, x).Some? && Described(f, h, x).value.lid == lid
  }

  predicate KnownStates(info: PI.Attribute) {
    LinkStateOf(PI.Get(info, PI.PortState)).Some? && PhysStateOf(PI.Get(info, PI.PortPhysicalState)).Some?
  }

  /** A node a client can record: its type is known, and so are the states of each of its ports 1 to nports. */
  ghost predicate Readable(f: Image, h: nat) {
    && h < |f.nodes| && NodeTypeOf(f.nodes[h].nodeInfo.nodeType).Some?
    && forall x: byte :: 1 <= x <= f.nodes[h].nodeInfo.nports && FindPort(f.nodes[h].ports, x).Some? ==>
         Described(f, h, x).Some?
  }

  ghost function TrueEnd(f: Image, nodes: seq<Node>, r: PortRef): End
    requires f.Valid() && Has(nodes, r)
  {
    End(Home(f, nodes[r.node]), PortAt(nodes, r).number)
  }

  /** A recorded link is a true cable, recorded at both its ends. */
  ghost predicate TrueLink(f: Image, nodes: seq<Node>, r: PortRef)
    requires f.Valid() && Has(nodes, r)
  {
    PortAt(nodes, r).remote.Some? ==>
      var o := PortAt(nodes, r).remote.value;
      && Has(nodes, o) && PortAt(nodes, o).remote == Some(r)
      && Peer(f, TrueEnd(f, nodes, r)) == Some(TrueEnd(f, nodes, o))
  }

  /** The path of a work-list entry leads to the node of its port. */
  ghost predicate TrueItem(f: Image, nodes: seq<Node>, it: Item)
    requires f.Valid()
  {
    && Has(nodes, it.port)
    && Resolve(f, PathHops(it.path)).Some?
    && Resolve(f, PathHops(it.path)).value.node == Home(f, nodes[it.port.node])
  }

  ghost predicate TrueNodes(f: Image, nodes: seq<Node>)
    requires f.Valid()
  {
    forall i :: 0 <= i < |nodes| ==> TrueNode(f, nodes[i])
  }

  /** `remote_port` is a symmetric partial matching contained in the true cabling. */
  ghost predicate TrueLinks(f: Image, nodes: seq<Node>)
    requires f.Valid()
  {
    forall r: PortRef :: Has(nodes, r) ==> TrueLink(f, nodes, r)
  }

  ghost predicate TrueItems(f: Image, nodes: seq<Node>, queue: seq<Item>)
    requires f.Valid()
  {
    forall k :: 0 <= k < |queue| ==> TrueItem(f, nodes, queue[k])
  }

  ghost predicate Sound(f: Image, nodes: seq<Node>, queue: seq<Item>)
    requires f.Valid()
  {
    TrueNodes(f, nodes) && TrueLinks(f, nodes) && TrueItems(f, nodes, queue)
  }

  // ---- Steps that keep the picture consistent, whoever answers ----

  /** A freshly discovered node joins the registry. */
  lemma RegisterKeepsConsistent(nodes: seq<Node>, nodeMap: Registry, n: Node)
    requires Consistent(nodes, nodeMap) && n.guid !in nodeMap && GoodTable(n) && Unlinked(n)
    requires PathOk(Base(nodes + [n]), n.drPath)
    ensures Consistent(nodes + [n], nodeMap[n.guid := |nodes|])
  {
    RegisterKeepsRefs(nodes, n);
    RegisterKeepsIndex(nodes, nodeMap, n);
    var t := nodes + [n];
    assert forall i :: 0 <= i < |nodes| ==> t[i] == nodes[i];
    assert nodes != [] ==> Base(t) == Base(nodes);
  }

  lemma RegisterKeepsIndex(nodes: seq<Node>, nodeMap: Registry, n: Node)
    requires Indexed(nodes, nodeMap) && n.guid !in nodeMap
    ensures Indexed(nodes + [n], nodeMap[n.guid := |nodes|])
  {
  }

  lemma RegisterKeepsRefs(nodes: seq<Node>, n: Node)
    requires RefsInside(nodes) && Unlinked(n)
    ensures RefsInside(nodes + [n])
  {
    var t := nodes + [n];
    forall r: PortRef | Has(t, r) && PortAt(t, r).remote.Some? ensures Has(t, PortAt(t, r).remote.value) {
      assert r.node < |nodes| ==> Has(nodes, r) && PortAt(nodes, r) == PortAt(t, r);
    }
  }

  lemma LinkKeepsConsistent(nodes: seq<Node>, nodeMap: Registry, a: PortRef, b: PortRef)
    requires Consistent(nodes, nodeMap) && Has(nodes, a) && Has(nodes, b)
    ensures Consistent(LinkPorts(nodes, a, b), nodeMap)
  {
    hide PathOk, GoodTable, LinkPorts;
    var t := LinkPorts(nodes, a, b);
    forall i | 0 <= i < |t| ensures GoodTable(t[i]) {
      LinkKeepsTable(nodes, a, b, i);
      RemotesKeepTable(nodes[i], t[i]);
    }
  }

  lemma RemotesKeepTable(m: Node, n: Node)
    requires GoodTable(m) && SameButPorts(m, n)
    requires forall c :: 0 <= c < |m.ports| ==> n.ports[c] == m.ports[c].(remote := n.ports[c].remote)
    ensures GoodTable(n)
  {
    assert forall c :: 0 <= c < |m.ports| ==>
        n.ports[c].number == m.ports[c].number && n.ports[c].lid == m.ports[c].lid;
  }

  lemma LinkKeepsTable(nodes: seq<Node>, a: PortRef, b: PortRef, i: nat)
    requires Has(nodes, a) && Has(nodes, b) && i < |nodes|
    ensures var m, n := nodes[i], LinkPorts(nodes, a, b)[i];
            forall c :: 0 <= c < |m.ports| ==> n.ports[c] == m.ports[c].(remote := n.ports[c].remote)
  {
    var t := LinkPorts(nodes, a, b);
    forall c | 0 <= c < |t[i].ports|
      ensures t[i].ports[c] == nodes[i].ports[c].(remote := t[i].ports[c].remote)
    {
      assert Has(nodes, PortRef(i, c)) && PortAt(t, PortRef(i, c)) == t[i].ports[c];
    }
  }

  lemma LinkKeepsQueue(nodes: seq<Node>, queue: seq<Item>, a: PortRef, b: PortRef)
    requires GoodQueue(nodes, queue) && Has(nodes, a) && Has(nodes, b)
    ensures GoodQueue(LinkPorts(nodes, a, b), queue)
  {
    hide PathOk, PathHops;
    var t := LinkPorts(nodes, a, b);
    forall k | 0 <= k < |queue| ensures GoodItem(t, queue[k]) {
      assert GoodItem(nodes, queue[k]);
    }
  }

  lemma RegisterKeepsQueue(nodes: seq<Node>, queue: seq<Item>, n: Node)
    requires GoodQueue(nodes, queue)
    ensures GoodQueue(nodes + [n], queue)
  {
    hide PathOk, PathHops;
    forall k | 0 <= k < |queue| ensures GoodItem(nodes + [n], queue[k]) {
      assert GoodItem(nodes, queue[k]);
    }
  }

  // ---- Steps that keep the picture true ----

  lemma RegisterKeepsSound(f: Image, nodes: seq<Node>, queue: seq<Item>, n: Node)
    requires f.Valid() && Sound(f, nodes, queue) && TrueNode(f, n) && Unlinked(n)
    ensures Sound(f, nodes + [n], queue)
  {
    hide TrueNode, Peer, Home, PathHops;
    var t := nodes + [n];
    forall r: PortRef | Has(t, r) ensures TrueLink(f, t, r) {
      if r.node < |nodes| { assert Has(nodes, r) && TrueLink(f, nodes, r); }
    }
    forall k | 0 <= k < |queue| ensures TrueItem(f, t, queue[k]) {
      assert TrueItem(f, nodes, queue[k]);
    }
  }

  /** One true node is registered at most once. */
  lemma SameNode(f: Image, nodes: seq<Node>, nodeMap: Registry, i: nat, j: nat)
    requires f.Valid() && TrueNodes(f, nodes) && Indexed(nodes, nodeMap) && i < |nodes| && j < |nodes|
    requires Home(f, nodes[i]) == Home(f, nodes[j])
    ensures i == j
  {
  }

  /** A true node carrying the GUID of a registered node is the one that node stands for. */
  lemma HomeByGuid(f: Image, nodes: seq<Node>, i: nat, h: nat)
    requires f.Valid() && GuidsDistinct(f) && TrueNodes(f, nodes) && i < |nodes| && h < |f.nodes|
    requires nodes[i].guid == f.nodes[h].nodeInfo.nodeGuid
    ensures Home(f, nodes[i]) == h
  {
    assert TrueNode(f, nodes[i]);
  }

  lemma SamePort(f: Image, nodes: seq<Node>, nodeMap: Registry, a: PortRef, b: PortRef)
    requires f.Valid() && TrueNodes(f, nodes) && Consistent(nodes, nodeMap) && Has(nodes, a) && Has(nodes, b)
    requires TrueEnd(f, nodes, a) == TrueEnd(f, nodes, b)
    ensures a == b
  {
    SameNode(f, nodes, nodeMap, a.node, b.node);
    assert GoodTable(nodes[a.node]);
  }

  /**
   No established link is overwritten with a different one: when the port followed has no link, or
   the one about to be made, neither has the port at the other end of its cable.
   */
  lemma FarEndIsFree(f: Image, nodes: seq<Node>, nodeMap: Registry, a: PortRef, b: PortRef)
    requires f.Valid() && Symmetric(f) && TrueNodes(f, nodes) && TrueLinks(f, nodes) && Consistent(nodes, nodeMap)
    requires Has(nodes, a) && Has(nodes, b)
    requires Peer(f, TrueEnd(f, nodes, a)) == Some(TrueEnd(f, nodes, b))
    ensures PortAt(nodes, b).remote in {None, Some(a)}
    ensures PortAt(nodes, a).remote in {None, Some(b)}
    ensures PortAt(nodes, a).remote.None? <==> PortAt(nodes, b).remote.None?
  {
    hide TrueNode, Peer, Home, PathHops, Consistent, Ascending;
    if PortAt(nodes, b).remote.Some? {
      assert TrueLink(f, nodes, b);
      SamePort(f, nodes, nodeMap, PortAt(nodes, b).remote.value, a);
    }
    if PortAt(nodes, a).remote.Some? {
      assert TrueLink(f, nodes, a);
      SamePort(f, nodes, nodeMap, PortAt(nodes, a).remote.value, b);
    }
  }

  lemma LinkKeepsSound(f: Image, nodes: seq<Node>, nodeMap: Registry, queue: seq<Item>, a: PortRef, b: PortRef)
    requires f.Valid() && Symmetric(f) && Sound(f, nodes, queue) && Consistent(nodes, nodeMap)
    requires Has(nodes, a) && Has(nodes, b)
    requires Peer(f, TrueEnd(f, nodes, a)) == Some(TrueEnd(f, nodes, b))
    ensures Sound(f, LinkPorts(nodes, a, b), queue)
  {
    hide TrueNode, Peer, PathHops, Resolve, Symmetric, Consistent, Ascending;
    var t := LinkPorts(nodes, a, b);
    FarEndIsFree(f, nodes, nodeMap, a, b);
    LinkKeepsLinks(f, nodes, a, b);
    forall i | 0 <= i < |t| ensures TrueNode(f, t[i]) {
      LinkKeepsTable(nodes, a, b, i);
      RemotesDoNotMatter(f, nodes[i], t[i]);
    }
    forall k | 0 <= k < |queue| ensures TrueItem(f, t, queue[k]) {
      assert TrueItem(f, nodes, queue[k]);
    }
  }

  lemma LinkKeepsTrueNodes(f: Image, nodes: seq<Node>, a: PortRef, b: PortRef)
    requires f.Valid() && TrueNodes(f, nodes) && Has(nodes, a) && Has(nodes, b)
    ensures TrueNodes(f, LinkPorts(nodes, a, b))
  {
    hide TrueNode, LinkPorts;
    var t := LinkPorts(nodes, a, b);
    forall i | 0 <= i < |t| ensures TrueNode(f, t[i]) {
      LinkKeepsTable(nodes, a, b, i);
      RemotesDoNotMatter(f, nodes[i], t[i]);
    }
  }

  lemma LinkedToKeepsTrueNodes(f: Image, nodes: seq<Node>, local: PortRef, i: nat, number: byte)
    requires f.Valid() && TrueNodes(f, nodes) && Has(nodes, local) && i < |nodes|
    ensures TrueNodes(f, LinkedTo(nodes, local, i, number))
  {
    hide TrueNode, LinkPorts, TrueNodes;
    var b := FindNumber(nodes[i].ports, number);
    if b.Some? { LinkKeepsTrueNodes(f, nodes, local, PortRef(i, b.value)); }
  }

  lemma RemotesDoNotMatter(f: Image, m: Node, n: Node)
    requires f.Valid() && TrueNode(f, m) && SameButPorts(m, n)
    requires forall c :: 0 <= c < |m.ports| ==> n.ports[c] == m.ports[c].(remote := n.ports[c].remote)
    ensures TrueNode(f, n)
  {
  }

  lemma LinkKeepsLinks(f: Image, nodes: seq<Node>, a: PortRef, b: PortRef)
    requires f.Valid() && Symmetric(f) && TrueLinks(f, nodes) && Has(nodes, a) && Has(nodes, b)
    requires Peer(f, TrueEnd(f, nodes, a)) == Some(TrueEnd(f, nodes, b))
    requires PortAt(nodes, a).remote in {None, Some(b)} && PortAt(nodes, b).remote in {None, Some(a)}
    ensures TrueLinks(f, LinkPorts(nodes, a, b))
  {
    var t := LinkPorts(nodes, a, b);
    LinkKeepsEnd(f, nodes, a, b, a);
    LinkKeepsEnd(f, nodes, a, b, b);
    forall r: PortRef | Has(t, r) ensures TrueLink(f, t, r) {
      if r != a && r != b { LinkKeepsLink(f, nodes, a, b, r); }
    }
  }

  lemma LinkKeepsLink(f: Image, nodes: seq<Node>, a: PortRef, b: PortRef, r: PortRef)
    requires f.Valid() && TrueLinks(f, nodes) && Has(nodes, a) && Has(nodes, b) && Has(nodes, r) && r != a && r != b
    requires PortAt(nodes, a).remote in {None, Some(b)} && PortAt(nodes, b).remote in {None, Some(a)}
    ensures TrueLink(f, LinkPorts(nodes, a, b), r)
  {
    hide TrueEnd, Peer;
    assert TrueLink(f, nodes, r);
    if PortAt(nodes, r).remote.Some? {
      LinkKeepsEnd(f, nodes, a, b, r);
      LinkKeepsEnd(f, nodes, a, b, PortAt(nodes, r).remote.value);
    }
  }

  lemma LinkKeepsEnd(f: Image, nodes: seq<Node>, a: PortRef, b: PortRef, r: PortRef)
    requires f.Valid() && Has(nodes, a) && Has(nodes, b) && Has(nodes, r)
    ensures TrueEnd(f, LinkPorts(nodes, a, b), r) == TrueEnd(f, nodes, r)
  {
  }
}
