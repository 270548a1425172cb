/** Fabrics on which discovery, with every query answered, leaves nodes out or gives up. */
module Examples {
  import opened Prelude
  import opened MadLayout
  import opened Simulator
  import opened Topology
  import opened Search
  import opened ShortestPaths
  import opened Arrival
  import opened NvLink
  import Discovery
  import Fabrics
  import PI = PortInfo

  /** A port as `connect_ports` leaves a new one. */
  function UpPort(num: byte, remote: PortId): SimPort {
    SimPort(num, LinkUp(NewPort(num, 0).info), Some(remote))
  }

  function UpNode(nodeType: byte, nports: byte, guid: u64, ports: seq<SimPort>): SimNode {
    SimNode([], NodeInfo(1, 1, nodeType, nports, guid, guid, guid, 1, 0, 0, 1, Zeros(3), Zeros(24)), ports)
  }

  /** What a client records of such a port. */
  function UpRecord(num: byte, remote: Option<PortRef>): Port { Port(num, Active, LinkIsUp, 0, remote) }

  lemma UpReports(num: byte, x: byte)
    ensures DecodePort(Ok(LinkUp(NewPort(num, 0).info)), x) == Ok(UpRecord(x, None))
    ensures LiveInfo(LinkUp(NewPort(num, 0).info))
  {
    hide PI.Get, LinkUp, NewPort;
    var info := NewPort(num, 0).info;
    Fabrics.NewPortReports(num, 0);
    LinkUpStates(info);
    LinkUpKeeps(info, PI.Lid);
  }

  // ---- A cable that strays ----

  /**
   The agent's adapter, a switch of 73 ports, and behind its ring port 73 an adapter of one port
   whose port object bears the number 2.
   */
  function StrayFabric(): Image {
    Image([UpNode(1, 1, 10, [UpPort(1, PortId(1, 0))]),
           UpNode(2, 73, 20, [UpPort(1, PortId(0, 0)), UpPort(73, PortId(2, 0))]),
           UpNode(1, 1, 30, [UpPort(2, PortId(1, 1))])],
          Some(PortId(0, 0)))
  }

  lemma StrayFabricIsPlain()
    ensures StrayFabric().Valid() && Symmetric(StrayFabric()) && GuidsDistinct(StrayFabric())
  {
    hide LinkUp, NewPort, Symmetric;
    var f := StrayFabric();
    forall id: PortId | f.Has(id) ensures Mutual(f, id) {
      assert id in {PortId(0, 0), PortId(1, 0), PortId(1, 1), PortId(2, 0)};
    }
    InvolutionIsMutual(f);
    InvolutionIsSymmetric(f);
  }

  /** Where the ends and hops of the example lead. */
  lemma StrayEnds()
    ensures var f := StrayFabric();
            && f.Valid() && Peer(f, End(0, 1)) == Some(End(1, 1)) && Peer(f, End(1, 1)) == Some(End(0, 1))
            && Peer(f, End(1, 73)) == Some(End(2, 2))
            && Resolve(f, []) == Some(End(0, 1)) && Resolve(f, [1]) == Some(End(1, 1))
  {
    hide LinkUp, NewPort;
    StrayFabricIsPlain();
    var f := StrayFabric();
    assert f.Has(PortId(1, 0)) && f.Has(PortId(0, 0)) && f.Has(PortId(2, 0));
    assert [1][..0] == [];
  }

  /** The path out of the agent's port 1. */
  function OneHop(): Path { START_PATH[1 := 1] }

  lemma OneHopOk()
    ensures PathOk(1, OneHop()) && PathHops(OneHop()) == [1] && GetHopCount(OneHop()) == 1
    ensures PathOk(1, START_PATH) && PathHops(START_PATH) == []
  {
    hide PathHops, GetHopCount;
    StartPathOk(1);
    FirstHopOk(1, 1);
    FirstHopCount(1, 1);
  }

  /** What the first hop leaves: the adapter and the switch, linked ... */
  function StrayNodes(): seq<Node> { [StrayRoot(), StraySwitch()] }

  function StrayRoot(): Node {
    Node(0, START_PATH, CA, 10, Some([]), 1, 1, [UpRecord(1, Some(PortRef(1, 1)))])
  }

  function StraySwitch(): Node {
    Node(0, OneHop(), Switch, 20, Some([]), 1, 73, seq(74, x requires 0 <= x < 74 => StrayPort(x)))
  }

  function StrayPort(x: byte): Port {
    if x == 1 then UpRecord(1, Some(PortRef(0, 0)))
    else if x == 0 || x == 73 then UpRecord(x, None)
    else Placeholder(x)
  }

  function StrayMap(): Registry { map[10 := 0, 20 := 1] }

  /** ... and the switch's ring port to follow. */
  function StrayItem(): Item { Item(PortRef(1, 73), OneHop()) }

  lemma StrayHomes()
    ensures StrayFabric().Valid() && Home(StrayFabric(), StrayRoot()) == 0 && Home(StrayFabric(), StraySwitch()) == 1
    ensures Resolve(StrayFabric(), PathHops(START_PATH)) == Some(End(0, 1))
    ensures Resolve(StrayFabric(), PathHops(OneHop())) == Some(End(1, 1))
  {
    hide Resolve, PathHops, GetHopCount, StrayFabric, OneHop;
    StrayEnds();
    OneHopOk();
  }

  lemma StrayTable()
    ensures GoodTable(StrayRoot()) && GoodTable(StraySwitch())
  {
    hide OneHop;
    assert StraySwitch().ports[0] == UpRecord(0, None);
  }

  lemma StrayConsistent()
    ensures Consistent(StrayNodes(), StrayMap()) && GoodQueue(StrayNodes(), [StrayItem()])
  {
    hide PathOk, PathHops, OneHop, GoodTable;
    StrayTable();
    OneHopOk();
    assert StraySwitch().ports[73] == UpRecord(73, None);
  }

  /** A port of the fabric as its node describes it. */
  function Told(h: nat, x: byte): Option<Port> {
    if (h != 2 && x <= 1) || (h == 1 && x == 73) || (h == 2 && x == 2) then Some(UpRecord(x, None)) else None
  }

  lemma StrayFinds(h: nat, x: byte)
    requires h < 3
    ensures FindPort(StrayFabric().nodes[h].ports, x)
         == if x == (if h == 2 then 2 else 1) then Some(0) else if h == 1 && x == 73 then Some(1) else None
  {
    hide FindPort, NewPort, LinkUp;
    var ports := StrayFabric().nodes[h].ports;
    var r := FindPort(ports, x);
    assert ports[0].num == if h == 2 then 2 else 1;
    assert h == 1 ==> ports[1].num == 73;
  }

  lemma StrayDescribed(h: nat, x: byte)
    requires h < 3
    ensures Described(StrayFabric(), h, x) == Told(h, x)
    ensures Eligible(StrayFabric(), h, x) <==> Told(h, x).Some? && 1 <= x && h != 2
  {
    hide LinkUp, NewPort, DecodePort, LiveInfo, FindPort;
    StrayFinds(h, x);
    StrayFinds(h, 1);
    UpReports(1, x);
    UpReports(2, x);
    UpReports(73, x);
  }

  lemma StrayReadable(h: nat)
    requires h < 3
    ensures Readable(StrayFabric(), h)
  {
    hide LinkUp, NewPort, Described, Eligible, FindPort;
    var f := StrayFabric();
    forall x: byte | 1 <= x <= f.nodes[h].nodeInfo.nports && FindPort(f.nodes[h].ports, x).Some?
      ensures Described(f, h, x).Some?
    {
      StrayFinds(h, x);
      StrayDescribed(h, x);
    }
  }

  lemma StrayInfo()
    ensures var f := StrayFabric();
            && |f.nodes| == 3 && f.nodes[0].nodeInfo.nodeGuid == 10 && f.nodes[1].nodeInfo.nodeGuid == 20
            && f.nodes[0].nodeInfo.nports == 1 && f.nodes[1].nodeInfo.nports == 73 && f.nodes[2].nodeInfo.nports == 1
            && NodeTypeOf(f.nodes[0].nodeInfo.nodeType) == Some(CA)
            && NodeTypeOf(f.nodes[1].nodeInfo.nodeType) == Some(Switch)
            && NodeTypeOf(f.nodes[2].nodeInfo.nodeType) == Some(CA)
            && f.nodes[0].description == [] && f.nodes[1].description == []
  {
    hide LinkUp, NewPort, UpPort;
  }

  lemma StrayNode(h: nat)
    requires h < 2
    ensures StrayFabric().Valid() && ExactNode(StrayFabric(), StrayNodes()[h])
  {
    hide StrayFabric, StrayNodes, StrayRow, Eligible, Readable, Home, TrueNode, ExactPort, FindNumber, LidOf, Tabled;
    StrayKinds(h);
    StrayReadable(h);
    StrayTrue(h);
    StrayLid(h);
    StrayTabled(h);
    StrayRecords(h);
    StrayLive(h);
  }

  lemma StrayKinds(h: nat)
    requires h < 2
    ensures StrayFabric().Valid() && Home(StrayFabric(), StrayNodes()[h]) == h
    ensures StrayNodes()[h].lid == 0 && StrayNodes()[h].localPort == 1
  {
    hide StrayFabric, StrayPort, OneHop, Home;
    StrayHomes();
  }

  lemma StrayRecords(h: nat)
    requires h < 2
    ensures ExactRows(StrayFabric(), h, StrayNodes()[h])
  {
    hide StrayFabric, StrayPort, OneHop, ExactPort;
    StrayInfo();
    forall a | 0 <= a < |StrayNodes()[h].ports| ensures ExactPort(StrayFabric(), h, StrayNodes()[h].ports[a], 0) {
      StrayRecord(h, a);
    }
  }

  /** No row of the table is a placeholder for a port the fabric has. */
  ghost predicate ExactRows(f: Image, h: nat, n: Node) {
    && h < |f.nodes|
    && forall a :: 0 <= a < |n.ports| ==> ExactPort(f, h, n.ports[a], StandIn(n, n.ports[a].number))
  }

  lemma StrayTabled(h: nat)
    requires h < 2
    ensures forall x: byte :: FindNumber(StrayNodes()[h].ports, x) == StrayRow(h, x)
    ensures h < |StrayFabric().nodes| && forall x: byte :: StrayRow(h, x).Some? <==> Tabled(StrayFabric(), h, x)
  {
    hide StrayFabric, StrayPort, OneHop, FindNumber, Described, Eligible;
    StrayInfo();
    StrayDescribed(h, 0);
    forall x: byte ensures FindNumber(StrayNodes()[h].ports, x) == StrayRow(h, x) { StrayRows(h, x); }
  }

  lemma StrayLid(h: nat)
    requires h < 2
    ensures h < |StrayFabric().nodes| && LidOf(StrayFabric(), h, 1) == 0
  {
    hide StrayFabric, Described;
    StrayInfo();
    StrayDescribed(h, 0);
    StrayDescribed(h, 1);
  }

  lemma StrayAnswers(h: nat)
    requires h < 2
    ensures forall x: byte :: Described(StrayFabric(), h, x) == Told(h, x)
    ensures forall x: byte :: Eligible(StrayFabric(), h, x) <==> Told(h, x).Some? && 1 <= x
  {
    hide StrayFabric, Described, Eligible, Told;
    StrayInfo();
    forall x: byte
      ensures Described(StrayFabric(), h, x) == Told(h, x)
      ensures Eligible(StrayFabric(), h, x) <==> Told(h, x).Some? && 1 <= x
    {
      StrayDescribed(h, x);
    }
  }

  lemma StrayRecord(h: nat, a: nat)
    requires h < 2 && a < |StrayNodes()[h].ports|
    ensures var p := StrayNodes()[h].ports[a];
            TruePort(StrayFabric(), h, p, 0) && ExactPort(StrayFabric(), h, p, 0)
            && (p.Live() && p.number != 0 ==> Eligible(StrayFabric(), h, p.number))
  {
    hide StrayFabric, OneHop, Described, Eligible;
    StrayInfo();
    StrayDescribed(h, StrayNodes()[h].ports[a].number);
  }

  lemma StrayLive(h: nat)
    requires h < 2
    ensures LiveRows(StrayFabric(), h, StrayNodes()[h])
  {
    hide StrayFabric, OneHop, Eligible, FindNumber;
    StrayAnswers(h);
    forall x: byte ensures FindNumber(StrayNodes()[h].ports, x) == StrayRow(h, x) { StrayRows(h, x); }
  }

  /** Every port a client may follow is in the table, and live. */
  ghost predicate LiveRows(f: Image, h: nat, n: Node) {
    forall x: byte :: Eligible(f, h, x) ==>
      FindNumber(n.ports, x).Some? && n.ports[FindNumber(n.ports, x).value].Live()
  }

  lemma StrayTrue(h: nat)
    requires h < 2
    ensures StrayFabric().Valid() && TrueNode(StrayFabric(), StrayNodes()[h])
  {
    hide StrayFabric, StrayPort, Resolve, PathHops, OneHop, Described, Eligible, Home, TruePort;
    StrayHomes();
    StrayInfo();
    forall a | 0 <= a < |StrayNodes()[h].ports|
      ensures TruePort(StrayFabric(), h, StrayNodes()[h].ports[a], 0)
      ensures var p := StrayNodes()[h].ports[a]; p.Live() && p.number != 0 ==> Eligible(StrayFabric(), h, p.number)
    {
      StrayRecord(h, a);
    }
  }

  /** The row of a port number in a table. */
  function StrayRow(h: nat, x: byte): Option<nat> {
    if h == 0 then if x == 1 then Some(0) else None
    else if x <= 73 then Some(x) else None
  }

  lemma StrayRows(h: nat, x: byte)
    requires h < 2
    ensures FindNumber(StrayNodes()[h].ports, x) == StrayRow(h, x)
  {
    hide FindNumber, OneHop;
    var ports := StrayNodes()[h].ports;
    var r := FindNumber(ports, x);
    if StrayRow(h, x).Some? { assert ports[StrayRow(h, x).value].number == x; }
  }

  lemma StrayLinks()
    ensures StrayFabric().Valid() && TrueLinks(StrayFabric(), StrayNodes())
  {
    hide StrayFabric, Resolve, PathHops, OneHop, Home, Peer;
    StrayHomes();
    StrayEnds();
    var nodes := StrayNodes();
    assert PortAt(nodes, PortRef(1, 1)) == UpRecord(1, Some(PortRef(0, 0)));
    forall r: PortRef | Has(nodes, r) ensures TrueLink(StrayFabric(), nodes, r) {
      if r == PortRef(0, 0) || r == PortRef(1, 1) {
      } else {
        assert PortAt(nodes, r) == StrayPort(r.port);
      }
    }
  }

  lemma StraySound()
    ensures StrayFabric().Valid() && Sound(StrayFabric(), StrayNodes(), [StrayItem()])
  {
    hide StrayFabric, StrayPort, Resolve, PathHops, OneHop, Home, TrueLinks;
    StrayTrue(0);
    StrayTrue(1);
    StrayHomes();
    StrayLinks();
  }

  /**
   After the first hop `seq_discover_nvlink` is about to follow ring port 73. The cable ends at the
   adapter's port 2, of which its NodeInfo, with one port, does not tell.
   */
  lemma RingCableStrays()
    ensures var f, nodes, it := StrayFabric(), StrayNodes(), StrayItem();
            && f.Valid() && Symmetric(f) && GuidsDistinct(f)
            && Consistent(nodes, StrayMap()) && nodes != [] && nodes[0].drPath == START_PATH && GoodQueue(nodes, [it])
            && Sound(f, nodes, [it]) && ExactNodes(f, nodes) && Stuck(f, nodes, it)
  {
    hide StrayFabric, OneHop, Home, Resolve, PathHops, GetHopCount, Sound, Consistent, ExactNode, Readable, Symmetric;
    hide GuidsDistinct;
    StrayFabricIsPlain();
    StrayConsistent();
    StraySound();
    StrayNode(0);
    StrayNode(1);
    StrayEnds();
    StrayHomes();
    StrayInfo();
    StrayReadable(2);
    OneHopOk();
    assert StraySwitch().ports[73] == UpRecord(73, None);
  }

  /** So that turn gives up, once every query is answered. */
  method RingPortGivesUp(c: Discovery.Fabric) returns (r: Result<()>)
    requires c.truth == StrayFabric() && c.nodes == StrayNodes() && c.nodeMap == StrayMap() && c.Online()
    modifies c, c.requester
    ensures c.HearsAll() ==> r == Err(InvalidData)
  {
    hide StrayFabric, StrayNodes, StrayMap, StrayItem, Consistent, GoodQueue, Sound, ExactNodes, Strays, GetHopCount;
    hide Symmetric, GuidsDistinct, Truthful, Lossless, TrueEnd, Stuck, Lands, Grown, LinksKept, TrueNodes, IsLinked;
    RingCableStrays();
    assert [StrayItem()] + [] == [StrayItem()];
    var queue;
    r, queue := c.VisitNvlink(StrayItem(), []);
  }

  // ---- A node that cannot be recorded ----

  /** The agent's adapter, cabled to one whose port reports the physical state 0. */
  function MuteFabric(): Image {
    Image([UpNode(1, 1, 10, [UpPort(1, PortId(1, 0))]), UpNode(1, 1, 20, [MutePort(PortId(0, 0))])], Some(PortId(0, 0)))
  }

  function MutePort(remote: PortId): SimPort {
    SimPort(1, PI.Set(LinkUp(NewPort(1, 0).info), PI.PortPhysicalState, 0), Some(remote))
  }

  lemma MuteReports()
    ensures DecodePort(Ok(MutePort(PortId(0, 0)).info), 1) == Err(InvalidData)
  {
    hide PI.Get, PI.Set, LinkUp, NewPort;
    FourBits();
    PI.SetGetsSmall(LinkUp(NewPort(1, 0).info), PI.PortPhysicalState, 0);
  }

  lemma MuteFabricIsPlain()
    ensures MuteFabric().Valid() && Symmetric(MuteFabric()) && GuidsDistinct(MuteFabric())
  {
    hide LinkUp, NewPort, Symmetric, PI.Set;
    var f := MuteFabric();
    forall id: PortId | f.Has(id) ensures Mutual(f, id) {
      assert id in {PortId(0, 0), PortId(1, 0)};
    }
    InvolutionIsMutual(f);
    InvolutionIsSymmetric(f);
  }

  /**
   The neighbour is one hop out, over a live cabled port, but no client can record it. So no discovery,
   however well it is answered, finds all that some way leads to.
   */
  lemma NeighbourUnreadable(limit: int)
    requires limit >= 1
    ensures var f := MuteFabric();
            && f.Valid() && Symmetric(f) && GuidsDistinct(f) && Route(f, [])
            && Way(f, [1]) && Resolve(f, [1]) == Some(End(1, 1)) && !Readable(f, 1) && !WaysReadable(f, limit)
  {
    hide LinkUp, NewPort, PI.Set, PI.Get, Symmetric, GuidsDistinct;
    var f := MuteFabric();
    MuteFabricIsPlain();
    MuteReports();
    UpReports(1, 1);
    assert f.Has(PortId(0, 0)) && f.Has(PortId(1, 0));
    assert [1][..0] == [];
    assert FindPort(f.nodes[0].ports, 1) == Some(0) && FindPort(f.nodes[1].ports, 1) == Some(0);
    assert Resolve(f, []) == Some(End(0, 1)) && Resolve(f, [1]) == Some(End(1, 1));
    assert Described(f, 0, 1).Some? && Described(f, 1, 1).None?;
    assert Way(f, []) && Way(f, [1]);
  }
}
