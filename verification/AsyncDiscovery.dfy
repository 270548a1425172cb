/**
 The asynchronous discovery of examples/async_discovery.rs: many requests outstanding, replies in any
 order, a map from transaction id to request, and three tasks joined by channels.
 */
module AsyncDiscovery {
  import opened Prelude
  import opened MadLayout
  import opened Topology
  import opened Transaction
  import opened RoundTrip
  import opened Simulator
  import PI = PortInfo

  // ---- Data ----

  /** A request: `TimedSmp`, with what its bytes ask. */
  datatype Entry = Entry(guid: Option<u64>, query: Query, smp: UserMad, timestamp: nat)

  /** A port, and the (node, port number) it was linked with. */
  datatype AsyncPort = AsyncPort(portNum: byte, info: Option<PI.Attribute>, remote: Option<(u64, byte)>)

  datatype AsyncNode = AsyncNode(guid: u64, desc: Option<seq<byte>>, info: Option<NodeInfo>,
                                 ports: map<byte, AsyncPort>)

  /** What the receiving task tells the main task. */
  datatype Message = Recv(umad: UserMad) | Timeout

  /** Requests have been logged, all at this moment, and none forgotten. */
  ghost predicate Issued(before: seq<Entry>, after: seq<Entry>, now: nat) {
    before <= after && forall k :: |before| <= k < |after| ==> after[k].timestamp == now
  }

  /** A reply matched to the outstanding request with its transaction id. */
  datatype Match = Match(tid: u32, entry: Entry, reply: UserMad)

  const TID_SPACE: nat := 0x1_0000_0000
  const REQUEST_DEADLINE: nat := 1000

  function MadTid(u: UserMad): u32 { GetTid(u) % TID_SPACE }

  function MadAttr(u: UserMad): u16 { IbMadFromBytes(u.data).value.attrId }

  function MadPath(u: UserMad): Path { DrSmpFromBytes(IbMadFromBytes(u.data).value.data).value.initialPath }

  function MadArea(u: UserMad): (a: seq<byte>)
    ensures |a| == 64
  {
    DrSmpFromBytes(IbMadFromBytes(u.data).value.data).value.attrLayout
  }

  /** The attribute of a reply, in its wire order. */
  function AttrOfWire(w: u16): Option<SmiAttr> {
    if w == 0x1000 then Some(NodeDesc) else if w == 0x1100 then Some(NodeInfoAttr)
    else if w == 0x1500 then Some(PortInfoAttr) else None
  }

  /** The first port queried: 1 on a channel adapter, 0 on anything else. */
  function StartPort(ni: NodeInfo): nat { if ni.nodeType == 1 then 1 else 0 }

  /** The number of ports in StartPort..=nports. */
  function PortCount(ni: NodeInfo): nat {
    if StartPort(ni) <= ni.nports then ni.nports as int + 1 - StartPort(ni) else 0
  }

  lemma PortsFit(ni: NodeInfo)
    ensures StartPort(ni) + PortCount(ni) <= 256
  {
  }

  /** A reply the fabric makes to a request carries its attribute, path and id, and the true answer. */
  lemma GenuineReplyEchoes(f: Image, q: Query, hopCnt: byte, tid: u64, agentId: u32, timeout: u32, retries: u32,
                           reply: UserMad)
    requires f.Valid() && ReplyTo(f, BuildDrSmpUmad(q, hopCnt, tid, agentId, timeout, retries), reply)
    ensures AttrOfWire(MadAttr(reply)) == Some(q.attr) && MadPath(reply) == q.path
    ensures MadTid(reply) == tid % TID_SPACE && Answer(f, q) == Ok(MadArea(reply))
  {
    hide Respond, Answer, BuildDrSmpUmad, ToBe16, AttrId;
    var u := BuildDrSmpUmad(q, hopCnt, tid, agentId, timeout, retries);
    QueryRoundTrip(f, q, hopCnt, tid, agentId, timeout, retries);
    ReplyCarriesAnswer(f, q, hopCnt, tid, agentId, timeout, retries, reply);
    ParsedRequest(q, hopCnt, tid, agentId, timeout, retries);
    var data := IbUserMadFromBytes(Respond(f, u.ToBytes()).value).value.data;
    SameHeaderAndPath(reply.data, data);
    AreaOfMad(reply.data, reply.data[24..256]);
    WireOf(q.attr);
  }

  lemma SameHeaderAndPath(x: seq<byte>, y: seq<byte>)
    requires |x| == |y| == 256 && x[12..] == y[12..]
    ensures x[16..18] == y[16..18] && x[128..192] == y[128..192]
  {
    assert forall k :: 12 <= k < 256 ==> x[k] == x[12..][k - 12] && y[k] == y[12..][k - 12];
  }

  lemma WireOf(a: SmiAttr)
    ensures AttrOfWire(ToBe16(AttrId(a))) == Some(a)
  {
    WireAttrIds();
  }

  // ---- Counting outstanding requests ----

  /** The outstanding PortInfo requests. */
  ghost function PortQueries(m: map<u32, Entry>): set<u32> {
    set t | t in m && m[t].query.attr == PortInfoAttr
  }

  /** Each outstanding PortInfo request counts twice: its reply may cause one more request. */
  ghost function Load(m: map<u32, Entry>): nat {
    |m| + |PortQueries(m)|
  }

  /** What issuing a request for `attr` costs. */
  function Cost(attr: SmiAttr): nat {
    if attr == PortInfoAttr then 2 else 1
  }

  /** Storing a request adds at most its cost, even over an id that is still outstanding. */
  lemma LoadAdd(m: map<u32, Entry>, t: u32, e: Entry)
    ensures |m[t := e]| <= |m| + 1 && (t !in m ==> |m[t := e]| == |m| + 1)
    ensures |PortQueries(m[t := e])| + 1 <= |PortQueries(m)| + Cost(e.query.attr)
  {
    var w := m[t := e];
    assert w.Keys == m.Keys + {t};
    PortQueriesAdd(m, t, e);
  }

  lemma PortQueriesAdd(m: map<u32, Entry>, t: u32, e: Entry)
    ensures |PortQueries(m[t := e])| + 1 <= |PortQueries(m)| + Cost(e.query.attr)
  {
    var was, now := PortQueries(m), PortQueries(m[t := e]);
    if e.query.attr == PortInfoAttr {
      assert now == was + {t};
    } else {
      assert now == was - {t};
    }
  }

  lemma LoadRemove(m: map<u32, Entry>, t: u32)
    requires t in m
    ensures |m - {t}| == |m| - 1
    ensures |PortQueries(m - {t})| + Cost(m[t].query.attr) == |PortQueries(m)| + 1
  {
    assert PortQueries(m - {t}) == PortQueries(m) - {t};
    assert (m - {t}).Keys == m.Keys - {t};
  }

  lemma LoadDrop(m: map<u32, Entry>, gone: set<u32>)
    requires gone <= m.Keys
    ensures |m - gone| == |m| - |gone| && |PortQueries(m - gone)| <= |PortQueries(m)|
  {
    assert (m - gone).Keys == m.Keys - gone;
    assert PortQueries(m - gone) <= PortQueries(m);
    SubsetSize(PortQueries(m - gone), PortQueries(m));
  }

  lemma SubsetSize<T>(a: set<T>, b: set<T>)
    requires a <= b
    ensures |a| <= |b|
  {
    assert b == a + (b - a);
  }

  /** How many PortInfo requests were issued for a GUID. */
  function PortsQueried(log: seq<Entry>, guid: u64): nat {
    if log == [] then 0
    else PortsQueried(log[..|log| - 1], guid) + if IsPortQuery(log[|log| - 1], guid) then 1 else 0
  }

  predicate IsPortQuery(e: Entry, guid: u64) {
    e.query.attr == PortInfoAttr && e.guid == Some(guid)
  }

  lemma PortsQueriedAdd(log: seq<Entry>, e: Entry, guid: u64)
    ensures PortsQueried(log + [e], guid) == PortsQueried(log, guid) + if IsPortQuery(e, guid) then 1 else 0
  {
    assert (log + [e])[..|log|] == log;
  }

  /** 1 + the sum over the visited GUIDs of 1 + 2 * ports queried. */
  function Budget(log: seq<Entry>, order: seq<u64>): nat {
    if order == [] then 1 else Budget(log, order[..|order| - 1]) + 1 + 2 * PortsQueried(log, order[|order| - 1])
  }

  lemma BudgetVisit(log: seq<Entry>, order: seq<u64>, guid: u64)
    ensures Budget(log, order + [guid]) == Budget(log, order) + 1 + 2 * PortsQueried(log, guid)
  {
    assert (order + [guid])[..|order|] == order;
  }

  /** A PortInfo request of a visited GUID adds 2 to the budget; no other request changes it. */
  lemma {:induction false} BudgetIssue(log: seq<Entry>, order: seq<u64>, e: Entry)
    requires OnceEach(order)
    ensures Budget(log + [e], order) == Budget(log, order)
              + if e.query.attr == PortInfoAttr && e.guid.Some? && e.guid.value in order then 2 else 0
  {
    if order != [] {
      var n := |order| - 1;
      BudgetIssue(log, order[..n], e);
      PortsQueriedAdd(log, e, order[n]);
      assert order == order[..n] + [order[n]];
    }
  }

  /** At most 256 ports a node: at most 513 requests a visited GUID. */
  lemma {:induction false} BudgetBound(log: seq<Entry>, order: seq<u64>)
    requires forall g: u64 :: PortsQueried(log, g) <= 256
    ensures Budget(log, order) <= 1 + 513 * |order|
  {
    if order != [] { BudgetBound(log, order[..|order| - 1]); }
  }

  /** No GUID has more than 256 of its ports queried, and none but the visited have any. */
  ghost predicate FewPorts(log: seq<Entry>, order: seq<u64>) {
    forall g: u64 :: PortsQueried(log, g) <= 256 && (PortsQueried(log, g) > 0 ==> g in order)
  }

  lemma BudgetWithin(log: seq<Entry>, order: seq<u64>)
    requires FewPorts(log, order)
    ensures Budget(log, order) <= 1 + 513 * |order|
  {
    BudgetBound(log, order);
  }

  lemma FewPortsIssue(log: seq<Entry>, order: seq<u64>, e: Entry)
    requires FewPorts(log, order)
    requires e.query.attr == PortInfoAttr ==>
      e.guid.Some? && e.guid.value in order && PortsQueried(log, e.guid.value) < 256
    ensures FewPorts(log + [e], order)
  {
    forall g: u64 ensures PortsQueried(log + [e], g) <= 256 && (PortsQueried(log + [e], g) > 0 ==> g in order) {
      PortsQueriedAdd(log, e, g);
    }
  }

  /** Each GUID is visited once. */
  predicate OnceEach(order: seq<u64>) {
    forall i, j :: 0 <= i < j < |order| ==> order[i] != order[j]
  }

  // ---- The fabric being built ----

  function GetOrCreateNode(nodes: map<u64, AsyncNode>, guid: u64): (r: map<u64, AsyncNode>)
    ensures r.Keys == nodes.Keys + {guid} && forall g :: g in nodes ==> r[g] == nodes[g]
    ensures guid !in nodes ==> r[guid] == AsyncNode(guid, None, None, map[])
  {
    if guid in nodes then nodes else nodes[guid := AsyncNode(guid, None, None, map[])]
  }

  function GetOrCreatePort(nodes: map<u64, AsyncNode>, guid: u64, portNum: byte): (r: map<u64, AsyncNode>)
    ensures r.Keys == nodes.Keys + {guid} && portNum in r[guid].ports
    ensures forall g :: g in nodes ==> r[g].info == nodes[g].info && r[g].desc == nodes[g].desc
    ensures forall g :: g in nodes && g != guid ==> r[g] == nodes[g]
  {
    var m := GetOrCreateNode(nodes, guid);
    if portNum in m[guid].ports then m
    else m[guid := m[guid].(ports := m[guid].ports[portNum := AsyncPort(portNum, None, None)])]
  }

  function WithPort(nodes: map<u64, AsyncNode>, guid: u64, portNum: byte, p: AsyncPort): (r: map<u64, AsyncNode>)
    requires guid in nodes
    ensures r.Keys == nodes.Keys && forall g :: g in nodes ==> r[g].info == nodes[g].info && r[g].desc == nodes[g].desc
    ensures r[guid].ports == nodes[guid].ports[portNum := p] && forall g :: g in nodes && g != guid ==> r[g] == nodes[g]
  {
    nodes[guid := nodes[guid].(ports := nodes[guid].ports[portNum := p])]
  }

  function PortOf(nodes: map<u64, AsyncNode>, guid: u64, portNum: byte): Option<AsyncPort> {
    if guid in nodes && portNum in nodes[guid].ports then Some(nodes[guid].ports[portNum]) else None
  }

  /** The port as it is, or new. */
  function PortOrNew(nodes: map<u64, AsyncNode>, guid: u64, portNum: byte): AsyncPort {
    match PortOf(nodes, guid, portNum)
    case Some(port) => port
    case None => AsyncPort(portNum, None, None)
  }

  /** The same nodes, and perhaps these, with the same answers. */
  predicate SameAnswers(nodes: map<u64, AsyncNode>, r: map<u64, AsyncNode>, added: set<u64>) {
    && r.Keys == nodes.Keys + added
    && forall x :: x in nodes ==> r[x].info == nodes[x].info && r[x].desc == nodes[x].desc
  }

  function BothPorts(nodes: map<u64, AsyncNode>, g: u64, p: byte, h: u64, q: byte): (r: map<u64, AsyncNode>)
    ensures SameAnswers(nodes, r, {g, h})
  {
    GetOrCreatePort(GetOrCreatePort(nodes, g, p), h, q)
  }

  /** `link_ports`, creating the two ports first. */
  function LinkedPorts(nodes: map<u64, AsyncNode>, g: u64, p: byte, h: u64, q: byte): (r: map<u64, AsyncNode>)
    ensures SameAnswers(nodes, r, {g, h})
  {
    var m := BothPorts(nodes, g, p, h, q);
    var a := WithPort(m, g, p, PortOrNew(m, g, p).(remote := Some((h, q))));
    WithPort(a, h, q, PortOrNew(a, h, q).(remote := Some((g, p))))
  }

  /** The two ports exist and refer to each other, and no other port comes, goes or changes. */
  lemma LinkedPortsAre(nodes: map<u64, AsyncNode>, g: u64, p: byte, h: u64, q: byte, x: u64, y: byte)
    ensures PortOf(LinkedPorts(nodes, g, p, h, q), x, y)
         == if (x, y) == (h, q) then Some(PortOrNew(nodes, h, q).(remote := Some((g, p))))
            else if (x, y) == (g, p) then Some(PortOrNew(nodes, g, p).(remote := Some((h, q))))
            else PortOf(nodes, x, y)
  {
    hide GetOrCreatePort, WithPort, PortOf;
    var m := BothPorts(nodes, g, p, h, q);
    var left := PortOrNew(m, g, p).(remote := Some((h, q)));
    var a := WithPort(m, g, p, left);
    PortsCreated(nodes, g, p, h, q, x, y);
    PortsCreated(nodes, g, p, h, q, g, p);
    PortsCreated(nodes, g, p, h, q, h, q);
    PortSet(m, g, p, left, x, y);
    PortSet(m, g, p, left, h, q);
    PortSet(a, h, q, PortOrNew(a, h, q).(remote := Some((g, p))), x, y);
  }

  lemma PortsCreated(nodes: map<u64, AsyncNode>, g: u64, p: byte, h: u64, q: byte, x: u64, y: byte)
    ensures PortOf(GetOrCreatePort(GetOrCreatePort(nodes, g, p), h, q), x, y)
         == if (x, y) == (g, p) || (x, y) == (h, q) then Some(PortOrNew(nodes, x, y)) else PortOf(nodes, x, y)
  {
    hide GetOrCreatePort, PortOf;
    PortCreated(nodes, g, p, x, y);
    PortCreated(nodes, g, p, h, q);
    PortCreated(GetOrCreatePort(nodes, g, p), h, q, x, y);
  }

  lemma PortSet(nodes: map<u64, AsyncNode>, g: u64, p: byte, port: AsyncPort, x: u64, y: byte)
    requires g in nodes
    ensures PortOf(WithPort(nodes, g, p, port), x, y) == if (x, y) == (g, p) then Some(port) else PortOf(nodes, x, y)
  {
  }

  lemma PortCreated(nodes: map<u64, AsyncNode>, g: u64, p: byte, x: u64, y: byte)
    ensures PortOf(GetOrCreatePort(nodes, g, p), x, y)
         == if (x, y) == (g, p) then Some(PortOrNew(nodes, g, p)) else PortOf(nodes, x, y)
  {
  }

  /** The table a first NodeInfo answer opens: ports start..=nports, none of them known yet. */
  function NewTable(start: nat, nports: byte): map<byte, AsyncPort> {
    map i: byte | start <= i <= nports :: AsyncPort(i, None, None)
  }

  // ---- What one reply does ----

  /** The node a first NodeInfo answer opens, or the known one with its newer answer. */
  function Learned(nodes: map<u64, AsyncNode>, ni: NodeInfo): (r: map<u64, AsyncNode>)
    ensures r.Keys == nodes.Keys + {ni.nodeGuid} && r[ni.nodeGuid].info == Some(ni)
    ensures forall g :: g in nodes && g != ni.nodeGuid ==> r[g] == nodes[g]
  {
    var m := GetOrCreateNode(nodes, ni.nodeGuid);
    var n := m[ni.nodeGuid];
    var ports := if n.ports == map[] then NewTable(StartPort(ni), ni.nports) else n.ports;
    m[ni.nodeGuid := n.(info := Some(ni), ports := ports)]
  }

  /** The first answer of a node opens its table, with its ports and none known yet; a later one leaves it alone. */
  lemma LearnedPorts(nodes: map<u64, AsyncNode>, ni: NodeInfo, x: u64, y: byte)
    ensures PortOf(Learned(nodes, ni), x, y)
         == if x == ni.nodeGuid && (x !in nodes || nodes[x].ports == map[])
            then if y <= ni.nports && (y == 0 ==> ni.nodeType != 1) then Some(AsyncPort(y, None, None)) else None
            else PortOf(nodes, x, y)
  {
  }

  /** A NodeInfo answer to a request sent for node `from` also links the port it was sent through. */
  function AfterNodeInfo(nodes: map<u64, AsyncNode>, ni: NodeInfo, from: Option<u64>,
                         path: Path): (r: map<u64, AsyncNode>)
    ensures ni.nodeGuid in r && r[ni.nodeGuid].info == Some(ni)
    ensures forall g :: g in nodes && g != ni.nodeGuid ==>
      g in r && r[g].info == nodes[g].info && r[g].desc == nodes[g].desc
  {
    var m := Learned(nodes, ni);
    match from
    case None => m
    case Some(g) => LinkedPorts(m, g, path[GetHopCount(path)], ni.nodeGuid, ni.localPort)
  }

  /** A NodeInfo answer touches no port of another node but the one its request left through. */
  lemma PortsElsewhere(nodes: map<u64, AsyncNode>, ni: NodeInfo, from: Option<u64>, path: Path, x: u64, y: byte)
    requires x != ni.nodeGuid && !(from == Some(x) && y == path[GetHopCount(path)])
    ensures PortOf(AfterNodeInfo(nodes, ni, from, path), x, y) == PortOf(nodes, x, y)
  {
    hide GetHopCount, Learned, LinkedPorts;
    var m := Learned(nodes, ni);
    if from.Some? { LinkedPortsAre(m, from.value, path[GetHopCount(path)], ni.nodeGuid, ni.localPort, x, y); }
  }

  /** The nodes of these GUIDs have answered NodeInfo. */
  predicate Known(visited: set<u64>, nodes: map<u64, AsyncNode>) {
    forall g :: g in visited ==> g in nodes && nodes[g].info.Some?
  }

  lemma AfterNodeInfoKnown(visited: set<u64>, nodes: map<u64, AsyncNode>, ni: NodeInfo, from: Option<u64>, path: Path)
    requires Known(visited, nodes)
    ensures Known(visited + {ni.nodeGuid}, AfterNodeInfo(nodes, ni, from, path))
  {
    hide AfterNodeInfo;
  }

  /** The NodeDesc query and the PortInfo queries of ports start..=nports. */
  function BurstOf(path: Path, ni: NodeInfo): (s: seq<Query>)
    ensures |s| == 1 + PortCount(ni)
  {
    [Query(path, NodeDesc, 0)] + PortQueriesFrom(path, StartPort(ni), PortCount(ni))
  }

  function PortQueriesFrom(path: Path, start: nat, n: nat): (s: seq<Query>)
    requires start + n <= 256
    ensures |s| == n && forall i :: 0 <= i < n ==> s[i] == Query(path, PortInfoAttr, start + i)
  {
    seq(n, i requires 0 <= i < n => Query(path, PortInfoAttr, start + i))
  }

  /**
   What the first answer of a node makes of it to ask: its description once, and its ports 1 to nports
   once each, with port 0 if it is no channel adapter.
   */
  predicate IsAsked(path: Path, ni: NodeInfo, q: Query) {
    && q.path == path
    && match q.attr
       case NodeDesc => q.modifier == 0
       case NodeInfoAttr => false
       case PortInfoAttr => q.modifier <= ni.nports && (q.modifier == 0 ==> ni.nodeType != 1)
  }

  lemma BurstAsks(path: Path, ni: NodeInfo, q: Query)
    ensures multiset(BurstOf(path, ni))[q] == if IsAsked(path, ni, q) then 1 else 0
  {
    var s := BurstOf(path, ni);
    if IsAsked(path, ni, q) {
      assert s[if q.attr == NodeDesc then 0 else 1 + q.modifier - StartPort(ni)] == q;
    }
    CountDistinct(s, q);
  }

  /** Without repetitions a value occurs once or not at all. */
  lemma {:induction false} CountDistinct<T>(s: seq<T>, x: T)
    requires forall i, j :: 0 <= i < j < |s| ==> s[i] != s[j]
    ensures multiset(s)[x] == if x in s then 1 else 0
  {
    if s != [] {
      var init, last := s[..|s| - 1], s[|s| - 1];
      CountDistinct(init, x);
      assert s == init + [last];
    }
  }

  lemma BurstAdded(before: seq<Query>, after: seq<Query>, path: Path, ni: NodeInfo)
    requires after == before + BurstOf(path, ni)
    ensures forall q :: multiset(after[|before|..])[q] == if IsAsked(path, ni, q) then 1 else 0
  {
    hide BurstOf, IsAsked;
    assert after[|before|..] == BurstOf(path, ni);
    forall q ensures multiset(after[|before|..])[q] == if IsAsked(path, ni, q) then 1 else 0 {
      BurstAsks(path, ni, q);
    }
  }

  lemma PortsAsked(ni: NodeInfo)
    ensures PortCount(ni) == ni.nports as int + if ni.nodeType == 1 then 0 else 1
  {
  }

  /** Which port a PortInfo answer describes and the path through it; or that the search stops there. */
  datatype Onward = Endpoint | Onward(port: byte, path: Path)

  function TypeOf(nodes: map<u64, AsyncNode>, guid: Option<u64>): Option<byte> {
    if guid.Some? && guid.value in nodes && nodes[guid.value].info.Some?
    then Some(nodes[guid.value].info.value.nodeType) else None
  }

  /** A path with no room for one more hop. */
  predicate Full(path: Path) { GetHopCount(path) == 63 }

  function Through(nodeType: Option<byte>, sent: byte, path: Path): Onward
    requires !(nodeType == Some(2) && Full(path))
  {
    match nodeType
    case None => Onward(0, path)
    case Some(t) =>
      if t == 1 then
        if path == START_PATH then Onward(1, ThroughPort(path, sent)) else Endpoint
      else if t == 2 then Onward(sent, path[GetHopCount(path) + 1 := sent])
      else Onward(1, path)
  }

  function ThroughPort(path: Path, sent: byte): Path
    requires path == START_PATH
  {
    StartPathOk(1);
    path[GetHopCount(path) + 1 := sent]
  }

  /**
   Off a switch the path goes on by exactly the port asked about, unless that is port 0: then the
   path is unchanged and its NodeInfo query asks the switch itself again.
   */
  lemma SwitchPathGrows(base: nat, sent: byte, path: Path)
    requires PathOk(base, path) && |PathHops(path)| >= 1 && !Full(path)
    ensures Through(Some(2), sent, path).Onward?
    ensures var longer := Through(Some(2), sent, path).path;
            && (longer == path <==> sent == 0)
            && (sent != 0 ==> PathOk(base, longer) && PathHops(longer) == PathHops(path) + [sent])
  {
    hide PathOk, PathHops, GetHopCount;
    ZeroAfterHops(base, path);
    if sent != 0 { ExtendPath(base, path, sent); }
  }

  lemma ZeroAfterHops(base: nat, path: Path)
    requires PathOk(base, path) && |PathHops(path)| >= 1 && !Full(path)
    ensures path[GetHopCount(path) + 1] == 0
  {
    hide PathHops, GetHopCount;
    HopsNonzero(path);
    HopCountOfEncode(base, PathHops(path));
  }

  function AfterPortInfo(nodes: map<u64, AsyncNode>, pi: PI.Attribute, guid: Option<u64>,
                         on: Onward): (r: map<u64, AsyncNode>)
    ensures nodes.Keys <= r.Keys
    ensures forall g :: g in nodes ==> r[g].info == nodes[g].info && r[g].desc == nodes[g].desc
  {
    match (guid, on)
    case (None, _) => nodes
    case (Some(g), Endpoint) => GetOrCreateNode(nodes, g)
    case (Some(g), Onward(p, _)) =>
      var m := GetOrCreatePort(nodes, g, p);
      WithPort(m, g, p, m[g].ports[p].(info := Some(pi)))
  }

  /** The port a PortInfo answer is stored at: by the type of its node, and nowhere at the end of a path. */
  function StoredAt(nodeType: Option<byte>, sent: byte, path: Path): Option<byte> {
    match nodeType
    case None => Some(0)
    case Some(t) => if t == 2 then Some(sent) else if t == 1 && path != START_PATH then None else Some(1)
  }

  /** The answer is stored at that port, and no other port comes, goes or changes. */
  lemma PortInfoStored(nodes: map<u64, AsyncNode>, pi: PI.Attribute, g: u64, sent: byte, path: Path, x: u64, y: byte)
    requires !(TypeOf(nodes, Some(g)) == Some(2) && Full(path))
    ensures var nodeType := TypeOf(nodes, Some(g));
            var at := StoredAt(nodeType, sent, path);
            var stored := at.Some? && (x, y) == (g, at.value);
            PortOf(AfterPortInfo(nodes, pi, Some(g), Through(nodeType, sent, path)), x, y)
            == if stored then Some(PortOrNew(nodes, g, y).(info := Some(pi))) else PortOf(nodes, x, y)
  {
    hide GetHopCount, GetOrCreatePort, Full;
    var nodeType := TypeOf(nodes, Some(g));
    match Through(nodeType, sent, path) {
      case Endpoint =>
      case Onward(p, _) =>
        PortCreated(nodes, g, p, x, y);
        PortCreated(nodes, g, p, g, p);
    }
  }

  /** The search goes on where the answer is stored, through a switch or the agent's own adapter by the port asked. */
  lemma PathThrough(nodeType: Option<byte>, sent: byte, path: Path)
    requires !(nodeType == Some(2) && Full(path))
    ensures var on := Through(nodeType, sent, path);
            && (on.Endpoint? <==> nodeType == Some(1) && path != START_PATH)
            && (on.Onward? && nodeType == Some(1) ==> on.path == START_PATH[1 := sent])
            && (nodeType == Some(2) ==> on.path == path[GetHopCount(path) + 1 := sent])
            && (on.Onward? && nodeType !in {Some(1), Some(2)} ==> on.path == path)
  {
    StartPathOk(1);
    RunOf(START_PATH, 1, 0);
  }

  /** The port asked about is the one in the request's bytes. */
  lemma SentPortOnWire(e: Entry, hopCnt: byte, tid: u64, agentId: u32, timeout: u32, retries: u32)
    requires e.smp == BuildDrSmpUmad(e.query, hopCnt, tid, agentId, timeout, retries)
    ensures SentPort(e) == ToBe32(IbMadFromBytes(e.smp.data).value.attrMod) % 256
  {
    hide BuildDrSmpUmad, ToBe32;
    ParsedRequest(e.query, hopCnt, tid, agentId, timeout, retries);
    SwapTwice(e.query.modifier);
  }

  /** A request carries the number of hops of its path. */
  lemma RequestHops(q: Query, n: nat, agentId: u32, timeout: u32)
    requires PathOk(1, q.path)
    ensures RequestOf(q, n, agentId, timeout).data[7] == |PathHops(q.path)|
  {
    hide BuildDrSmpUmad, PathHops, GetHopCount;
    ParsedRequest(q, GetHopCount(q.path), n % TID_SPACE, agentId, timeout, 1);
    if PathHops(q.path) == [] {
      assert q.path == START_PATH;
      NoHopCount();
    } else {
      HopsNonzero(q.path);
      HopCountOfEncode(1, PathHops(q.path));
    }
  }

  lemma NoHopCount()
    ensures GetHopCount(START_PATH) == 0
  {
    RunOf(START_PATH, 1, 0);
  }

  /** States 3 or 4, and physical state 5. */
  predicate IsUp(pi: PI.Attribute) {
    PI.Get(pi, PI.PortState) in {3, 4} && PI.Get(pi, PI.PortPhysicalState) == 5
  }

  /** State 3, which the handler takes for Init, is Armed. */
  lemma UpMeans(pi: PI.Attribute)
    ensures IsUp(pi) <==>
              LinkStateOf(PI.Get(pi, PI.PortState)) in {Some(Armed), Some(Active)}
              && PhysStateOf(PI.Get(pi, PI.PortPhysicalState)) == Some(LinkIsUp)
  {
    hide PI.Get;
  }

  function SentPort(e: Entry): byte { e.query.modifier % 256 }

  function NodeInfoIn(u: UserMad): NodeInfo { NodeInfoFromBytes(MadArea(u)).value }

  /** When the handlers fail: a description of no known node, or a switch at the end of a full path. */
  predicate Panics(nodes: map<u64, AsyncNode>, e: Entry, reply: UserMad) {
    match AttrOfWire(MadAttr(reply))
    case Some(NodeDesc) => e.guid.None? || e.guid.value !in nodes
    case Some(PortInfoAttr) => TypeOf(nodes, e.guid) == Some(2) && Full(MadPath(reply))
    case _ => false
  }

  /** 63 hops from a channel adapter: the longest path. */
  const FULL_PATH: Path := [0] + seq(63, i => 1)

  lemma FullPathIsFull()
    ensures Full(FULL_PATH)
  {
    RunOf(FULL_PATH, 1, 63);
  }

  /** The handlers do fail: a PortInfo reply over a full path, for a known switch. */
  lemma FullPathPanics(ni: NodeInfo, timestamp: nat)
    requires ni.nodeType == 2
    ensures var nodes := map[ni.nodeGuid := AsyncNode(ni.nodeGuid, None, Some(ni), map[])];
            var q := Query(FULL_PATH, PortInfoAttr, 1);
            var smp := BuildDrSmpUmad(q, 63, 0, 0, 0, 1);
            var e := Entry(Some(ni.nodeGuid), q, smp, timestamp);
            Echoes(Match(0, e, smp)) && Full(MadPath(smp)) && Panics(nodes, e, smp)
  {
    hide BuildDrSmpUmad, ToBe16, ToBe32, AttrId, GetHopCount;
    FullPathIsFull();
    ParsedRequest(Query(FULL_PATH, PortInfoAttr, 1), 63, 0, 0, 0, 1);
    WireOf(PortInfoAttr);
  }

  /** The nodes after a reply was handled. */
  function NodesAfter(nodes: map<u64, AsyncNode>, e: Entry, reply: UserMad): map<u64, AsyncNode>
    requires !Panics(nodes, e, reply)
  {
    match AttrOfWire(MadAttr(reply))
    case Some(NodeDesc) => nodes[e.guid.value := nodes[e.guid.value].(desc := Some(DecodeDesc(MadArea(reply))))]
    case Some(NodeInfoAttr) => AfterNodeInfo(nodes, NodeInfoIn(reply), e.guid, MadPath(reply))
    case Some(PortInfoAttr) =>
      AfterPortInfo(nodes, MadArea(reply), e.guid, Through(TypeOf(nodes, e.guid), SentPort(e), MadPath(reply)))
    case None => nodes
  }

  /** The requests a reply causes. */
  function AskedBy(nodes: map<u64, AsyncNode>, visited: set<u64>, e: Entry, reply: UserMad): seq<Query>
    requires !Panics(nodes, e, reply)
  {
    match AttrOfWire(MadAttr(reply))
    case Some(NodeInfoAttr) =>
      if NodeInfoIn(reply).nodeGuid in visited then [] else BurstOf(MadPath(reply), NodeInfoIn(reply))
    case Some(PortInfoAttr) =>
      var on := Through(TypeOf(nodes, e.guid), SentPort(e), MadPath(reply));
      if on.Onward? && IsUp(MadArea(reply)) then [Query(on.path, NodeInfoAttr, 0)] else []
    case _ => []
  }

  // ---- Conservation of transaction ids ----

  predicate Echoes(m: Match) {
    AttrOfWire(MadAttr(m.reply)) == Some(m.entry.query.attr)
  }

  /** Every reply matched carried the attribute its request asked for. */
  predicate Echoed(matches: seq<Match>) {
    forall i :: 0 <= i < |matches| ==> Echoes(matches[i])
  }

  lemma EchoedAdd(matches: seq<Match>, m: Match)
    ensures Echoed(matches + [m]) <==> Echoed(matches) && Echoes(m)
  {
    assert (matches + [m])[|matches|] == m;
    if Echoed(matches + [m]) {
      forall i | 0 <= i < |matches| ensures Echoes(matches[i]) {
        assert (matches + [m])[i] == matches[i];
      }
    }
  }

  /** No transaction id is matched twice. */
  predicate NoRepeats(s: seq<Match>) {
    forall i, j :: 0 <= i < j < |s| ==> s[i].tid != s[j].tid
  }

  /** Every id issued is outstanding, matched once, or expired. */
  ghost predicate Conserved(log: seq<Entry>, smpMap: map<u32, Entry>, matches: seq<Match>, expired: set<u32>) {
    && |smpMap| + |matches| + |expired| == |log| && NoRepeats(matches)
    && (forall t :: t in smpMap ==> t < |log| && t !in expired)
    && (forall i :: 0 <= i < |matches| ==>
          matches[i].tid < |log| && matches[i].tid !in expired && matches[i].tid !in smpMap)
    && (forall t :: t in expired ==> t < |log|)
  }

  /** An id stands for the request issued under it, and a reply is matched by its own id. */
  ghost predicate Named(log: seq<Entry>, smpMap: map<u32, Entry>, matches: seq<Match>) {
    && (forall t :: t in smpMap ==> t < |log| && smpMap[t] == log[t])
    && (forall i :: 0 <= i < |matches| ==> NamedMatch(log, matches[i]))
  }

  predicate NamedMatch(log: seq<Entry>, m: Match) {
    m.tid < |log| && m.entry == log[m.tid] && MadTid(m.reply) == m.tid
  }

  lemma ConservedIssue(log: seq<Entry>, m: map<u32, Entry>, matches: seq<Match>, expired: set<u32>, t: u32, e: Entry)
    requires Conserved(log, m, matches, expired) && t == |log|
    ensures t !in m && Conserved(log + [e], m[t := e], matches, expired)
  {
    LoadAdd(m, t, e);
  }

  lemma ConservedMatch(log: seq<Entry>, m: map<u32, Entry>, matches: seq<Match>, expired: set<u32>, x: Match)
    requires Conserved(log, m, matches, expired) && x.tid in m
    ensures Conserved(log, m - {x.tid}, matches + [x], expired)
  {
    LoadRemove(m, x.tid);
  }

  lemma ConservedExpire(log: seq<Entry>, m: map<u32, Entry>, matches: seq<Match>, expired: set<u32>, gone: set<u32>)
    requires Conserved(log, m, matches, expired) && gone <= m.Keys
    ensures Conserved(log, m - gone, matches, expired + gone)
  {
    LoadDrop(m, gone);
    assert expired !! gone;
  }

  lemma NamedIssue(log: seq<Entry>, m: map<u32, Entry>, matches: seq<Match>, t: u32, e: Entry)
    requires Named(log, m, matches) && t == |log|
    ensures Named(log + [e], m[t := e], matches)
  {
    hide MadTid;
    forall i | 0 <= i < |matches| ensures NamedMatch(log + [e], matches[i]) {
      assert NamedMatch(log, matches[i]);
    }
  }

  lemma NamedTake(log: seq<Entry>, m: map<u32, Entry>, matches: seq<Match>, x: Match)
    requires Named(log, m, matches) && x.tid in m && x.entry == m[x.tid] && MadTid(x.reply) == x.tid
    ensures Named(log, m - {x.tid}, matches + [x])
  {
    hide MadTid;
    forall i | 0 <= i < |matches + [x]| ensures NamedMatch(log, (matches + [x])[i]) {
      if i < |matches| { assert NamedMatch(log, matches[i]); }
    }
  }

  lemma NamedDrop(log: seq<Entry>, m: map<u32, Entry>, matches: seq<Match>, gone: set<u32>)
    requires Named(log, m, matches)
    ensures Named(log, m - gone, matches)
  {
    hide NamedMatch;
  }

  // ---- Genuine replies ----

  /** The n-th request, as `build_and_store_smp` builds it. */
  function RequestOf(q: Query, n: nat, agentId: u32, timeout: u32): UserMad {
    BuildDrSmpUmad(q, GetHopCount(q.path), n % TID_SPACE, agentId, timeout, 1)
  }

  /** The log holds the bytes of each request. */
  ghost predicate AsBuilt(log: seq<Entry>, agentId: u32, timeout: u32) {
    forall i :: 0 <= i < |log| ==> log[i].smp == RequestOf(log[i].query, i, agentId, timeout)
  }

  /** Every reply matched was made by the fabric to some request of the log. */
  ghost predicate AllGenuine(f: Image, log: seq<Entry>, matches: seq<Match>)
    requires f.Valid()
  {
    forall i :: 0 <= i < |matches| ==> AnswersSome(f, log, matches[i].reply)
  }

  ghost predicate AnswersSome(f: Image, log: seq<Entry>, reply: UserMad)
    requires f.Valid()
  {
    exists k :: 0 <= k < |log| && ReplyTo(f, log[k].smp, reply)
  }

  /** While ids last, genuine replies echo the attribute and the path of the request they are matched with. */
  lemma GenuineMatchEchoes(f: Image, log: seq<Entry>, m: Match, agentId: u32, timeout: u32)
    requires f.Valid() && |log| <= TID_SPACE && AsBuilt(log, agentId, timeout)
    requires NamedMatch(log, m) && AnswersSome(f, log, m.reply)
    ensures Echoes(m) && MadPath(m.reply) == m.entry.query.path && Answer(f, m.entry.query) == Ok(MadArea(m.reply))
  {
    hide BuildDrSmpUmad, ReplyTo, MadTid, MadAttr, MadPath, MadArea, Answer, GetHopCount;
    var k :| 0 <= k < |log| && ReplyTo(f, log[k].smp, m.reply);
    SmallMod(k, TID_SPACE);
    GenuineReplyEchoes(f, log[k].query, GetHopCount(log[k].query.path), k % TID_SPACE, agentId, timeout, 1, m.reply);
  }

  /** ... so the hypothesis on echoes holds of a run over genuine replies, whose failures need a full path asked for. */
  lemma GenuineRunEchoes(f: Image, log: seq<Entry>, smpMap: map<u32, Entry>, matches: seq<Match>, agentId: u32,
                         timeout: u32)
    requires f.Valid() && |log| <= TID_SPACE && AsBuilt(log, agentId, timeout) && Named(log, smpMap, matches)
    requires AllGenuine(f, log, matches)
    ensures Echoed(matches)
    ensures FullReply(matches) ==> exists k :: 0 <= k < |log| && Full(log[k].query.path)
  {
    hide BuildDrSmpUmad, MadTid, MadAttr, MadPath, MadArea, Answer, GetHopCount, Echoes, AnswersSome, Full;
    forall i | 0 <= i < |matches|
      ensures Echoes(matches[i]) && matches[i].tid < |log|
      ensures MadPath(matches[i].reply) == log[matches[i].tid].query.path
    {
      GenuineMatchEchoes(f, log, matches[i], agentId, timeout);
    }
  }

  // ---- Visits and what was heard ----

  /** The reply gives this GUID as its node's. */
  predicate TellsOf(m: Match, guid: u64) {
    AttrOfWire(MadAttr(m.reply)) == Some(NodeInfoAttr) && NodeInfoIn(m.reply).nodeGuid == guid
  }

  /** Every GUID visited came in a reply matched. */
  ghost predicate Heard(order: seq<u64>, matches: seq<Match>) {
    forall g :: g in order ==> exists i :: 0 <= i < |matches| && TellsOf(matches[i], g)
  }

  lemma HeardMore(order: seq<u64>, matches: seq<Match>, visited: set<u64>, m: Match)
    requires Heard(order, matches)
    ensures Heard(order + NewlyVisited(visited, m.reply), matches + [m])
  {
    hide MadAttr, NodeInfoIn;
    var more := matches + [m];
    forall g | g in order + NewlyVisited(visited, m.reply) ensures exists i :: 0 <= i < |more| && TellsOf(more[i], g) {
      if g in order {
        var i :| 0 <= i < |matches| && TellsOf(matches[i], g);
        assert more[i] == matches[i];
      } else {
        assert TellsOf(more[|matches|], g);
      }
    }
  }

  /** The GUIDs of a fabric's nodes. */
  ghost function Guids(nodes: seq<SimNode>): (s: set<u64>)
    ensures |s| <= |nodes|
    ensures forall n :: 0 <= n < |nodes| ==> nodes[n].nodeInfo.nodeGuid in s
  {
    if nodes == [] then {} else Guids(nodes[..|nodes| - 1]) + {nodes[|nodes| - 1].nodeInfo.nodeGuid}
  }

  /** A true answer to a NodeInfo query gives a GUID of the fabric. */
  lemma TrueGuid(f: Image, q: Query, area: seq<byte>)
    requires f.Valid() && q.attr == NodeInfoAttr && Answer(f, q) == Ok(area)
    ensures NodeInfoFromBytes(area).Some? && NodeInfoFromBytes(area).value.nodeGuid in Guids(f.nodes)
  {
    hide Resolve, PathHops;
    var e := Resolve(f, PathHops(q.path)).value;
    NodeInfoRoundTrip(f.nodes[e.node].nodeInfo.(localPort := e.num));
  }

  /** Over genuine replies every GUID visited is one of the fabric's. */
  lemma GenuineGuids(f: Image, log: seq<Entry>, smpMap: map<u32, Entry>, matches: seq<Match>, order: seq<u64>,
                     agentId: u32, timeout: u32)
    requires f.Valid() && |log| <= TID_SPACE && AsBuilt(log, agentId, timeout) && Named(log, smpMap, matches)
    requires AllGenuine(f, log, matches) && Heard(order, matches)
    ensures forall g :: g in order ==> g in Guids(f.nodes)
  {
    hide BuildDrSmpUmad, MadTid, MadAttr, MadPath, MadArea, Answer, GetHopCount, AnswersSome, AsBuilt, Guids;
    forall g | g in order ensures g in Guids(f.nodes) {
      var i :| 0 <= i < |matches| && TellsOf(matches[i], g);
      GenuineMatchEchoes(f, log, matches[i], agentId, timeout);
      TrueGuid(f, matches[i].entry.query, MadArea(matches[i].reply));
    }
  }

  /** Every reply matched was made by the fabric to a request issued before it came. */
  ghost predicate Causal(f: Image, log: seq<Entry>, matches: seq<Match>, issuedBy: seq<nat>)
    requires f.Valid()
  {
    && Timed(log, matches, issuedBy)
    && forall i :: 0 <= i < |matches| ==> AnswersSome(f, log[..issuedBy[i]], matches[i].reply)
  }

  /** How many requests had been issued when each reply was matched. */
  ghost predicate Timed(log: seq<Entry>, matches: seq<Match>, issuedBy: seq<nat>) {
    |issuedBy| == |matches| && forall i :: 0 <= i < |matches| ==> issuedBy[i] <= |log|
  }

  lemma CausalIsGenuine(f: Image, log: seq<Entry>, matches: seq<Match>, issuedBy: seq<nat>)
    requires f.Valid() && Causal(f, log, matches, issuedBy)
    ensures AllGenuine(f, log, matches)
  {
    hide ReplyTo;
    forall i | 0 <= i < |matches| ensures AnswersSome(f, log, matches[i].reply) {
      var k :| 0 <= k < issuedBy[i] && ReplyTo(f, log[..issuedBy[i]][k].smp, matches[i].reply);
      assert log[k] == log[..issuedBy[i]][k];
    }
  }

  /** What is causal was so before the last replies came. */
  lemma CausalBefore(f: Image, log: seq<Entry>, matches: seq<Match>, issuedBy: seq<nat>,
                     log': seq<Entry>, matches': seq<Match>, issuedBy': seq<nat>)
    requires f.Valid() && log <= log' && matches <= matches' && issuedBy <= issuedBy'
    requires Timed(log, matches, issuedBy) && Causal(f, log', matches', issuedBy')
    ensures Causal(f, log, matches, issuedBy)
  {
    hide AnswersSome;
    forall i | 0 <= i < |matches| ensures AnswersSome(f, log[..issuedBy[i]], matches[i].reply) {
      assert matches'[i] == matches[i] && issuedBy'[i] == issuedBy[i];
      assert log'[..issuedBy[i]] == log[..issuedBy[i]];
    }
  }

  /** A fabric so small that ids cannot run out: no step issues more than 257 requests. */
  ghost predicate IdsSuffice(f: Image) {
    513 * |f.nodes| + 258 <= TID_SPACE
  }

  /** Started within the ids, over genuine replies from such a fabric, a run stays within its bound. */
  ghost predicate IdsLast(f: Image, start: nat, log: seq<Entry>, matches: seq<Match>, issuedBy: seq<nat>)
    requires f.Valid()
  {
    start <= TID_SPACE && IdsSuffice(f) && Causal(f, log, matches, issuedBy) ==> |log| <= 1 + 513 * |f.nodes|
  }

  /** A reply causes at most 257 requests. */
  lemma FewAsked(nodes: map<u64, AsyncNode>, visited: set<u64>, e: Entry, reply: UserMad)
    requires !Panics(nodes, e, reply)
    ensures |AskedBy(nodes, visited, e, reply)| <= 257
  {
    hide Through, TypeOf, GetHopCount, MadPath, MadAttr, BurstOf, IsUp;
    PortsFit(NodeInfoIn(reply));
  }

  // ---- The three tasks ----

  /** One step of some task; a receive that fails for another reason than a timeout tells nobody. */
  datatype Step = MainStep(now: nat) | SendStep | RecvStep(got: Option<Message>)

  /** What is still to be sent is the end of what was issued. */
  predicate Unsent(queue: seq<Query>, log: seq<Entry>) {
    |queue| <= |log| && forall k :: 0 <= k < |queue| ==> queue[k] == log[|log| - |queue| + k].query
  }

  lemma UnsentIssue(queue: seq<Query>, log: seq<Entry>, e: Entry)
    requires Unsent(queue, log)
    ensures Unsent(queue + [e.query], log + [e])
  {
  }

  class Agent {
    const agentId: u32
    const timeout: u32

    var smpMap: map<u32, Entry>
    var visited: set<u64>
    var nodes: map<u64, AsyncNode>
    var tid: u32
    var requestsSent: nat
    var responsesReceived: nat
    /** The channels: requests to send, polls to receive, results to process. */
    var sendQueue: seq<Query>
    var polls: nat
    var results: seq<Message>

    /** Requests issued, replies matched and GUIDs visited, in order; ids expired. */
    ghost var log: seq<Entry>
    ghost var matches: seq<Match>
    ghost var order: seq<u64>
    ghost var expired: set<u32>
    /** Receives that told nobody. */
    ghost var lost: nat
    /** How many requests had been issued when each reply was matched. */
    ghost var issuedBy: seq<nat>

    /** A request for a description or a port belongs to a visited node. */
    ghost predicate EntryOk(e: Entry)
      reads this`visited
    {
      && (e.query.attr != NodeInfoAttr ==> e.guid.Some?)
      && (e.guid.Some? ==> e.guid.value in visited)
    }

    /** Each visited GUID is visited once, its node is known, and at most 256 of its ports were queried. */
    ghost predicate VisitsOk()
      reads this`order, this`visited, this`nodes, this`log
    {
      && OnceEach(order) && |visited| == |order| && (forall g :: g in visited <==> g in order)
      && Known(visited, nodes) && FewPorts(log, order)
    }

    /**
     A send makes a poll, a poll makes a result or is lost, and a result is counted once; what is still
     to be sent is the end of what was issued.
     */
    ghost predicate ChannelsOk(held: nat)
      reads this`tid, this`log, this`requestsSent, this`responsesReceived, this`results, this`polls, this`sendQueue
      reads this`lost
    {
      && tid == |log| % TID_SPACE && requestsSent == |log|
      && responsesReceived + held + |results| + polls + |sendQueue| + lost == |log|
      && Unsent(sendQueue, log)
    }

    ghost predicate IdsOk()
      reads this`log, this`smpMap, this`matches, this`expired
    {
      && AsBuilt(log, agentId, timeout)
      && (|log| <= TID_SPACE ==> Conserved(log, smpMap, matches, expired) && Named(log, smpMap, matches))
    }

    ghost predicate WithinBudget(owed: nat)
      reads this`log, this`smpMap, this`matches, this`order
    {
      Echoed(matches) ==> |log| + |PortQueries(smpMap)| + owed <= Budget(log, order)
    }

    /** `held` results are being processed, and `owed` more requests are about to be issued. */
    ghost predicate Valid(held: nat, owed: nat)
      reads this
    {
      && ChannelsOk(held) && VisitsOk() && IdsOk() && WithinBudget(owed)
      && (forall t :: t in smpMap ==> EntryOk(smpMap[t]))
    }

    /** Visits and matches are as they were heard. */
    ghost predicate Recorded()
      reads this`order, this`matches, this`log, this`issuedBy
    {
      Heard(order, matches) && Timed(log, matches, issuedBy)
    }

    /** `main` up to its loop: the first request asks for the NodeInfo of the agent's own node. */
    constructor (agentId: u32, timeout: u32, now: nat)
      ensures this.agentId == agentId && this.timeout == timeout
      ensures Valid(0, 0) && Recorded() && |log| == 1 && visited == {} && matches == [] && expired == {} && order == []
      ensures sendQueue == [Query(START_PATH, NodeInfoAttr, 0)] && nodes == map[]
    {
      hide ChannelsOk, VisitsOk, IdsOk, WithinBudget, Load, EntryOk;
      this.agentId, this.timeout := agentId, timeout;
      smpMap, visited, nodes, tid, requestsSent, responsesReceived := map[], {}, map[], 0, 0, 0;
      sendQueue, polls, results := [], 0, [];
      log, matches, order, expired, lost, issuedBy := [], [], [], {}, 0, [];
      new;
      Empty();
      BuildAndStoreSmp(START_PATH, NodeInfoAttr, 0, None, now, 0, 1);
    }

    lemma Empty()
      requires smpMap == map[] && visited == {} && tid == 0 && requestsSent == 0 && responsesReceived == 0
      requires sendQueue == [] && polls == 0 && results == [] && log == [] && matches == [] && order == []
      requires expired == {} && lost == 0
      ensures Valid(0, 1)
    {
      assert PortQueries(smpMap) == {};
    }

    /** `build_and_store_smp`, the send of what it returns, and the count of it. */
    method BuildAndStoreSmp(path: Path, attr: SmiAttr, modifier: u32, guid: Option<u64>, now: nat,
                            ghost held: nat, ghost owed: nat)
      requires Valid(held, owed) && owed >= Owes(attr)
      requires attr != NodeInfoAttr ==> guid.Some?
      requires guid.Some? ==> guid.value in visited
      requires attr == PortInfoAttr ==> PortsQueried(log, guid.value) < 256
      modifies this`smpMap, this`tid, this`requestsSent, this`sendQueue, this`log
      ensures Valid(held, owed - Owes(attr))
      ensures |log| == |old(log)| + 1 && log == old(log) + [log[|old(log)|]]
      ensures sendQueue == old(sendQueue) + [Query(path, attr, modifier)]
      ensures log[|old(log)|].query == Query(path, attr, modifier) && log[|old(log)|].guid == guid
      ensures log[|old(log)|].timestamp == now
      ensures smpMap == old(smpMap)[old(tid) := log[|old(log)|]]
      ensures Load(smpMap) <= old(Load(smpMap)) + Cost(attr)
    {
      hide Conserved, Named, AsBuilt, Budget, PortQueries, Echoed, OnceEach, Known, FewPorts, PortsQueried, RequestOf;
      hide GetHopCount, BuildDrSmpUmad, NextInSpace, Load, Unsent;
      var q := Query(path, attr, modifier);
      var entry := Entry(guid, q, BuildDrSmpUmad(q, GetHopCount(path), tid, agentId, timeout, 1), now);
      IssueFacts(q, entry);
      UnsentIssue(sendQueue, log, entry);
      smpMap := smpMap[tid := entry];
      tid := NextInSpace(tid);
      sendQueue := sendQueue + [q];
      requestsSent := requestsSent + 1;
      log := log + [entry];
    }

    /** What issuing a request does to the counts. */
    lemma IssueFacts(q: Query, entry: Entry)
      requires VisitsOk() && IdsOk() && tid == |log| % TID_SPACE && EntryOk(entry) && entry.query == q
      requires entry.smp == BuildDrSmpUmad(q, GetHopCount(q.path), tid, agentId, timeout, 1)
      requires q.attr == PortInfoAttr ==> PortsQueried(log, entry.guid.value) < 256
      ensures var after := smpMap[tid := entry];
              && FewPorts(log + [entry], order) && AsBuilt(log + [entry], agentId, timeout)
              && (|log| < TID_SPACE ==>
                    Conserved(log + [entry], after, matches, expired) && Named(log + [entry], after, matches))
              && Budget(log + [entry], order) == Budget(log, order) + (if q.attr == PortInfoAttr then 2 else 0)
              && |PortQueries(after)| + 1 <= |PortQueries(smpMap)| + Cost(q.attr)
              && Load(after) <= Load(smpMap) + Cost(q.attr)
              && NextInSpace(tid) == |log + [entry]| % TID_SPACE
    {
      hide Conserved, Named, Budget, PortQueries, OnceEach, Known, FewPorts, PortsQueried, GetHopCount;
      hide BuildDrSmpUmad;
      LoadAdd(smpMap, tid, entry);
      FewPortsIssue(log, order, entry);
      BudgetIssue(log, order, entry);
      NextInSpaceOf(|log|);
      if |log| < TID_SPACE {
        SmallMod(|log|, TID_SPACE);
        ConservedIssue(log, smpMap, matches, expired, tid, entry);
        NamedIssue(log, smpMap, matches, tid, entry);
      }
    }

    /** `recv_nodedesc` */
    method RecvNodeDesc(area: seq<byte>, guid: u64)
      requires |area| == 64 && guid in nodes && Known(visited, nodes)
      modifies this`nodes
      ensures nodes == old(nodes)[guid := old(nodes)[guid].(desc := Some(DecodeDesc(area)))] && Known(visited, nodes)
    {
      nodes := nodes[guid := nodes[guid].(desc := Some(DecodeDesc(area)))];
    }

    /** The PortInfo queries of ports start..start + n. */
    method QueryPorts(path: Path, start: nat, n: nat, guid: u64, now: nat, ghost held: nat)
      requires Valid(held, 0) && guid in visited && start + n <= 256 && PortsQueried(log, guid) == 0
      modifies this`smpMap, this`tid, this`requestsSent, this`sendQueue, this`log
      ensures Valid(held, 0) && PortsQueried(log, guid) == n
      ensures sendQueue == old(sendQueue) + PortQueriesFrom(path, start, n)
      ensures forall k :: |old(log)| <= k < |log| ==> log[k].guid == Some(guid)
      ensures |log| - |old(log)| == |sendQueue| - |old(sendQueue)| && Issued(old(log), log, now)
    {
      hide Load, ChannelsOk, VisitsOk, IdsOk, WithinBudget, PortsQueried;
      var i := 0;
      while i < n
        invariant 0 <= i <= n
        invariant Valid(held, 0) && PortsQueried(log, guid) == i
        invariant sendQueue == old(sendQueue) + PortQueriesFrom(path, start, i)
        invariant forall k :: |old(log)| <= k < |log| ==> log[k].guid == Some(guid)
        invariant |log| - |old(log)| == |sendQueue| - |old(sendQueue)| && Issued(old(log), log, now)
      {
        ghost var before := log;
        BuildAndStoreSmp(path, PortInfoAttr, start + i, Some(guid), now, held, 0);
        PortsQueriedAdd(before, log[|before|], guid);
        assert PortQueriesFrom(path, start, i + 1)
            == PortQueriesFrom(path, start, i) + [Query(path, PortInfoAttr, start + i)];
        i := i + 1;
      }
    }

    /** Adding an answered node, and the link to the port its request left through. */
    method AddNode(ni: NodeInfo, from: Option<u64>, path: Path)
      requires Known(visited, nodes)
      modifies this`nodes
      ensures Known(visited + {ni.nodeGuid}, nodes) && nodes == AfterNodeInfo(old(nodes), ni, from, path)
    {
      hide Learned, LinkedPorts, Known, GetHopCount;
      AfterNodeInfoKnown(visited, nodes, ni, from, path);
      nodes := Learned(nodes, ni);
      match from {
        case None =>
        case Some(g) => nodes := LinkedPorts(nodes, g, path[GetHopCount(path)], ni.nodeGuid, ni.localPort);
      }
    }

    /** Inserting a GUID into `visited`, which allows one more request. */
    method Visit(guid: u64, ghost held: nat)
      requires Valid(held, 0) && guid !in visited && Known(visited + {guid}, nodes)
      modifies this`visited, this`order
      ensures Valid(held, 1) && PortsQueried(log, guid) == 0
      ensures visited == old(visited) + {guid} && order == old(order) + [guid]
    {
      hide ChannelsOk, IdsOk, Budget, PortQueries, Echoed, PortsQueried, Known;
      BudgetVisit(log, order, guid);
      visited := visited + {guid};
      order := order + [guid];
    }

    /** `recv_nodeinfo` */
    method RecvNodeInfo(ni: NodeInfo, entry: Entry, path: Path, now: nat, ghost held: nat)
      requires Valid(held, 0)
      modifies this`smpMap, this`tid, this`requestsSent, this`sendQueue, this`log, this`nodes, this`visited, this`order
      ensures Valid(held, 0)
      ensures nodes == AfterNodeInfo(old(nodes), ni, entry.guid, path)
      ensures visited == old(visited) + {ni.nodeGuid}
      ensures ni.nodeGuid in old(visited) ==> unchanged(`order, `sendQueue, `smpMap, `log)
      // a GUID not visited before is asked for its description and for each of its ports, once
      ensures ni.nodeGuid !in old(visited) ==>
                && order == old(order) + [ni.nodeGuid] && sendQueue == old(sendQueue) + BurstOf(path, ni)
                && (forall q :: multiset(sendQueue[|old(sendQueue)|..])[q] == if IsAsked(path, ni, q) then 1 else 0)
                && PortsQueried(log, ni.nodeGuid) == ni.nports as int + (if ni.nodeType == 1 then 0 else 1)
                && forall k :: |old(log)| <= k < |log| ==> log[k].guid == Some(ni.nodeGuid)
      ensures |log| - |old(log)| == |sendQueue| - |old(sendQueue)| && Issued(old(log), log, now)
    {
      hide IsAsked, Load, ChannelsOk, IdsOk, WithinBudget, AfterNodeInfo, PortsQueried, Known, OnceEach, FewPorts;
      hide PortCount, StartPort;
      AddNode(ni, entry.guid, path);
      if ni.nodeGuid in visited {
        assert visited + {ni.nodeGuid} == visited;
        return;
      }
      KnownLess(visited, ni.nodeGuid);
      Visit(ni.nodeGuid, held);
      ghost var before := log;
      BuildAndStoreSmp(path, NodeDesc, 0, Some(ni.nodeGuid), now, held, 1);
      PortsQueriedAdd(before, log[|before|], ni.nodeGuid);
      PortsFit(ni);
      QueryPorts(path, StartPort(ni), PortCount(ni), ni.nodeGuid, now, held);
      PortsAsked(ni);
      BurstAdded(old(sendQueue), sendQueue, path, ni);
    }

    lemma KnownLess(visited: set<u64>, guid: u64)
      requires Known(visited + {guid}, nodes)
      ensures Known(visited, nodes)
    {
    }

    /** The port a PortInfo answer describes and the path through it: the first half of `recv_portinfo`. */
    method FollowPort(entry: Entry, path: Path) returns (on: Onward)
      requires !(TypeOf(nodes, entry.guid) == Some(2) && Full(path))
      ensures on == Through(TypeOf(nodes, entry.guid), SentPort(entry), path)
    {
      hide GetHopCount;
      var actual: byte, newPath: Path := 0, path;
      match TypeOf(nodes, entry.guid) {
        case None =>
        case Some(t) =>
          if t == 1 {
            if path != START_PATH { return Endpoint; }
            actual := 1;
            newPath := ThroughPort(path, SentPort(entry));
          } else if t == 2 {
            actual := SentPort(entry);
            newPath := newPath[GetHopCount(path) + 1 := SentPort(entry)];
          } else {
            actual := 1;
          }
      }
      on := Onward(actual, newPath);
    }

    /** `recv_portinfo` */
    method RecvPortInfo(pi: PI.Attribute, entry: Entry, path: Path, now: nat, ghost held: nat)
      requires Valid(held, 1) && EntryOk(entry)
      requires !(TypeOf(nodes, entry.guid) == Some(2) && Full(path))
      modifies this`smpMap, this`tid, this`requestsSent, this`sendQueue, this`log, this`nodes
      ensures Valid(held, 0)
      ensures var on := Through(old(TypeOf(nodes, entry.guid)), SentPort(entry), path);
              && nodes == AfterPortInfo(old(nodes), pi, entry.guid, on)
              && sendQueue == old(sendQueue)
                   + if on.Onward? && IsUp(pi) then [Query(on.path, NodeInfoAttr, 0)] else []
      ensures forall k :: |old(log)| <= k < |log| ==> log[k].guid == entry.guid
      ensures Load(smpMap) <= old(Load(smpMap)) + 1
      ensures |log| - |old(log)| == |sendQueue| - |old(sendQueue)| && Issued(old(log), log, now)
    {
      hide ChannelsOk, IdsOk, Budget, PortQueries, Echoed, AfterPortInfo, Through, Load, OnceEach, FewPorts;
      hide PortsQueried;
      var on := FollowPort(entry, path);
      nodes := AfterPortInfo(nodes, pi, entry.guid, on);
      if on.Onward? && IsUp(pi) {
        BuildAndStoreSmp(on.path, NodeInfoAttr, 0, entry.guid, now, held, 1);
      }
    }

    /** `smp_map.remove`: the request a reply answers is outstanding no more. */
    method Take(t: u32, reply: UserMad) returns (entry: Entry)
      requires Valid(1, 0) && t in smpMap && MadTid(reply) == t
      modifies this`smpMap, this`matches, this`issuedBy
      ensures Valid(1, 0) && EntryOk(entry) && entry == old(smpMap)[t]
      ensures smpMap == old(smpMap) - {t} && matches == old(matches) + [Match(t, entry, reply)]
      ensures issuedBy == old(issuedBy) + [|log|]
      ensures Echoes(Match(t, entry, reply)) && entry.query.attr == PortInfoAttr ==> Valid(1, 1)
      ensures !Echoes(Match(t, entry, reply)) ==> Valid(1, 1)
      ensures Load(smpMap) + Cost(entry.query.attr) == old(Load(smpMap))
    {
      hide Conserved, Named, AsBuilt, Budget, PortQueries, Echoed, Echoes, VisitsOk, ChannelsOk, MadTid;
      entry := smpMap[t];
      LoadRemove(smpMap, t);
      EchoedAdd(matches, Match(t, entry, reply));
      if |log| <= TID_SPACE {
        ConservedMatch(log, smpMap, matches, expired, Match(t, entry, reply));
        NamedTake(log, smpMap, matches, Match(t, entry, reply));
      }
      smpMap := smpMap - {t};
      matches := matches + [Match(t, entry, reply)];
      issuedBy := issuedBy + [|log|];
    }

    /**
     The matched half of `process_response`. Each reply that echoes its request's attribute either
     visits one more GUID or lowers the load.
     */
    method Handle(entry: Entry, reply: UserMad, now: nat) returns (ok: bool)
      requires Valid(1, 0) && EntryOk(entry)
      requires AttrOfWire(MadAttr(reply)) == Some(PortInfoAttr) ==> Valid(1, 1)
      modifies this`smpMap, this`tid, this`requestsSent, this`sendQueue, this`log, this`nodes, this`visited, this`order
      ensures ok <==> !Panics(old(nodes), entry, reply)
      ensures Valid(1, 0) && (ok ==> nodes == NodesAfter(old(nodes), entry, reply))
      ensures sendQueue == old(sendQueue) + if ok then AskedBy(old(nodes), old(visited), entry, reply) else []
      ensures |log| - |old(log)| == |sendQueue| - |old(sendQueue)| && Issued(old(log), log, now)
      ensures order == old(order) + NewlyVisited(old(visited), reply)
      ensures if NewlyVisited(old(visited), reply) == [] then visited == old(visited) else old(visited) < visited
      ensures ok && visited == old(visited) ==>
                Load(smpMap) <= old(Load(smpMap)) + if AttrOfWire(MadAttr(reply)) == Some(PortInfoAttr) then 1 else 0
    {
      hide ChannelsOk, IdsOk, WithinBudget, Load, AfterNodeInfo, AfterPortInfo, Through, BurstOf, MadAttr, MadPath;
      hide MadArea, OnceEach, FewPorts, PortsQueried, EntryOk, DecodeDesc, IsUp, NodeInfoIn, TypeOf, Full, SentPort;
      hide AttrOfWire;
      ok := true;
      match AttrOfWire(MadAttr(reply)) {
        case Some(NodeDesc) =>
          if entry.guid.None? || entry.guid.value !in nodes { return false; }
          RecvNodeDesc(MadArea(reply), entry.guid.value);
        case Some(NodeInfoAttr) =>
          RecvNodeInfo(NodeInfoIn(reply), entry, MadPath(reply), now, 1);
        case Some(PortInfoAttr) =>
          if TypeOf(nodes, entry.guid) == Some(2) && Full(MadPath(reply)) { return false; }
          RecvPortInfo(MadArea(reply), entry, MadPath(reply), now, 1);
        case None =>
      }
    }

    /** A reply with the id of an outstanding request: it is taken and handled. */
    method ProcessReply(umad: UserMad, now: nat) returns (ok: bool)
      requires Valid(1, 0) && MadTid(umad) in smpMap
      modifies this`smpMap, this`matches, this`tid, this`requestsSent, this`sendQueue, this`log, this`nodes
      modifies this`visited, this`order, this`issuedBy
      ensures Valid(1, 0) && |log| - |old(log)| == |sendQueue| - |old(sendQueue)| && Issued(old(log), log, now)
      ensures issuedBy == old(issuedBy) + [|old(log)|]
      ensures var m := Match(MadTid(umad), old(smpMap)[MadTid(umad)], umad);
              && matches == old(matches) + [m] && (ok <==> !Panics(old(nodes), m.entry, umad))
              && (ok ==> nodes == NodesAfter(old(nodes), m.entry, umad))
              && sendQueue == old(sendQueue) + (if ok then AskedBy(old(nodes), old(visited), m.entry, umad) else [])
              && order == old(order) + NewlyVisited(old(visited), umad)
              && (ok && Echoes(m) ==>
                    old(visited) < visited || (visited == old(visited) && Load(smpMap) < old(Load(smpMap))))
    {
      hide ChannelsOk, VisitsOk, IdsOk, WithinBudget, Load, NodesAfter, AskedBy, Panics, MadTid, MadAttr;
      hide NewlyVisited, EntryOk;
      var entry := Take(MadTid(umad), umad);
      ok := Handle(entry, umad, now);
    }

    /** `HashMap::retain`, on the requests to drop. */
    method Drop(gone: set<u32>)
      requires gone <= smpMap.Keys && WithinBudget(0)
      requires forall t :: t in smpMap ==> EntryOk(smpMap[t])
      modifies this`smpMap
      ensures smpMap == old(smpMap) - gone
      ensures forall t :: t in smpMap ==> EntryOk(smpMap[t])
      ensures WithinBudget(0)
    {
      hide Budget, PortQueries, Echoed, EntryOk;
      LoadDrop(smpMap, gone);
      smpMap := smpMap - gone;
    }

    /** The timeout half of `process_response`: requests older than the deadline are dropped. */
    method Expire(now: nat)
      requires Valid(1, 0)
      modifies this`smpMap, this`expired
      ensures Valid(1, 0)
      ensures smpMap == old(smpMap) - Overdue(old(smpMap), now) && expired == old(expired) + Overdue(old(smpMap), now)
    {
      hide Conserved, AsBuilt, Named, VisitsOk, ChannelsOk, WithinBudget, Overdue, EntryOk;
      var gone := Overdue(smpMap, now);
      if |log| <= TID_SPACE {
        ConservedExpire(log, smpMap, matches, expired, gone);
        NamedDrop(log, smpMap, matches, gone);
      }
      expired := expired + gone;
      Drop(gone);
    }

    /** `process_response`, on a result taken from the channel; not `ok` when a handler panics. */
    method ProcessResponse(msg: Message, now: nat) returns (ok: bool)
      requires Valid(1, 0)
      modifies this
      ensures Valid(if ok then 0 else 1, 0) && responsesReceived == old(responsesReceived) + if ok then 1 else 0
      ensures results == old(results) && polls == old(polls) && lost == old(lost)
      ensures |log| - |old(log)| == |sendQueue| - |old(sendQueue)| && Issued(old(log), log, now)
      ensures msg.Timeout? ==>
                && ok && unchanged(`matches, `nodes, `visited, `log, `sendQueue, `order, `issuedBy)
                && smpMap == old(smpMap) - Overdue(old(smpMap), now)
      ensures msg.Recv? && MadTid(msg.umad) !in old(smpMap) ==>
                ok && unchanged(`smpMap, `matches, `nodes, `visited, `log, `sendQueue, `order, `expired, `issuedBy)
      ensures msg.Recv? && MadTid(msg.umad) in old(smpMap) ==>
                var entry := old(smpMap)[MadTid(msg.umad)];
                && matches == old(matches) + [Match(MadTid(msg.umad), entry, msg.umad)]
                && (ok <==> !Panics(old(nodes), entry, msg.umad))
                && (ok ==> nodes == NodesAfter(old(nodes), entry, msg.umad))
                && sendQueue == old(sendQueue) + (if ok then AskedBy(old(nodes), old(visited), entry, msg.umad) else [])
                && issuedBy == old(issuedBy) + [|old(log)|]
                && order == old(order) + NewlyVisited(old(visited), msg.umad)
                && (ok && Echoes(Match(MadTid(msg.umad), entry, msg.umad)) ==>
                      old(visited) < visited || (visited == old(visited) && Load(smpMap) < old(Load(smpMap))))
    {
      hide VisitsOk, IdsOk, WithinBudget, Load, NodesAfter, AskedBy, Panics, MadTid, Overdue, NewlyVisited, EntryOk;
      hide Echoes;
      ok := true;
      match msg {
        case Timeout => Expire(now);
        case Recv(umad) =>
          if MadTid(umad) in smpMap {
            ok := ProcessReply(umad, now);
            if !ok { return; }
          }
      }
      responsesReceived := responsesReceived + 1;
    }

    /** The sending task: one request leaves, and the receiving task is told to poll. */
    method Send()
      requires Valid(0, 0) && sendQueue != []
      modifies this`sendQueue, this`polls
      ensures Valid(0, 0) && sendQueue == old(sendQueue)[1..] && polls == old(polls) + 1
    {
      hide VisitsOk, IdsOk, WithinBudget, EntryOk;
      sendQueue := sendQueue[1..];
      polls := polls + 1;
    }

    /** The receiving task: one poll ends in a result, or in an error it only logs. */
    method Receive(got: Option<Message>)
      requires Valid(0, 0) && polls > 0
      modifies this`polls, this`results, this`lost
      ensures Valid(0, 0) && polls == old(polls) - 1
      ensures results == old(results) + if got.Some? then [got.value] else []
    {
      hide VisitsOk, IdsOk, WithinBudget, EntryOk;
      polls := polls - 1;
      match got {
        case Some(msg) => results := results + [msg];
        case None => lost := lost + 1;
      }
    }

    /** The exit test of the main loop. */
    predicate Done()
      reads this`sendQueue, this`smpMap
    {
      sendQueue == [] && smpMap == map[]
    }

    /**
     On a reply that echoes its request's attribute, `recv_nodedesc` never fails, and `recv_portinfo`
     fails exactly at a switch whose path has no room for the port.
     */
    lemma PanicsOnlyWhenFull(m: Match)
      requires Known(visited, nodes) && EntryOk(m.entry) && Echoes(m)
      ensures Panics(nodes, m.entry, m.reply) <==>
                m.entry.query.attr == PortInfoAttr && TypeOf(nodes, m.entry.guid) == Some(2) && Full(MadPath(m.reply))
    {
      hide GetHopCount, MadPath, MadAttr;
    }

    /** One turn of the main loop that finds a result waiting. */
    method Turn(now: nat) returns (ok: bool)
      requires Valid(0, 0) && Recorded() && results != []
      modifies this
      ensures Valid(if ok then 0 else 1, 0) && Recorded()
      ensures old(log) <= log && |log| <= |old(log)| + 257
      ensures old(matches) <= matches && old(issuedBy) <= issuedBy
      ensures !ok && Echoed(matches) ==> FullReply(matches)
    {
      hide Conserved, IdsOk, WithinBudget, Load, NodesAfter, AskedBy, MadTid, MadAttr, Overdue, FullReply, Panics;
      hide Full, OnceEach, FewPorts, Known, NewlyVisited, Heard;
      var msg := results[0];
      results := results[1..];
      if msg.Recv? && MadTid(msg.umad) in smpMap {
        var m := Match(MadTid(msg.umad), smpMap[MadTid(msg.umad)], msg.umad);
        ghost var was := matches;
        if Echoes(m) { PanicsOnlyWhenFull(m); }
        EchoedAdd(matches, m);
        HeardMore(order, matches, visited, m);
        if !Panics(nodes, m.entry, m.reply) { FewAsked(nodes, visited, m.entry, m.reply); }
        ok := ProcessResponse(msg, now);
        if !ok && Echoes(m) { FullLast(was, m); }
      } else {
        ok := ProcessResponse(msg, now);
      }
    }

    /**
     Any interleaving of the three tasks, up to the exit of the main loop, a panic or the end of the
     schedule. The main task tests for its exit before it waits for a result, and again only after it
     has handled one; a step whose task has nothing to do changes nothing.
     */
    method Run(schedule: seq<Step>, ghost f: Image) returns (ok: bool, exited: bool)
      requires Valid(0, 0) && Recorded() && f.Valid()
      modifies this
      ensures Valid(if ok then 0 else 1, 0) && Recorded() && responsesReceived <= requestsSent == |log|
      ensures exited ==> ok && Done()
      // while ids last, each is outstanding, matched once or expired, and at exit none is outstanding
      ensures requestsSent <= TID_SPACE ==> NoRepeats(matches) && |smpMap| + |matches| + |expired| == requestsSent
      ensures requestsSent <= TID_SPACE && exited ==> |matches| + |expired| == requestsSent
      // each GUID is visited once, and with echoed attributes requests stay within the budget that gives
      ensures OnceEach(order) && |visited| == |order| && (forall g :: g in visited <==> g in order)
      ensures FewPorts(log, order)
      ensures Echoed(matches) ==> requestsSent <= Budget(log, order) <= 1 + 513 * |visited|
      ensures Echoed(matches) && !FullReply(matches) ==> ok
      // over genuine replies from a fabric small enough, ids last
      ensures IdsLast(f, |old(log)|, log, matches, issuedBy)
    {
      hide Budget, PortQueries, Echoed, FullReply, OnceEach, FewPorts, Known, EntryOk, Heard, Timed, Causal;
      ok, exited := true, false;
      var waiting := false;
      LastAtFirst(f);
      var i := 0;
      while i < |schedule|
        invariant 0 <= i <= |schedule| && Valid(0, 0) && Recorded()
        invariant IdsLast(f, |old(log)|, log, matches, issuedBy)
      {
        match schedule[i] {
          case MainStep(now) =>
            if !waiting {
              exited := Done();
              if exited { BudgetWithin(log, order); return; }
              waiting := true;
            } else if results != [] {
              ghost var was, matched, times := log, matches, issuedBy;
              ok := Turn(now);
              StillLast(f, |old(log)|, was, matched, times, if ok then 0 else 1);
              if !ok { BudgetWithin(log, order); return; }
              waiting := false;
            }
          case SendStep => if sendQueue != [] { Send(); }
          case RecvStep(got) => if polls > 0 { Receive(got); }
        }
        i := i + 1;
      }
      BudgetWithin(log, order);
    }

    lemma LastAtFirst(f: Image)
      requires f.Valid() && Valid(0, 0) && Recorded()
      ensures IdsLast(f, |log|, log, matches, issuedBy)
    {
      hide Valid, Recorded, Causal;
      if |log| <= TID_SPACE && Causal(f, log, matches, issuedBy) {
        CausalIsGenuine(f, log, matches, issuedBy);
        GenuineRun(f, 0);
      }
    }

    /** One turn issues too little to break what a run over genuine replies keeps. */
    lemma StillLast(f: Image, start: nat, was: seq<Entry>, matched: seq<Match>, times: seq<nat>, held: nat)
      requires f.Valid() && Valid(held, 0) && Recorded() && Timed(was, matched, times)
      requires was <= log && matched <= matches && times <= issuedBy && |log| <= |was| + 257
      requires IdsLast(f, start, was, matched, times)
      ensures IdsLast(f, start, log, matches, issuedBy)
    {
      hide Valid, Recorded, Causal, Timed;
      if start <= TID_SPACE && IdsSuffice(f) && Causal(f, log, matches, issuedBy) {
        CausalBefore(f, was, matched, times, log, matches, issuedBy);
        CausalIsGenuine(f, log, matches, issuedBy);
        GenuineRun(f, held);
      }
    }

    /**
     A run over genuine replies, while ids last, needs no hypothesis on echoes: its replies echo, and
     no more nodes are visited than there are.
     */
    lemma GenuineRun(f: Image, held: nat)
      requires f.Valid() && Valid(held, 0) && Recorded() && |log| <= TID_SPACE && AllGenuine(f, log, matches)
      ensures Echoed(matches) && |log| <= Budget(log, order) <= 1 + 513 * |visited|
      ensures |visited| <= |f.nodes| && |log| <= 1 + 513 * |f.nodes|
      ensures FullReply(matches) ==> exists k :: 0 <= k < |log| && Full(log[k].query.path)
    {
      hide Budget, PortQueries, Echoed, FullReply, OnceEach, FewPorts, Known, EntryOk, Named, AsBuilt, Conserved;
      hide AllGenuine, Full, Heard, Timed, Guids;
      GenuineRunEchoes(f, log, smpMap, matches, agentId, timeout);
      BudgetWithin(log, order);
      GenuineGuids(f, log, smpMap, matches, order, agentId, timeout);
      SubsetSize(visited, Guids(f.nodes));
    }
  }

  /** Requests for NodeInfo and NodeDesc use up what is owed; those for ports pay for themselves. */
  function Owes(attr: SmiAttr): nat {
    if attr == PortInfoAttr then 0 else 1
  }

  /** The GUID a reply makes visited, if any. */
  function NewlyVisited(visited: set<u64>, reply: UserMad): seq<u64> {
    if AttrOfWire(MadAttr(reply)) == Some(NodeInfoAttr) && NodeInfoIn(reply).nodeGuid !in visited
    then [NodeInfoIn(reply).nodeGuid] else []
  }

  /** A whole run of the program: the counts it logs at its end, and the nodes it visited. */
  method Session(agentId: u32, timeout: u32, start: nat, schedule: seq<Step>, ghost f: Image)
    returns (ok: bool, sent: nat, received: nat, seen: nat,
             ghost genuine: bool, ghost causal: bool, ghost shallow: bool)
    requires f.Valid()
    ensures received <= sent
    // over genuine replies, while ids last, it visits no more nodes than there are, and sends few requests for each
    ensures genuine && sent <= TID_SPACE ==> seen <= |f.nodes| && sent <= 1 + 513 * seen && (shallow ==> ok)
    // and they do last on a fabric small enough, over replies to requests issued before them
    ensures causal && IdsSuffice(f) ==> genuine && sent <= 1 + 513 * |f.nodes| < TID_SPACE
  {
    hide Agent.ChannelsOk, Agent.VisitsOk, Agent.IdsOk, Agent.WithinBudget, Agent.EntryOk, Agent.Recorded, Causal;
    hide AllGenuine, Budget, Echoed, FewPorts, OnceEach, NoRepeats, FullReply;
    var d := new Agent(agentId, timeout, start);
    var exited;
    ok, exited := d.Run(schedule, f);
    sent, received, seen := d.requestsSent, d.responsesReceived, |d.visited|;
    genuine := AllGenuine(f, d.log, d.matches);
    causal := Causal(f, d.log, d.matches, d.issuedBy);
    shallow := forall k :: 0 <= k < |d.log| ==> !Full(d.log[k].query.path);
    if causal { CausalIsGenuine(f, d.log, d.matches, d.issuedBy); }
    if genuine && sent <= TID_SPACE { d.GenuineRun(f, if ok then 0 else 1); }
  }

  /** The outstanding requests older than the deadline. */
  function Overdue(m: map<u32, Entry>, now: nat): (gone: set<u32>)
    ensures gone <= m.Keys
    ensures forall t :: t in m ==> (t in gone <==> now > m[t].timestamp + REQUEST_DEADLINE)
  {
    set t | t in m && now > m[t].timestamp + REQUEST_DEADLINE
  }

  /** Some reply matched came back over a path with no room for one more hop. */
  ghost predicate FullReply(matches: seq<Match>) {
    exists i :: 0 <= i < |matches| && Full(MadPath(matches[i].reply))
  }

  lemma FullLast(matches: seq<Match>, m: Match)
    requires Full(MadPath(m.reply))
    ensures FullReply(matches + [m])
  {
    assert (matches + [m])[|matches|] == m;
  }

  /** `fetch_add(1)` on an AtomicU32. */
  function NextInSpace(t: u32): u32 {
    if t == 0xffff_ffff then 0 else t + 1
  }

  lemma NextInSpaceOf(n: nat)
    ensures NextInSpace(n % TID_SPACE) == (n + 1) % TID_SPACE
  {
  }
}
