/**
 The client's picture of a fabric in src/discovery/lib.rs: nodes, ports, the registry by GUID and
 the work list of ports still to be followed.

 `Arc`/`Weak` references are indices into the registry: a `PortRef` names a port by its node's
 place in `nodes` and its place in that node's port list, so a port's parent is its `node`.
 */
module Topology {
  import opened Prelude
  import opened MadLayout
  import opened Simulator
  import PI = PortInfo

  datatype LinkState = Nop | Down | Init | Armed | Active | ActiveDeferred

  datatype PhysState = Sleep | Polling | Disabled | PortConfigurationTraining | LinkIsUp | LinkErrorRecovery | PhyTest

  datatype NodeType = CA | Switch | Router | Rnic

  function LinkStateOf(v: nat): Option<LinkState> {
    match v
    case 0 => Some(Nop)
    case 1 => Some(Down)
    case 2 => Some(Init)
    case 3 => Some(Armed)
    case 4 => Some(Active)
    case 5 => Some(ActiveDeferred)
    case _ => None
  }

  function PhysStateOf(v: nat): Option<PhysState> {
    match v
    case 1 => Some(Sleep)
    case 2 => Some(Polling)
    case 3 => Some(Disabled)
    case 4 => Some(PortConfigurationTraining)
    case 5 => Some(LinkIsUp)
    case 6 => Some(LinkErrorRecovery)
    case 7 => Some(PhyTest)
    case _ => None
  }

  function NodeTypeOf(v: nat): Option<NodeType> {
    match v
    case 1 => Some(CA)
    case 2 => Some(Switch)
    case 3 => Some(Router)
    case 4 => Some(Rnic)
    case _ => None
  }

  /** The discriminants of the three enumerations, which the bytes received are converted from. */
  function LinkStateCode(l: LinkState): nat {
    match l
    case Nop => 0
    case Down => 1
    case Init => 2
    case Armed => 3
    case Active => 4
    case ActiveDeferred => 5
  }

  function PhysStateCode(p: PhysState): nat {
    match p
    case Sleep => 1
    case Polling => 2
    case Disabled => 3
    case PortConfigurationTraining => 4
    case LinkIsUp => 5
    case LinkErrorRecovery => 6
    case PhyTest => 7
  }

  function NodeTypeCode(t: NodeType): nat {
    match t
    case CA => 1
    case Switch => 2
    case Router => 3
    case Rnic => 4
  }

  /** A number is converted exactly if it is a discriminant, and to the value that has it. */
  lemma CodesRead(v: nat)
    ensures forall l :: LinkStateOf(v) == Some(l) <==> LinkStateCode(l) == v
    ensures forall p :: PhysStateOf(v) == Some(p) <==> PhysStateCode(p) == v
    ensures forall t :: NodeTypeOf(v) == Some(t) <==> NodeTypeCode(t) == v
  {
  }

  datatype PortRef = PortRef(node: nat, port: nat)

  datatype Port = Port(number: byte, linkState: LinkState, physState: PhysState, lid: u16, remote: Option<PortRef>)
  {
    predicate Live() { linkState == Active || linkState == Init }
  }

  datatype Node = Node(lid: u16, drPath: Path, nodeType: NodeType, guid: u64, description: Option<seq<byte>>,
                       localPort: byte, nports: byte, ports: seq<Port>)

  /** An entry of the work list: a port to follow and a path to its node. */
  datatype Item = Item(port: PortRef, path: Path)

  type Registry = map<u64, nat>

  // ---- Decoded port records ----

  /** The record `fetch_port_info` makes of an answer about port `num`. */
  function DecodePort(a: Result<Attr64>, num: byte): Result<Port> {
    match a
    case Err(e) => Err(e)
    case Ok(b) =>
      PI.GetFits(b, PI.Lid);
      Pow2Values();
      match (LinkStateOf(PI.Get(b, PI.PortState)), PhysStateOf(PI.Get(b, PI.PortPhysicalState)))
      case (Some(l), Some(p)) => Ok(Port(num, l, p, PI.Get(b, PI.Lid), None))
      case (_, _) => Err(InvalidData)
  }

  /** The record of an answer, byte by byte; without one exactly if a state has no code. */
  lemma DecodedFields(b: Attr64, num: byte)
    ensures match DecodePort(Ok(b), num)
            case Ok(p) =>
              && p.number == num && p.remote.None? && p.lid == 0x100 * b[16] as int + b[17]
              && LinkStateCode(p.linkState) == b[32] % 16 && PhysStateCode(p.physState) == b[33] / 16
            case Err(e) =>
              && e == InvalidData
              && ((forall l :: LinkStateCode(l) != b[32] % 16) || (forall p :: PhysStateCode(p) != b[33] / 16))
  {
    hide LinkStateOf, PhysStateOf, LinkStateCode, PhysStateCode, PI.Get;
    PI.ClientFields(b);
    CodesRead(b[32] % 16);
    CodesRead(b[33] / 16);
  }

  /** The record kept for a port that did not answer. */
  function Placeholder(num: byte): Port { Port(num, Down, Disabled, 0, None) }

  /** The record is that of a port whose query timed out: down, disabled, and without a LID of its own. */
  predicate IsBlank(p: Port, standIn: u16) {
    && p.linkState == Down && p.physState == Disabled
    && (p.lid == 0 || (standIn != 0 && p.lid == standIn))
  }

  /** The same record but for the LID, which may also be `standIn`, if that is one. */
  predicate SameRecord(p: Port, o: Port, standIn: u16) {
    && p.linkState == o.linkState && p.physState == o.physState
    && (p.lid == o.lid || (standIn != 0 && p.lid == standIn))
  }

  /** The LID that may stand in for that of port `number`: a switch gives its own to its external ports. */
  function StandIn(n: Node, number: byte): u16 {
    if n.nodeType == Switch && number != 0 then n.lid else 0
  }

  // ---- References ----

  predicate Has(nodes: seq<Node>, r: PortRef) {
    r.node < |nodes| && r.port < |nodes[r.node].ports|
  }

  function PortAt(nodes: seq<Node>, r: PortRef): Port
    requires Has(nodes, r)
  {
    nodes[r.node].ports[r.port]
  }

  function SetRemote(nodes: seq<Node>, r: PortRef, o: PortRef): (t: seq<Node>)
    requires Has(nodes, r)
    ensures |t| == |nodes|
    ensures forall i :: 0 <= i < |nodes| ==> SameButPorts(nodes[i], t[i])
    ensures forall q: PortRef :: Has(t, q) <==> Has(nodes, q)
    ensures forall q: PortRef :: Has(nodes, q) ==>
      PortAt(t, q) == if q == r then PortAt(nodes, r).(remote := Some(o)) else PortAt(nodes, q)
  {
    var n := nodes[r.node];
    nodes[r.node := n.(ports := n.ports[r.port := n.ports[r.port].(remote := Some(o))])]
  }

  predicate SameButPorts(m: Node, n: Node) {
    n == m.(ports := n.ports) && |n.ports| == |m.ports|
  }

  /** The two writes that link a pair of ports. */
  function LinkPorts(nodes: seq<Node>, a: PortRef, b: PortRef): (t: seq<Node>)
    requires Has(nodes, a) && Has(nodes, b)
    ensures |t| == |nodes|
    ensures forall i :: 0 <= i < |nodes| ==> SameButPorts(nodes[i], t[i])
    ensures forall q: PortRef :: Has(t, q) <==> Has(nodes, q)
    ensures forall q: PortRef :: Has(nodes, q) ==>
      PortAt(t, q) == if q == b then PortAt(nodes, b).(remote := Some(a))
                      else if q == a then PortAt(nodes, a).(remote := Some(b))
                      else PortAt(nodes, q)
  {
    SetRemote(SetRemote(nodes, a, b), b, a)
  }

  /** `ports.iter().find(|p| p.number == number)` */
  function FindNumber(ports: seq<Port>, number: byte): (r: Option<nat>)
    ensures r.Some? ==> r.value < |ports| && ports[r.value].number == number
    ensures r.Some? ==> forall j :: 0 <= j < r.value ==> ports[j].number != number
    ensures r.None? ==> forall j :: 0 <= j < |ports| ==> ports[j].number != number
  {
    if ports == [] then None
    else match FindNumber(ports[..|ports| - 1], number)
      case Some(i) => Some(i)
      case None => if ports[|ports| - 1].number == number then Some(|ports| - 1) else None
  }

  /** Links a port with port `number` of node `i`, where that node's table has it. */
  function LinkedTo(nodes: seq<Node>, local: PortRef, i: nat, number: byte): seq<Node>
    requires Has(nodes, local) && i < |nodes|
  {
    match FindNumber(nodes[i].ports, number)
    case Some(b) => LinkPorts(nodes, local, PortRef(i, b))
    case None => nodes
  }

  // ---- What every registry keeps, whoever answers ----

  predicate Ascending(ports: seq<Port>) {
    forall i, j :: 0 <= i < j < |ports| ==> ports[i].number < ports[j].number
  }

  predicate ZeroHasLid(n: Node) {
    n.nodeType == Switch && n.ports != [] && n.ports[0].number == 0 && n.ports[0].lid != 0
  }

  /**
   On a switch whose port 0 has a nonzero LID, the node and every port have that LID; any other
   node has the LID of its local port, or none.
   */
  predicate LidRule(n: Node) {
    if ZeroHasLid(n) then
      n.lid == n.ports[0].lid && forall a :: 0 <= a < |n.ports| ==> n.ports[a].lid == n.lid
    else
      && (forall a :: 0 <= a < |n.ports| && n.ports[a].number == n.localPort ==> n.lid == n.ports[a].lid)
      && ((forall a :: 0 <= a < |n.ports| ==> n.ports[a].number != n.localPort) ==> n.lid == 0)
  }

  /** A port table: ascending numbers up to nports, 0 only on a switch, and LIDs by the rule. */
  predicate GoodTable(n: Node) {
    && Ascending(n.ports) && LidRule(n)
    && (forall a :: 0 <= a < |n.ports| ==> n.ports[a].number <= n.nports)
    && (forall a :: 0 <= a < |n.ports| && n.ports[a].number == 0 ==> n.nodeType == Switch)
  }

  predicate Unlinked(n: Node) {
    forall a :: 0 <= a < |n.ports| ==> n.ports[a].remote.None?
  }

  /** `node_map` is exactly the index of `nodes` by GUID. */
  predicate Indexed(nodes: seq<Node>, nodeMap: Registry) {
    && (forall i :: 0 <= i < |nodes| ==> nodes[i].guid in nodeMap && nodeMap[nodes[i].guid] == i)
    && (forall g :: g in nodeMap ==> nodeMap[g] < |nodes| && nodes[nodeMap[g]].guid == g)
  }

  ghost predicate RefsInside(nodes: seq<Node>) {
    forall r: PortRef :: Has(nodes, r) && PortAt(nodes, r).remote.Some? ==> Has(nodes, PortAt(nodes, r).remote.value)
  }

  /** 0 when the agent sits on a switch, whose hops start at byte 0 of a path; 1 otherwise. */
  function Base(nodes: seq<Node>): nat
    requires nodes != []
  {
    if nodes[0].nodeType == Switch then 0 else 1
  }

  ghost predicate Consistent(nodes: seq<Node>, nodeMap: Registry) {
    && Indexed(nodes, nodeMap)
    && RefsInside(nodes)
    && (forall i :: 0 <= i < |nodes| ==> GoodTable(nodes[i]))
    && (forall i :: 0 <= i < |nodes| ==> PathOk(Base(nodes), nodes[i].drPath))
  }

  /** Work-list entries name ports of registered nodes and carry well-formed, nonempty paths. */
  predicate GoodQueue(nodes: seq<Node>, queue: seq<Item>) {
    nodes != [] && forall k :: 0 <= k < |queue| ==> GoodItem(nodes, queue[k])
  }

  predicate GoodItem(nodes: seq<Node>, it: Item)
    requires nodes != []
  {
    && Has(nodes, it.port)
    && PathOk(Base(nodes), it.path) && |PathHops(it.path)| >= 1
    && PortAt(nodes, it.port).Live() && PortAt(nodes, it.port).number != 0
    && nodes[it.port.node].nodeType == Switch
  }

  // ---- Paths ----

  const START_PATH: Path := Zeros(64)

  /** The path with hops `h` from index `base`, and zeros elsewhere. */
  function Encode(base: nat, h: seq<byte>): Path
    requires base + |h| <= 64
  {
    Zeros(base) + h + Zeros(64 - base - |h|)
  }

  /** A path is zeros up to `base`, its hops, and zeros from there on. */
  predicate PathOk(base: nat, path: Path) {
    base <= 1 && base + |PathHops(path)| <= 64 && path == Encode(base, PathHops(path))
  }

  function MaxHops(base: nat): int { 64 - base }

  /** `get_hop_count`: nonzero bytes from index 1. */
  function GetHopCount(path: Path): (n: nat)
    ensures n <= 63
  {
    |RunFrom(path, 1)|
  }

  lemma {:induction false} RunOf(path: Path, i: nat, n: nat)
    requires i + n <= 64
    requires forall k :: i <= k < i + n ==> path[k] != 0
    requires i + n < 64 ==> path[i + n] == 0
    ensures |RunFrom(path, i)| == n && RunFrom(path, i) == path[i..i + n]
    decreases n
  {
    if n > 0 { RunOf(path, i + 1, n - 1); }
  }

  lemma EncodeOk(base: nat, h: seq<byte>)
    requires base <= 1 && base + |h| <= 64 && 0 !in h
    ensures PathHops(Encode(base, h)) == h && PathOk(base, Encode(base, h))
  {
    var p := Encode(base, h);
    if base == 0 && h != [] {
      RunOf(p, 0, |h|);
    } else {
      RunOf(p, 1, |h|);
    }
    assert p[base..base + |h|] == h;
  }

  lemma StartPathOk(base: nat)
    requires base <= 1
    ensures PathOk(base, START_PATH) && PathHops(START_PATH) == []
  {
    EncodeOk(base, []);
    assert Encode(base, []) == START_PATH;
  }

  /** One hop from the agent: byte 0 on a switch, byte 1 elsewhere. */
  lemma FirstHopOk(base: nat, x: byte)
    requires base <= 1 && x != 0
    ensures PathOk(base, START_PATH[base := x]) && PathHops(START_PATH[base := x]) == [x]
  {
    EncodeOk(base, [x]);
    assert Encode(base, [x]) == START_PATH[base := x];
  }

  /** The hop count of such a path: 0 on a switch, 1 elsewhere. */
  lemma FirstHopCount(base: nat, x: byte)
    requires base <= 1 && x != 0
    ensures GetHopCount(START_PATH[base := x]) == base
  {
    var p := START_PATH[base := x];
    if base == 0 { RunOf(p, 1, 0); } else { RunOf(p, 1, 1); }
  }

  lemma HopCountOfEncode(base: nat, h: seq<byte>)
    requires base <= 1 && base + |h| <= 64 && 0 !in h && |h| >= 1
    ensures GetHopCount(Encode(base, h)) == base + |h| - 1
  {
    var p := Encode(base, h);
    assert forall k :: 0 <= k < |h| ==> p[base + k] == h[k];
    RunOf(p, 1, base + |h| - 1);
  }

  lemma HopsNonzero(path: Path)
    ensures 0 !in PathHops(path)
  {
  }

  /** Writing a hop at `get_hop_count + 1` appends it, for either kind of root. */
  lemma ExtendPath(base: nat, path: Path, x: byte)
    requires PathOk(base, path) && |PathHops(path)| >= 1 && x != 0
    ensures GetHopCount(path) + 1 == base + |PathHops(path)|
    ensures GetHopCount(path) + 1 < 64 ==>
              var longer := path[GetHopCount(path) + 1 := x];
              && PathOk(base, longer) && PathHops(longer) == PathHops(path) + [x]
              && GetHopCount(longer) == GetHopCount(path) + 1
  {
    var h := PathHops(path);
    HopsNonzero(path);
    HopCountOfEncode(base, h);
    if base + |h| < 64 {
      EncodeAppend(base, h, x);
      EncodeOk(base, h + [x]);
      HopCountOfEncode(base, h + [x]);
    }
  }

  lemma EncodeAppend(base: nat, h: seq<byte>, x: byte)
    requires base + |h| < 64
    ensures Encode(base, h)[base + |h| := x] == Encode(base, h + [x])
  {
  }
}
