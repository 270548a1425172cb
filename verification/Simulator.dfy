/**
 The simulated fabric of src/sim/mod.rs: nodes, ports and cables, the walk that gives a
 directed-route path its meaning, and the replies to the three subnet management attributes.

 The original's `Rc`/`Weak` references are indices here: a `PortId` names a port object by its
 node's place in `nodes` and its own place in that node's port list.
 */
module Simulator {
  import opened Prelude
  import opened MadLayout
  import PI = PortInfo

  datatype PortId = PortId(node: nat, port: nat)

  datatype SimPort = SimPort(num: byte, info: PI.Attribute, remote: Option<PortId>)

  datatype SimNode = SimNode(description: seq<byte>, nodeInfo: NodeInfo, ports: seq<SimPort>)

  /** The fabric at one moment. `root` is `dr_paths[FIRST_HOP]`, the port the agent sits on. */
  datatype Image = Image(nodes: seq<SimNode>, root: Option<PortId>)
  {
    predicate Has(id: PortId) {
      id.node < |nodes| && id.port < |nodes[id.node].ports|
    }

    function At(id: PortId): SimPort
      requires Has(id)
    {
      nodes[id.node].ports[id.port]
    }

    /** References lead to ports of the fabric, and descriptions fit their attribute. */
    ghost predicate Valid() {
      && (root.Some? ==> Has(root.value))
      && (forall id: PortId :: Has(id) && At(id).remote.Some? ==> Has(At(id).remote.value))
      && (forall n :: 0 <= n < |nodes| ==> nodes[n].nodeInfo.Valid() && |nodes[n].description| <= 64)
    }
  }

  // ---- Ports seen from outside: a node and a port number ----

  /** One end of a cable as a discovering client can name it. */
  datatype End = End(node: nat, num: byte)

  /** `ports.iter().find(|p| p.num == num)` */
  function FindPort(ports: seq<SimPort>, num: byte): (r: Option<nat>)
    ensures r.Some? ==> r.value < |ports| && ports[r.value].num == num
    ensures r.Some? ==> forall j :: 0 <= j < r.value ==> ports[j].num != num
    ensures r.None? ==> forall j :: 0 <= j < |ports| ==> ports[j].num != num
  {
    if ports == [] then None
    else match FindPort(ports[..|ports| - 1], num)
      case Some(i) => Some(i)
      case None => if ports[|ports| - 1].num == num then Some(|ports| - 1) else None
  }

  function EndOf(f: Image, id: PortId): End
    requires f.Has(id)
  {
    End(id.node, f.At(id).num)
  }

  /** The port object at the other end of the cable in port `num` of node `n`. */
  ghost function RemoteOf(f: Image, n: nat, num: byte): (r: Option<PortId>)
    requires f.Valid() && n < |f.nodes|
    ensures r.Some? ==> f.Has(r.value)
  {
    match FindPort(f.nodes[n].ports, num)
    case None => None
    case Some(i) =>
      assert f.Has(PortId(n, i)) && f.At(PortId(n, i)) == f.nodes[n].ports[i];
      f.nodes[n].ports[i].remote
  }

  /** The cabling as a partial function on ends. */
  ghost function Peer(f: Image, e: End): (r: Option<End>)
    requires f.Valid()
    ensures r.Some? ==> e.node < |f.nodes| && r.value.node < |f.nodes|
  {
    if e.node >= |f.nodes| then None
    else match RemoteOf(f, e.node, e.num)
      case None => None
      case Some(id) => Some(EndOf(f, id))
  }

  /** Every cable seen from one end is seen from the other. */
  ghost predicate Symmetric(f: Image)
    requires f.Valid()
  {
    forall d, e :: Peer(f, d) == Some(e) ==> Peer(f, e) == Some(d)
  }

  // ---- Connecting ports ----

  /** The references of the port objects form a partial involution. */
  predicate Involution(f: Image) {
    forall n, p :: 0 <= n < |f.nodes| && 0 <= p < |f.nodes[n].ports| && f.nodes[n].ports[p].remote.Some? ==>
      var o := f.nodes[n].ports[p].remote.value;
      f.Has(o) && f.At(o).remote == Some(PortId(n, p))
  }

  predicate DistinctNumbers(ports: seq<SimPort>) {
    forall i, j :: 0 <= i < j < |ports| ==> ports[i].num != ports[j].num
  }

  /** With distinct port numbers, an involution of port objects is a symmetric cabling. */
  lemma InvolutionIsSymmetric(f: Image)
    requires f.Valid() && Involution(f)
    requires forall n :: 0 <= n < |f.nodes| ==> DistinctNumbers(f.nodes[n].ports)
    ensures Symmetric(f)
  {
    forall d, e | Peer(f, d) == Some(e) ensures Peer(f, e) == Some(d) {
      var i := FindPort(f.nodes[d.node].ports, d.num).value;
      var id := PortId(d.node, i);
      var o := f.At(id).remote.value;
      assert f.Has(o) && f.At(o).remote == Some(id);
      assert FindPort(f.nodes[o.node].ports, f.At(o).num) == Some(o.port);
    }
  }

  /** The four setter calls `connect_ports` makes on each of the two ports. */
  function LinkUp(info: PI.Attribute): PI.Attribute {
    PI.Set(PI.Set(PI.Set(PI.Set(info, PI.PortState, 4), PI.PortPhysicalState, 5), PI.LinkSpeedActive, 1),
           PI.LinkWidthActive, 1)
  }

  /** Connecting sets the two states and keeps every field it does not set, the LID and port number among them. */
  lemma LinkUpKeeps(info: PI.Attribute, g: PI.PortField)
    requires g !in {PI.PortState, PI.PortPhysicalState, PI.LinkSpeedActive, PI.LinkWidthActive}
    ensures PI.Get(LinkUp(info), g) == PI.Get(info, g)
  {
    hide PI.Get, PI.Set;
    var a := PI.Set(info, PI.PortState, 4);
    var b := PI.Set(a, PI.PortPhysicalState, 5);
    var c := PI.Set(b, PI.LinkSpeedActive, 1);
    PI.SetKeeps(info, PI.PortState, 4, g);
    PI.SetKeeps(a, PI.PortPhysicalState, 5, g);
    PI.SetKeeps(b, PI.LinkSpeedActive, 1, g);
    PI.SetKeeps(c, PI.LinkWidthActive, 1, g);
  }

  lemma LinkUpStates(info: PI.Attribute)
    ensures PI.Get(LinkUp(info), PI.PortState) == 4
    ensures PI.Get(LinkUp(info), PI.PortPhysicalState) == 5
    ensures PI.Get(LinkUp(info), PI.LinkSpeedActive) == 1 && PI.Get(LinkUp(info), PI.LinkWidthActive) == 1
  {
    hide PI.Get, PI.Set, Pow2;
    var a := PI.Set(info, PI.PortState, 4);
    var b := PI.Set(a, PI.PortPhysicalState, 5);
    LinkUpSpeeds(b);
    SpeedsKeepStates(b, PI.PortState);
    SpeedsKeepStates(b, PI.PortPhysicalState);
    PI.SetKeeps(a, PI.PortPhysicalState, 5, PI.PortState);
    FourBits();
    PI.SetGetsSmall(info, PI.PortState, 4);
    PI.SetGetsSmall(a, PI.PortPhysicalState, 5);
  }

  lemma LinkUpSpeeds(b: PI.Attribute)
    ensures var after := PI.Set(PI.Set(b, PI.LinkSpeedActive, 1), PI.LinkWidthActive, 1);
            PI.Get(after, PI.LinkSpeedActive) == 1 && PI.Get(after, PI.LinkWidthActive) == 1
  {
    hide PI.Get, PI.Set, Pow2;
    var c := PI.Set(b, PI.LinkSpeedActive, 1);
    FourBits();
    Pow2Values();
    PI.SetGetsSmall(b, PI.LinkSpeedActive, 1);
    PI.SetGetsSmall(c, PI.LinkWidthActive, 1);
    PI.SetKeeps(c, PI.LinkWidthActive, 1, PI.LinkSpeedActive);
  }

  /** The last two of the four calls keep the two states. */
  lemma SpeedsKeepStates(b: PI.Attribute, g: PI.PortField)
    requires g in {PI.PortState, PI.PortPhysicalState}
    ensures PI.Get(PI.Set(PI.Set(b, PI.LinkSpeedActive, 1), PI.LinkWidthActive, 1), g) == PI.Get(b, g)
  {
    hide PI.Get, PI.Set;
    PI.SetKeeps(PI.Set(b, PI.LinkSpeedActive, 1), PI.LinkWidthActive, 1, g);
    PI.SetKeeps(b, PI.LinkSpeedActive, 1, g);
  }

  lemma FourBits()
    ensures Pow2(4) == 16
  {
  }

  /** `Port::new_port` */
  function NewPort(num: byte, lid: u16): SimPort {
    var named := PI.Set(PI.Set(Zeros(64), PI.LocalPortnum, num), PI.Lid, lid);
    var down := PI.Set(PI.Set(named, PI.PortState, 1), PI.PortPhysicalState, 2);
    var speeds := PI.Set(PI.Set(PI.Set(down, PI.LinkSpeedSupported, 1), PI.LinkSpeedEnabled, 1), PI.LinkSpeedActive, 1);
    var info := PI.Set(PI.Set(PI.Set(speeds, PI.LinkWidthSupported, 1), PI.LinkWidthEnabled, 1), PI.LinkWidthActive, 1);
    SimPort(num, info, None)
  }

  /** The fabric after `connect_ports(a, b)`. */
  function Connected(f: Image, a: PortId, b: PortId): (g: Image)
    requires f.Has(a) && f.Has(b) && a != b
  {
    WithPort(WithPort(f, a, Linked(f.At(a), b)), b, Linked(f.At(b), a))
  }

  function Linked(p: SimPort, o: PortId): SimPort {
    SimPort(p.num, LinkUp(p.info), Some(o))
  }

  function WithPort(f: Image, id: PortId, p: SimPort): (g: Image)
    requires f.Has(id)
    ensures g.root == f.root && |g.nodes| == |f.nodes|
    ensures forall n :: 0 <= n < |f.nodes| ==> |g.nodes[n].ports| == |f.nodes[n].ports|
    ensures forall o: PortId :: f.Has(o) ==> g.Has(o) && g.At(o) == if o == id then p else f.At(o)
  {
    var node := f.nodes[id.node];
    f.(nodes := f.nodes[id.node := node.(ports := node.ports[id.port := p])])
  }

  lemma ConnectedPorts(f: Image, a: PortId, b: PortId, o: PortId)
    requires f.Has(a) && f.Has(b) && a != b && f.Has(o)
    ensures Connected(f, a, b).Has(o)
    ensures Connected(f, a, b).At(o)
         == if o == a then Linked(f.At(a), b) else if o == b then Linked(f.At(b), a) else f.At(o)
  {
  }

  /** Port `p` of node `n` and the port it leads to refer to each other. */
  predicate Mutual(f: Image, id: PortId)
    requires f.Has(id)
  {
    f.At(id).remote.Some? ==> f.Has(f.At(id).remote.value) && f.At(f.At(id).remote.value).remote == Some(id)
  }

  lemma InvolutionIsMutual(f: Image)
    ensures Involution(f) <==> forall id: PortId :: f.Has(id) ==> Mutual(f, id)
  {
    if Involution(f) {
      forall id: PortId | f.Has(id) ensures Mutual(f, id) {
        assert f.At(id) == f.nodes[id.node].ports[id.port];
      }
    }
    if forall id: PortId :: f.Has(id) ==> Mutual(f, id) {
      forall n, p | 0 <= n < |f.nodes| && 0 <= p < |f.nodes[n].ports| && f.nodes[n].ports[p].remote.Some?
        ensures var o := f.nodes[n].ports[p].remote.value;
                f.Has(o) && f.At(o).remote == Some(PortId(n, p))
      {
        assert f.Has(PortId(n, p)) && Mutual(f, PortId(n, p));
      }
    }
  }

  /**
   A port may be connected to `o` without leaving a dangling cable: it is free, or its cable ends at one of the
   two.
   */
  predicate Free(p: SimPort, own: PortId, o: PortId) {
    p.remote in {None, Some(own), Some(o)}
  }

  /** Connecting keeps the cabling an involution exactly when both ports were free. */
  lemma ConnectKeepsInvolution(f: Image, a: PortId, b: PortId)
    requires f.Valid() && Involution(f) && f.Has(a) && f.Has(b) && a != b
    ensures Involution(Connected(f, a, b)) <==> Free(f.At(a), a, b) && Free(f.At(b), b, a)
  {
    var g := Connected(f, a, b);
    InvolutionIsMutual(f);
    InvolutionIsMutual(g);
    if Free(f.At(a), a, b) && Free(f.At(b), b, a) {
      forall id: PortId | g.Has(id) ensures Mutual(g, id) {
        ConnectedStaysMutual(f, a, b, id);
      }
    } else if Involution(g) {
      DanglingCable(f, a, b);
    }
  }

  lemma ConnectedStaysMutual(f: Image, a: PortId, b: PortId, id: PortId)
    requires f.Valid() && f.Has(a) && f.Has(b) && a != b && f.Has(id)
    requires Mutual(f, id) && Mutual(f, a) && Mutual(f, b)
    requires Free(f.At(a), a, b) && Free(f.At(b), b, a)
    ensures Mutual(Connected(f, a, b), id)
  {
    ConnectedPorts(f, a, b, a);
    ConnectedPorts(f, a, b, b);
    ConnectedPorts(f, a, b, id);
    if id != a && id != b && f.At(id).remote.Some? {
      ConnectedPorts(f, a, b, f.At(id).remote.value);
    }
  }

  lemma DanglingCable(f: Image, a: PortId, b: PortId)
    requires f.Valid() && f.Has(a) && f.Has(b) && a != b
    requires Mutual(f, a) && Mutual(f, b)
    requires !Free(f.At(a), a, b) || !Free(f.At(b), b, a)
    ensures exists id: PortId :: Connected(f, a, b).Has(id) && !Mutual(Connected(f, a, b), id)
  {
    var g := Connected(f, a, b);
    var own := if !Free(f.At(a), a, b) then a else b;
    var far := f.At(own).remote.value;
    ConnectedPorts(f, a, b, a);
    ConnectedPorts(f, a, b, b);
    ConnectedPorts(f, a, b, far);
    assert g.Has(far) && !Mutual(g, far);
  }

  // ---- The meaning of a path ----

  /** The longest run of nonzero bytes of `path` from index `i`. */
  function RunFrom(path: Path, i: nat): (hops: seq<byte>)
    requires i <= 64
    ensures i + |hops| <= 64 && hops == path[i..i + |hops|]
    ensures forall k :: 0 <= k < |hops| ==> hops[k] != 0
    ensures i + |hops| < 64 ==> path[i + |hops|] == 0
    decreases 64 - i
  {
    if i == 64 || path[i] == 0 then [] else [path[i]] + RunFrom(path, i + 1)
  }

  lemma RunGoesOn(path: Path, i: nat, k: nat)
    requires i <= 64 && k <= |RunFrom(path, i)| && i + k < 64 && path[i + k] != 0
    ensures k < |RunFrom(path, i)| && RunFrom(path, i)[k] == path[i + k]
  {
  }

  lemma RunStops(path: Path, i: nat, k: nat)
    requires i <= 64 && k <= |RunFrom(path, i)| && (i + k == 64 || (i + k < 64 && path[i + k] == 0))
    ensures k == |RunFrom(path, i)|
  {
    var run := RunFrom(path, i);
    assert k < |run| ==> run[k] == path[i..i + |run|][k];
  }

  /** The hops of a path: they start at index 1, or at index 0 when byte 0 is not zero. */
  function PathHops(path: Path): (hops: seq<byte>) {
    RunFrom(path, if path[0] == 0 then 1 else 0)
  }

  /** Where a sequence of hops leads from the agent's port: the node reached and the port it is entered by. */
  ghost function Resolve(f: Image, hops: seq<byte>): (r: Option<End>)
    requires f.Valid()
    ensures r.Some? ==> r.value.node < |f.nodes|
  {
    if hops == [] then
      (match f.root case None => None case Some(id) => Some(EndOf(f, id)))
    else
      match Resolve(f, hops[..|hops| - 1])
      case None => None
      case Some(e) => Peer(f, End(e.node, hops[|hops| - 1]))
  }

  /** A dead end stays dead. */
  lemma {:induction false} ResolvePrefix(f: Image, hops: seq<byte>, k: nat)
    requires f.Valid() && k <= |hops| && Resolve(f, hops[..k]).None?
    ensures Resolve(f, hops).None?
  {
    if k < |hops| {
      var init := hops[..|hops| - 1];
      assert init[..k] == hops[..k];
      ResolvePrefix(f, init, k);
    } else {
      assert hops[..k] == hops;
    }
  }

  /** `current` is where the first `k` hops lead. */
  ghost predicate Arrived(f: Image, hops: seq<byte>, k: nat, current: Option<PortId>)
    requires f.Valid() && k <= |hops|
  {
    && (current.Some? ==> f.Has(current.value))
    && Resolve(f, hops[..k]) == if current.None? then None else Some(EndOf(f, current.value))
  }

  /** One hop of the walk: it follows the cable out of the named port, or the path is a dead end. */
  lemma HopResolves(f: Image, hops: seq<byte>, k: nat, at: PortId)
    requires f.Valid() && k < |hops| && Arrived(f, hops, k, Some(at))
    ensures Arrived(f, hops, k + 1, RemoteOf(f, at.node, hops[k]))
    ensures RemoteOf(f, at.node, hops[k]).None? ==> Resolve(f, hops).None?
  {
    var next := hops[..k + 1];
    assert next[..|next| - 1] == hops[..k];
    if RemoteOf(f, at.node, hops[k]).None? { ResolvePrefix(f, hops, k + 1); }
  }

  lemma WalkHop(f: Image, path: Path, start: nat, k: nat, at: PortId)
    requires f.Valid() && start <= 64 && k <= |RunFrom(path, start)| && start + k < 64 && path[start + k] != 0
    requires Arrived(f, RunFrom(path, start), k, Some(at))
    ensures k < |RunFrom(path, start)|
    ensures Arrived(f, RunFrom(path, start), k + 1, RemoteOf(f, at.node, path[start + k]))
    ensures RemoteOf(f, at.node, path[start + k]).None? ==> Resolve(f, RunFrom(path, start)).None?
  {
    RunGoesOn(path, start, k);
    HopResolves(f, RunFrom(path, start), k, at);
  }

  // ---- Replies ----

  /** The attribute bytes the node at `e` sends for a raw attribute id and modifier, if it answers. */
  function AttrBytes(f: Image, e: End, attrId: u16, attrMod: u32): (r: Option<seq<byte>>)
    requires e.node < |f.nodes| && f.nodes[e.node].nodeInfo.Valid()
  {
    var node := f.nodes[e.node];
    if attrId == 0x1000 then Some(node.description)
    else if attrId == 0x1100 then Some(node.nodeInfo.(localPort := e.num).ToBytes())
    else if attrId == 0x1500 then
      var asked := ToBe32(attrMod) % 0x100;
      var portnum := if asked == 0 then 1 else asked;
      match FindPort(node.ports, portnum)
      case None => None
      case Some(i) => Some(node.ports[i].info)
    else None
  }

  /** `send_dr_response`: the request with the attribute written over its attribute area. */
  function SendDrResponse(umad: IbUserMad, mad: IbMad, dr: DrSmpMad, attr: seq<byte>): (r: seq<byte>)
    requires umad.Valid() && mad.Valid() && dr.Valid() && |attr| <= 64
    ensures |r| == 320
  {
    var drBytes := dr.(attrLayout := attr + dr.attrLayout[|attr|..]).ToBytes();
    var madBytes := mad.(data := drBytes + mad.data[|drBytes|..]).ToBytes();
    umad.(data := madBytes + umad.data[|madBytes|..]).ToBytes()
  }

  /** What the simulator writes back for 320 request bytes of the directed-route class, if anything. */
  ghost function Respond(f: Image, request: seq<byte>): (r: Option<seq<byte>>)
    requires f.Valid() && |request| == 320
    ensures r.Some? ==> |r.value| == 320
  {
    var umad := IbUserMadFromBytes(request).value;
    var mad := IbMadFromBytes(umad.data).value;
    var dr := DrSmpFromBytes(mad.data).value;
    if mad.mgmtClass != DIRECTED_ROUTE then None
    else match Resolve(f, PathHops(dr.initialPath))
      case None => None
      case Some(e) =>
        match AttrBytes(f, e, mad.attrId, mad.attrMod)
        case None => None
        case Some(attr) =>
          AttrFits(f, e, mad.attrId, mad.attrMod);
          Some(SendDrResponse(umad, mad, dr, attr))
  }

  lemma AttrFits(f: Image, e: End, attrId: u16, attrMod: u32)
    requires f.Valid() && e.node < |f.nodes|
    ensures AttrBytes(f, e, attrId, attrMod).Some? ==> |AttrBytes(f, e, attrId, attrMod).value| <= 64
  {
  }

  class SimFabric {
    var nodes: seq<SimNode>
    var root: Option<PortId>

    function Now(): Image
      reads this
    {
      Image(nodes, root)
    }

    constructor ()
      ensures Now() == Image([], None)
    {
      nodes, root := [], None;
    }

    /** `connect_ports`, on two different ports as `borrow_mut` demands. */
    method ConnectPorts(a: PortId, b: PortId)
      requires Now().Has(a) && Now().Has(b) && a != b
      modifies this
      ensures Now() == Connected(old(Now()), a, b)
    {
      var na := nodes[a.node];
      nodes := nodes[a.node := na.(ports := na.ports[a.port := Linked(na.ports[a.port], b)])];
      var nb := nodes[b.node];
      nodes := nodes[b.node := nb.(ports := nb.ports[b.port := Linked(nb.ports[b.port], a)])];
    }

    /** Finds the egress port and follows its cable. */
    method Follow(at: PortId, portnum: byte) returns (next: Option<PortId>)
      requires Now().Valid() && Now().Has(at)
      ensures next == RemoteOf(Now(), at.node, portnum)
    {
      var egress := FindPort(nodes[at.node].ports, portnum);
      if egress.None? { return None; }
      next := nodes[at.node].ports[egress.value].remote;
    }

    /** The path walk of `process_one_umad`. */
    method Walk(path: Path) returns (r: Result<PortId>)
      requires Now().Valid()
      ensures r.Ok? ==> Now().Has(r.value)
      ensures match Resolve(Now(), PathHops(path))
              case None => r == Err(NotFound)
              case Some(e) => r.Ok? && EndOf(Now(), r.value) == e
    {
      ghost var f, hops := Now(), PathHops(path);
      ghost var start := if path[0] == 0 then 1 else 0;
      var current := root;
      var index := 0;
      ghost var k := 0;
      while index < 64
        invariant 0 <= index <= 64 && k <= |hops| && index + (if index < start then 1 else 0) == start + k
        invariant Arrived(f, hops, k, current)
        invariant index < start ==> current == root
        invariant index > 0 ==> current.Some?
      {
        var portnum := path[index];
        if index == 0 && portnum == 0 {
          if root.None? { ResolvePrefix(f, hops, 0); return Err(NotFound); }
          current := root;
          index := index + 1;
          continue;
        }
        if portnum == 0 { break; }
        if current.None? { ResolvePrefix(f, hops, k); return Err(NotFound); }
        WalkHop(f, path, start, k, current.value);
        current := Follow(current.value, portnum);
        if current.None? { return Err(NotFound); }
        index, k := index + 1, k + 1;
      }
      RunStops(path, start, k);
      assert hops[..k] == hops;
      r := Ok(current.value);
    }

    /**
     `process_one_umad`, from the bytes read to the bytes written, for every class but that of the
     performance counters.
     */
    method ProcessDirectedRoute(request: seq<byte>) returns (r: Result<Option<seq<byte>>>)
      requires Now().Valid() && |request| <= 320
      ensures |request| < 320 <==> r == Err(UnexpectedEof)
      ensures |request| == 320 && ClassOf(request) != PERFORMANCE ==>
                && (r.Err? <==> Unanswerable(Now(), request)) && (r.Err? ==> r.error == NotFound)
                && (r.Ok? ==> r.value == Respond(Now(), request))
    {
      hide Resolve, FindPort, PathHops;
      if |request| < 320 { return Err(UnexpectedEof); }
      var umad := IbUserMadFromBytes(request).value;
      var mad := IbMadFromBytes(umad.data).value;
      if mad.mgmtClass != DIRECTED_ROUTE { return Ok(None); }
      var dr := DrSmpFromBytes(mad.data).value;
      var at := Walk(dr.initialPath);
      if at.Err? { return Err(at.error); }
      var attr := AttrBytes(Now(), EndOf(Now(), at.value), mad.attrId, mad.attrMod);
      if attr.None? { return if mad.attrId == 0x1500 then Err(NotFound) else Ok(None); }
      AttrFits(Now(), EndOf(Now(), at.value), mad.attrId, mad.attrMod);
      return Ok(Some(SendDrResponse(umad, mad, dr, attr.value)));
    }
  }

  const PERFORMANCE: byte := 4

  function ClassOf(request: seq<byte>): byte
    requires |request| == 320
  {
    IbMadFromBytes(IbUserMadFromBytes(request).value.data).value.mgmtClass
  }

  /** A request of the directed-route class whose path leads nowhere, or that asks about a port that is not there. */
  ghost predicate Unanswerable(f: Image, request: seq<byte>)
    requires f.Valid() && |request| == 320
  {
    var mad := IbMadFromBytes(IbUserMadFromBytes(request).value.data).value;
    mad.mgmtClass == DIRECTED_ROUTE &&
    match Resolve(f, PathHops(DrSmpFromBytes(mad.data).value.initialPath))
    case None => true
    case Some(e) => mad.attrId == 0x1500 && AttrBytes(f, e, mad.attrId, mad.attrMod).None?
  }

  // ---- One query, end to end ----

  type Attr64 = s: seq<byte> | |s| == 64 witness Zeros(64)

  function PadTo64(s: seq<byte>): Attr64
    requires |s| <= 64
  {
    s + Zeros(64 - |s|)
  }

  /**
   The true answer to a query: the 64-byte attribute of the node the path leads to. A query the
   fabric cannot answer gets no reply, which its sender sees as a timeout.
   */
  ghost function Answer(f: Image, q: Query): (r: Result<Attr64>)
    requires f.Valid()
    ensures r.Err? ==> r.error == TimedOut
  {
    match Resolve(f, PathHops(q.path))
    case None => Err(TimedOut)
    case Some(e) => AnswerAt(f, e, q.attr, q.modifier)
  }

  ghost function AnswerAt(f: Image, e: End, attr: SmiAttr, modifier: u32): (r: Result<Attr64>)
    requires f.Valid() && e.node < |f.nodes|
    ensures r.Err? ==> r.error == TimedOut
  {
    var node := f.nodes[e.node];
    match attr
    case NodeDesc => Ok(PadTo64(node.description))
    case NodeInfoAttr => Ok(node.nodeInfo.(localPort := e.num).ToBytes())
    case PortInfoAttr =>
      var portnum := if modifier % 0x100 == 0 then 1 else modifier % 0x100;
      match FindPort(node.ports, portnum)
      case None => Err(TimedOut)
      case Some(i) => Ok(node.ports[i].info)
  }
}
