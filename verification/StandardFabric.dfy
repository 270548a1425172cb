/**
 `build_standard_fabric` of src/sim/mod.rs: sixteen spines, thirty-two leaves with thirty-two hosts
 each, and why its cabling is not symmetric.
 */
module StandardFabric {
  import opened Prelude
  import opened MadLayout
  import opened Simulator
  import PI = PortInfo

  const SPINES: nat := 16
  const LEAVES: nat := 32
  const HOSTS: nat := 32

  // ---- New nodes ----

  /** A number below 10000 in decimal digits. */
  function Decimal(n: nat): (s: seq<byte>)
    requires n < 10000
    ensures 1 <= |s| <= if n < 10 then 1 else if n < 100 then 2 else if n < 1000 then 3 else 4
  {
    if n < 10 then [48 + n] else Decimal(n / 10) + [48 + n % 10]
  }

  /** ... with zeros up to four digits. */
  function Padded(n: nat): seq<byte>
    requires n < 10000
  {
    seq(4 - |Decimal(n)|, _ => 48) + Decimal(n)
  }

  /** `Node::new_switch`, with its ports. */
  function NewSwitch(description: seq<byte>, guid: u64, ports: seq<SimPort>): SimNode {
    SimNode(description, NodeInfo(1, 1, 2, 65, guid, guid, guid, 8, 0xd2f2, 0xa0, 0, [0x00, 0xcf, 0x09], Zeros(24)),
            ports)
  }

  /** `Node::new_hca`, with its ports. */
  function NewHca(description: seq<byte>, guid: u64, ports: seq<SimPort>): SimNode {
    SimNode(description, NodeInfo(1, 1, 1, 1, guid, guid, guid, 128, 128, 0, 1, [0x00, 0x02, 0xc9], Zeros(24)), ports)
  }

  // ---- What the loops keep ----

  /** The port with number p is at place p, for 0 to 65. */
  predicate Table(n: SimNode) {
    |n.ports| == 66 && forall p :: 0 <= p < 66 ==> n.ports[p].num == p
  }

  /** Where the l-th leaf is in the list of nodes: each leaf is followed by its hosts. */
  function LeafAt(l: nat): nat { SPINES + (1 + HOSTS) * l }

  /** The spines and the first leaves are in place. */
  ghost predicate Standing(f: Image, leaves: nat) {
    && f.Valid() && |f.nodes| >= SPINES
    && (forall s :: 0 <= s < SPINES ==> Table(f.nodes[s]))
    && (forall l :: 0 <= l < leaves ==> LeafAt(l) < |f.nodes| && Table(f.nodes[LeafAt(l)]))
  }

  /** The same nodes with the same port numbers. */
  ghost predicate SameShape(f: Image, g: Image) {
    && |g.nodes| == |f.nodes|
    && forall n :: 0 <= n < |f.nodes| ==> SamePorts(f.nodes[n], g.nodes[n])
  }

  ghost predicate SamePorts(m: SimNode, n: SimNode) {
    && n.nodeInfo == m.nodeInfo && n.description == m.description && |n.ports| == |m.ports|
    && forall p :: 0 <= p < |m.ports| ==> n.ports[p].num == m.ports[p].num
  }

  /** Connecting two ports changes no number, and only the two references. */
  lemma ConnectedShape(f: Image, a: PortId, b: PortId)
    requires f.Valid() && f.Has(a) && f.Has(b) && a != b
    ensures SameShape(f, Connected(f, a, b)) && Connected(f, a, b).Valid() && Connected(f, a, b).root == f.root
  {
    hide LinkUp;
    var g := Connected(f, a, b);
    forall id: PortId | g.Has(id) && g.At(id).remote.Some? ensures g.Has(g.At(id).remote.value) {
      ConnectedPorts(f, a, b, id);
    }
    forall n | 0 <= n < |f.nodes| ensures SamePorts(f.nodes[n], g.nodes[n]) {
      forall p | 0 <= p < |f.nodes[n].ports| ensures g.nodes[n].ports[p].num == f.nodes[n].ports[p].num {
        ConnectedPorts(f, a, b, PortId(n, p));
        assert g.At(PortId(n, p)) == g.nodes[n].ports[p] && f.At(PortId(n, p)) == f.nodes[n].ports[p];
      }
    }
  }

  lemma ShapeStands(f: Image, g: Image, leaves: nat)
    requires Standing(f, leaves) && SameShape(f, g) && g.Valid()
    ensures Standing(g, leaves)
  {
    forall n | 0 <= n < |f.nodes| && Table(f.nodes[n]) ensures Table(g.nodes[n]) {
      assert SamePorts(f.nodes[n], g.nodes[n]);
    }
  }

  /** One more node without cables. */
  lemma AppendStands(f: Image, node: SimNode, leaves: nat)
    requires Standing(f, leaves) && node.nodeInfo.Valid() && |node.description| <= 64
    requires forall p :: 0 <= p < |node.ports| ==> node.ports[p].remote.None?
    ensures Standing(f.(nodes := f.nodes + [node]), leaves)
  {
    var g := f.(nodes := f.nodes + [node]);
    forall id: PortId | g.Has(id) && g.At(id).remote.Some? ensures g.Has(g.At(id).remote.value) {
      assert id.node < |f.nodes| && f.Has(id) && f.At(id) == g.At(id);
    }
  }

  function RemoteAt(f: Image, id: PortId): Option<PortId>
    requires f.Has(id)
  {
    f.At(id).remote
  }

  // ---- The two ports that show it ----

  /** Port 33 of the first leaf. */
  const FIRST_LEAF: PortId := PortId(16, 33)
  /** Port 2 of the first spine. */
  const FIRST_SPINE: PortId := PortId(0, 2)
  /** Port 33 of the second leaf. */
  const SECOND_LEAF: PortId := PortId(49, 33)

  /** The first leaf's port refers to the first spine's, which refers to the second leaf's. */
  ghost predicate Crossed(f: Image, leaves: nat) {
    && (leaves >= 1 ==> f.Has(FIRST_LEAF) && RemoteAt(f, FIRST_LEAF) == Some(FIRST_SPINE))
    && (leaves >= 2 ==> f.Has(FIRST_SPINE) && RemoteAt(f, FIRST_SPINE) == Some(SECOND_LEAF))
  }

  lemma CrossedIsNotSymmetric(f: Image)
    requires Standing(f, LEAVES) && Crossed(f, LEAVES)
    ensures Peer(f, End(16, 33)) == Some(End(0, 2)) && Peer(f, End(0, 2)) == Some(End(49, 33))
    ensures !Symmetric(f) && !Involution(f)
  {
    hide FindPort;
    assert Table(f.nodes[LeafAt(0)]) && Table(f.nodes[LeafAt(1)]) && Table(f.nodes[0]);
    assert FindPort(f.nodes[16].ports, 33) == Some(33) && FindPort(f.nodes[0].ports, 2) == Some(2);
    assert f.At(FIRST_LEAF) == f.nodes[16].ports[33] && f.At(FIRST_SPINE) == f.nodes[0].ports[2];
  }

  // ---- The loops ----

  /** The spine port and the leaf port of one uplink, if there is one. */
  function UplinkPorts(l: nat, i: nat, s: nat): Option<(nat, nat)> {
    if l + 1 + i < 65 && 33 + s + i / 2 < 65 then Some((l + 1 + i, 33 + s + i / 2)) else None
  }

  /** One turn of the loops over uplinks. */
  method Uplink(fabric: SimFabric, l: nat, i: nat, s: nat)
    requires Standing(fabric.Now(), l + 1) && s < SPINES && l < LEAVES
    modifies fabric
    ensures Standing(fabric.Now(), l + 1) && SameShape(old(fabric.Now()), fabric.Now())
    ensures fabric.root == old(fabric.root)
    ensures Uplinked(old(fabric.Now()), fabric.Now(), l, i, s)
  {
    hide Connected, SameShape, Uplinked, Standing;
    ghost var f := fabric.Now();
    SameShapeSelf(f);
    TablesStand(f, l, s);
    if UplinkPorts(l, i, s).None? { NoUplink(f, l, i, s); }
    var spinePort := l + 1 + i;
    if spinePort >= 65 || spinePort >= |fabric.nodes[s].ports| { return; }
    var leafPort := 33 + s + i / 2;
    if leafPort >= 65 || leafPort >= |fabric.nodes[LeafAt(l)].ports| { return; }
    var a, b := PortId(s, spinePort), PortId(LeafAt(l), leafPort);
    ConnectedShape(f, a, b);
    ConnectedUplinks(f, l, i, s);
    fabric.ConnectPorts(a, b);
    ShapeStands(f, fabric.Now(), l + 1);
  }

  lemma TablesStand(f: Image, l: nat, s: nat)
    requires Standing(f, l + 1) && s < SPINES
    ensures f.Valid() && LeafAt(l) < |f.nodes| && s < |f.nodes| && Table(f.nodes[s]) && Table(f.nodes[LeafAt(l)])
  {
  }

  lemma NoUplink(f: Image, l: nat, i: nat, s: nat)
    requires UplinkPorts(l, i, s).None?
    ensures Uplinked(f, f, l, i, s)
  {
  }

  lemma ConnectedUplinks(f: Image, l: nat, i: nat, s: nat)
    requires Standing(f, l + 1) && s < SPINES && UplinkPorts(l, i, s).Some?
    ensures var a, b := PortId(s, l + 1 + i), PortId(LeafAt(l), 33 + s + i / 2);
            f.Has(a) && f.Has(b) && Uplinked(f, Connected(f, a, b), l, i, s)
  {
    hide LinkUp, Connected;
    TablesStand(f, l, s);
    var a, b := PortId(s, l + 1 + i), PortId(LeafAt(l), 33 + s + i / 2);
    var g := Connected(f, a, b);
    forall id: PortId | f.Has(id)
      ensures g.Has(id) && (!Touched(l, i, s, id) ==> RemoteAt(g, id) == RemoteAt(f, id))
    {
      ConnectedPorts(f, a, b, id);
    }
    ConnectedPorts(f, a, b, a);
    ConnectedPorts(f, a, b, b);
  }

  lemma SameShapeSelf(f: Image)
    ensures SameShape(f, f)
  {
  }

  predicate Touched(l: nat, i: nat, s: nat, id: PortId) {
    var u := UplinkPorts(l, i, s);
    u.Some? && (id == PortId(s, u.value.0) || id == PortId(LeafAt(l), u.value.1))
  }

  /** The two ports of the uplink, if there is one, refer to each other, and no other port changes its reference. */
  ghost predicate Uplinked(f: Image, g: Image, l: nat, i: nat, s: nat) {
    var u := UplinkPorts(l, i, s);
    && (forall id: PortId :: f.Has(id) ==> g.Has(id))
    && (forall id: PortId :: f.Has(id) && !Touched(l, i, s, id) ==> RemoteAt(g, id) == RemoteAt(f, id))
    && (u.Some? ==>
          var a, b := PortId(s, u.value.0), PortId(LeafAt(l), u.value.1);
          g.Has(a) && g.Has(b) && RemoteAt(g, a) == Some(b) && RemoteAt(g, b) == Some(a))
  }

  /** What the uplinks of leaf `l` up to the s-th spine of the i-th round leave of the two ports. */
  ghost predicate Crossing(f: Image, g: Image, l: nat, i: nat, s: nat) {
    && g.Has(FIRST_SPINE) && f.Has(FIRST_SPINE) && (l >= 1 ==> f.Has(FIRST_LEAF)) && g.Has(FIRST_LEAF)
    && (l == 0 && (i >= 2 || (i == 1 && s >= 1)) ==> RemoteAt(g, FIRST_LEAF) == Some(FIRST_SPINE))
    && (l >= 1 ==> RemoteAt(g, FIRST_LEAF) == RemoteAt(f, FIRST_LEAF))
    && (l == 1 && (i >= 1 || s >= 1) ==> RemoteAt(g, FIRST_SPINE) == Some(SECOND_LEAF))
    && (l >= 2 ==> RemoteAt(g, FIRST_SPINE) == RemoteAt(f, FIRST_SPINE))
  }

  lemma CrossingNext(f: Image, g: Image, h: Image, l: nat, i: nat, s: nat)
    requires Crossing(f, g, l, i, s) && Uplinked(g, h, l, i, s) && s < SPINES
    ensures Crossing(f, h, l, i, s + 1)
  {
  }

  /** The uplinks of one leaf: 32 rounds over the spines. */
  method Uplinks(fabric: SimFabric, l: nat)
    requires Standing(fabric.Now(), l + 1) && l < LEAVES && Crossed(fabric.Now(), l)
    modifies fabric
    ensures Standing(fabric.Now(), l + 1) && |fabric.nodes| == |old(fabric.nodes)| && fabric.root == old(fabric.root)
    ensures Crossed(fabric.Now(), l + 1)
  {
    hide Standing, SameShape, Uplinked, Crossing;
    ghost var f := fabric.Now();
    CrossingStarts(f, l);
    var i := 0;
    while i < 32
      invariant 0 <= i <= 32
      invariant Standing(fabric.Now(), l + 1) && |fabric.nodes| == |f.nodes| && fabric.root == f.root
      invariant Crossing(f, fabric.Now(), l, i, 0)
    {
      var s := 0;
      while s < SPINES
        invariant 0 <= s <= SPINES
        invariant Standing(fabric.Now(), l + 1) && |fabric.nodes| == |f.nodes| && fabric.root == f.root
        invariant Crossing(f, fabric.Now(), l, i, s)
      {
        ghost var g := fabric.Now();
        Uplink(fabric, l, i, s);
        SameCount(g, fabric.Now());
        CrossingNext(f, g, fabric.Now(), l, i, s);
        s := s + 1;
      }
      CrossingRound(f, fabric.Now(), l, i);
      i := i + 1;
    }
    CrossingEnds(f, fabric.Now(), l);
  }

  lemma SameCount(f: Image, g: Image)
    requires SameShape(f, g)
    ensures |g.nodes| == |f.nodes|
  {
  }

  lemma CrossingStarts(f: Image, l: nat)
    requires Standing(f, l + 1) && Crossed(f, l)
    ensures Crossing(f, f, l, 0, 0)
  {
    assert Table(f.nodes[0]) && Table(f.nodes[LeafAt(0)]);
  }

  lemma CrossingRound(f: Image, g: Image, l: nat, i: nat)
    requires Crossing(f, g, l, i, SPINES)
    ensures Crossing(f, g, l, i + 1, 0)
  {
  }

  lemma CrossingEnds(f: Image, g: Image, l: nat)
    requires Crossing(f, g, l, 32, 0) && Crossed(f, l)
    ensures Crossed(g, l + 1)
  {
  }

  /** The ports 0 to 65 of a switch. */
  method NewPorts(lid: u16) returns (ports: seq<SimPort>)
    ensures |ports| == 66 && forall p :: 0 <= p < 66 ==> ports[p].num == p && ports[p].remote.None?
  {
    hide PI.Set;
    ports := [];
    var i := 0;
    while i < 66
      invariant 0 <= i <= 66 && |ports| == i
      invariant forall p :: 0 <= p < i ==> ports[p].num == p && ports[p].remote.None?
    {
      ports := ports + [NewPort(i, lid)];
      i := i + 1;
    }
  }

  /** A node without cables joins the fabric. */
  method AddNode(fabric: SimFabric, node: SimNode, ghost leaves: nat, ghost crossed: nat)
    requires Standing(fabric.Now(), leaves) && Crossed(fabric.Now(), crossed)
    requires node.nodeInfo.Valid() && |node.description| <= 64
    requires forall p :: 0 <= p < |node.ports| ==> node.ports[p].remote.None?
    modifies fabric
    ensures Standing(fabric.Now(), leaves) && Crossed(fabric.Now(), crossed)
    ensures fabric.nodes == old(fabric.nodes) + [node] && fabric.root == old(fabric.root)
  {
    AppendStands(fabric.Now(), node, leaves);
    fabric.nodes := fabric.nodes + [node];
  }

  /** A host's cable leaves the two ports alone. */
  lemma HostKeepsCrossed(f: Image, l: nat, h: nat, host: nat)
    requires Standing(f, l + 1) && Crossed(f, l + 1) && h < HOSTS && host < |f.nodes| && |f.nodes[host].ports| == 1
    requires host >= LeafAt(l) + 1
    ensures var a, b := PortId(LeafAt(l), h + 1), PortId(host, 0);
            f.Has(a) && f.Has(b) && Crossed(Connected(f, a, b), l + 1)
  {
    hide LinkUp, Connected;
    var a, b := PortId(LeafAt(l), h + 1), PortId(host, 0);
    assert Table(f.nodes[LeafAt(l)]);
    if f.Has(FIRST_LEAF) { ConnectedPorts(f, a, b, FIRST_LEAF); }
    if f.Has(FIRST_SPINE) { ConnectedPorts(f, a, b, FIRST_SPINE); }
  }

  /** One host of leaf `l`, the count-th of all. The very first one's port is where the agent sits. */
  method AddHost(fabric: SimFabric, l: nat, h: nat, count: nat)
    requires Standing(fabric.Now(), l + 1) && Crossed(fabric.Now(), l + 1)
    requires l < LEAVES && h < HOSTS && count == HOSTS * l + h + 1
    requires |fabric.nodes| == LeafAt(l) + 1 + h && (count > 1 ==> fabric.root == Some(PortId(17, 0)))
    modifies fabric
    ensures Standing(fabric.Now(), l + 1) && Crossed(fabric.Now(), l + 1)
    ensures |fabric.nodes| == LeafAt(l) + 2 + h && fabric.root == Some(PortId(17, 0))
  {
    hide Standing, Crossed, Connected, PI.Set, SameShape;
    var host := |fabric.nodes|;
    var port := NewPort(1, 4000 + count);
    AddNode(fabric, NewHca([104, 111, 115, 116] + Padded(count), 0x7ffc_0000_0000_3000 + count, [port]), l + 1, l + 1);
    ghost var f := fabric.Now();
    var a, b := PortId(LeafAt(l), h + 1), PortId(host, 0);
    HostKeepsCrossed(f, l, h, host);
    ShapeOfStanding(f, l + 1);
    ConnectedShape(f, a, b);
    fabric.ConnectPorts(a, b);
    ShapeStands(f, fabric.Now(), l + 1);
    SameCount(f, fabric.Now());
    if count == 1 {
      RootStands(fabric.Now(), b, f, l + 1);
      fabric.root := Some(b);
    }
  }

  lemma ShapeOfStanding(f: Image, leaves: nat)
    requires Standing(f, leaves)
    ensures f.Valid()
  {
  }

  lemma RootStands(f: Image, id: PortId, was: Image, leaves: nat)
    requires Standing(f, leaves) && SameShape(was, f) && was.Has(id) && Crossed(f, leaves)
    ensures Standing(f.(root := Some(id)), leaves) && Crossed(f.(root := Some(id)), leaves)
  {
    var g := f.(root := Some(id));
    assert SamePorts(was.nodes[id.node], f.nodes[id.node]);
    forall o: PortId | g.Has(o) && g.At(o).remote.Some? ensures g.Has(g.At(o).remote.value) {
      assert f.Has(o) && f.At(o) == g.At(o);
    }
  }

  /**
   `build_standard_fabric`. Its rounds of uplinks connect ports connected before, and the cabling is not
   symmetric.
   */
  method BuildStandardFabric(fabric: SimFabric)
    requires fabric.Now() == Image([], None)
    modifies fabric
    ensures Standing(fabric.Now(), LEAVES) && |fabric.nodes| == LeafAt(LEAVES) && fabric.root == Some(PortId(17, 0))
    ensures Peer(fabric.Now(), End(16, 33)) == Some(End(0, 2)) && Peer(fabric.Now(), End(0, 2)) == Some(End(49, 33))
    ensures !Symmetric(fabric.Now()) && !Involution(fabric.Now())
  {
    hide Standing, Crossed, Symmetric, Involution, Peer;
    AddSpines(fabric);
    NothingCrossed(fabric.Now());
    var count, l := 0, 0;
    while l < LEAVES
      invariant 0 <= l <= LEAVES && count == HOSTS * l
      invariant Standing(fabric.Now(), l) && Crossed(fabric.Now(), l) && |fabric.nodes| == LeafAt(l)
      invariant l > 0 ==> fabric.root == Some(PortId(17, 0))
    {
      AddLeaf(fabric, l);
      Uplinks(fabric, l);
      var h := 0;
      while h < HOSTS
        invariant 0 <= h <= HOSTS && count == HOSTS * l + h
        invariant Standing(fabric.Now(), l + 1) && Crossed(fabric.Now(), l + 1) && |fabric.nodes| == LeafAt(l) + 1 + h
        invariant count > 0 ==> fabric.root == Some(PortId(17, 0))
      {
        count := count + 1;
        AddHost(fabric, l, h, count);
        h := h + 1;
      }
      l := l + 1;
    }
    CrossedIsNotSymmetric(fabric.Now());
  }

  lemma NothingCrossed(f: Image)
    ensures Crossed(f, 0)
  {
  }

  /** The sixteen spines. */
  method AddSpines(fabric: SimFabric)
    requires fabric.Now() == Image([], None)
    modifies fabric
    ensures Standing(fabric.Now(), 0) && |fabric.nodes| == SPINES
  {
    var s := 0;
    while s < SPINES
      invariant 0 <= s <= SPINES && |fabric.nodes| == s && fabric.root == None
      invariant forall n :: 0 <= n < s ==> Bare(fabric.nodes[n])
    {
      var ports := NewPorts(2000 + s);
      var node := NewSwitch([115, 112, 105, 110, 101, 45] + Decimal(s), 0x7ffc_0000_0000_1000 + s, ports);
      fabric.nodes := fabric.nodes + [node];
      s := s + 1;
    }
    BareStands(fabric.Now());
  }

  /** A switch without cables. */
  ghost predicate Bare(n: SimNode) {
    && Table(n) && n.nodeInfo.Valid() && |n.description| <= 64
    && forall p :: 0 <= p < |n.ports| ==> n.ports[p].remote.None?
  }

  lemma BareStands(f: Image)
    requires |f.nodes| == SPINES && f.root.None? && forall n :: 0 <= n < SPINES ==> Bare(f.nodes[n])
    ensures Standing(f, 0)
  {
    forall id: PortId | f.Has(id) ensures f.At(id).remote.None? {
      assert Bare(f.nodes[id.node]);
    }
  }

  /** The l-th leaf. */
  method AddLeaf(fabric: SimFabric, l: nat)
    requires Standing(fabric.Now(), l) && Crossed(fabric.Now(), l) && |fabric.nodes| == LeafAt(l) && l < LEAVES
    modifies fabric
    ensures Standing(fabric.Now(), l + 1) && Crossed(fabric.Now(), l) && |fabric.nodes| == LeafAt(l) + 1
    ensures fabric.root == old(fabric.root)
  {
    hide Crossed;
    var ports := NewPorts(3000 + l);
    var node := NewSwitch([108, 101, 97, 102, 45] + Decimal(l), 0x7ffc_0000_0000_2000 + l, ports);
    AddNode(fabric, node, l, l);
    assert Table(fabric.nodes[LeafAt(l)]);
  }
}
