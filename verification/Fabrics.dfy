/** Fabrics built in the simulator with `connect_ports` meet the hypotheses of the discovery results. */
module Fabrics {
  import opened Prelude
  import opened MadLayout
  import opened Simulator
  import opened Search
  import opened PortTable
  import opened Topology
  import opened RoundTrip
  import opened Transaction
  import PI = PortInfo

  /** One call of `connect_ports`. */
  datatype Cable = Cable(a: PortId, b: PortId)

  /** Both ports exist, differ and are free. */
  predicate Connectable(f: Image, c: Cable) {
    f.Has(c.a) && f.Has(c.b) && c.a != c.b && Free(f.At(c.a), c.a, c.b) && Free(f.At(c.b), c.b, c.a)
  }

  /** The fabric after a sequence of connections of free ports, if they all are. */
  function Built(f: Image, cables: seq<Cable>): Option<Image> {
    if cables == [] then Some(f)
    else
      var c := cables[|cables| - 1];
      match Built(f, cables[..|cables| - 1])
      case None => None
      case Some(g) => if Connectable(g, c) then Some(Connected(g, c.a, c.b)) else None
  }

  /** What the discovery results ask of a fabric, in terms of its port objects. */
  ghost predicate Discoverable(f: Image) {
    && f.Valid() && Involution(f) && GuidsDistinct(f) && CodesKnown(f)
    && forall n :: 0 <= n < |f.nodes| ==> DistinctNumbers(f.nodes[n].ports)
  }

  /** Every state code a port reports, and every node type, is one the client knows. */
  ghost predicate CodesKnown(f: Image) {
    && (forall n, p :: 0 <= n < |f.nodes| && 0 <= p < |f.nodes[n].ports| ==> KnownStates(f.nodes[n].ports[p].info))
    && (forall n :: 0 <= n < |f.nodes| ==> NodeTypeOf(f.nodes[n].nodeInfo.nodeType).Some?)
  }

  lemma KnownIsReadable(f: Image, h: nat)
    requires CodesKnown(f) && h < |f.nodes|
    ensures Readable(f, h)
  {
    forall x: byte | 1 <= x <= f.nodes[h].nodeInfo.nports && FindPort(f.nodes[h].ports, x).Some?
      ensures Described(f, h, x).Some?
    {
      assert KnownStates(f.nodes[h].ports[FindPort(f.nodes[h].ports, x).value].info);
    }
  }

  /** Nodes without a cable, whose port objects `new_port` made. */
  ghost predicate Unconnected(f: Image) {
    && f.Valid() && GuidsDistinct(f)
    && forall n :: 0 <= n < |f.nodes| ==>
      && NodeTypeOf(f.nodes[n].nodeInfo.nodeType).Some? && DistinctNumbers(f.nodes[n].ports)
      && forall p :: 0 <= p < |f.nodes[n].ports| ==> IsNewPort(f.nodes[n].ports[p])
  }

  ghost predicate IsNewPort(p: SimPort) {
    exists lid: u16 :: p == NewPort(p.num, lid)
  }

  /** A new port reports its number and LID, and is down and polling. */
  lemma NewPortReports(num: byte, lid: u16)
    ensures var p := NewPort(num, lid);
            && p.num == PI.Get(p.info, PI.LocalPortnum) == num && PI.Get(p.info, PI.Lid) == lid
            && LinkStateOf(PI.Get(p.info, PI.PortState)) == Some(Down)
            && PhysStateOf(PI.Get(p.info, PI.PortPhysicalState)) == Some(Polling)
            && p.remote.None?
  {
    hide PI.Get, PI.Set, Pow2, LinkStateOf, PhysStateOf;
    NamedAndDown(num, lid);
    var d := FirstFour(num, lid);
    SpeedsKeep(d, PI.LocalPortnum);
    SpeedsKeep(d, PI.Lid);
    SpeedsKeep(d, PI.PortState);
    SpeedsKeep(d, PI.PortPhysicalState);
    KnownCodes();
  }

  /** It supports, enables and has one speed and one width. */
  lemma NewPortSpeeds(num: byte, lid: u16, g: PI.PortField)
    requires g in {PI.LinkSpeedSupported, PI.LinkSpeedEnabled, PI.LinkSpeedActive,
                   PI.LinkWidthSupported, PI.LinkWidthEnabled, PI.LinkWidthActive}
    ensures PI.Get(NewPort(num, lid).info, g) == 1
  {
    hide PI.Get, PI.Set, Pow2;
    Pow2Values();
    FourBits();
    var d := FirstFour(num, lid);
    var a := PI.Set(d, PI.LinkSpeedSupported, 1);
    var b := PI.Set(a, PI.LinkSpeedEnabled, 1);
    var c := PI.Set(b, PI.LinkSpeedActive, 1);
    var e := PI.Set(c, PI.LinkWidthSupported, 1);
    var h := PI.Set(e, PI.LinkWidthEnabled, 1);
    if g == PI.LinkSpeedSupported { PI.SetGetsSmall(d, g, 1); } else { PI.SetKeeps(d, PI.LinkSpeedSupported, 1, g); }
    if g == PI.LinkSpeedEnabled { PI.SetGetsSmall(a, g, 1); } else { PI.SetKeeps(a, PI.LinkSpeedEnabled, 1, g); }
    if g == PI.LinkSpeedActive { PI.SetGetsSmall(b, g, 1); } else { PI.SetKeeps(b, PI.LinkSpeedActive, 1, g); }
    if g == PI.LinkWidthSupported { PI.SetGetsSmall(c, g, 1); } else { PI.SetKeeps(c, PI.LinkWidthSupported, 1, g); }
    if g == PI.LinkWidthEnabled { PI.SetGetsSmall(e, g, 1); } else { PI.SetKeeps(e, PI.LinkWidthEnabled, 1, g); }
    if g == PI.LinkWidthActive { PI.SetGetsSmall(h, g, 1); } else { PI.SetKeeps(h, PI.LinkWidthActive, 1, g); }
  }

  lemma KnownCodes()
    ensures LinkStateOf(1) == Some(Down) && PhysStateOf(2) == Some(Polling)
  {
  }

  /** The first four setter calls of `new_port`. */
  function FirstFour(num: byte, lid: u16): PI.Attribute {
    var named := PI.Set(PI.Set(Zeros(64), PI.LocalPortnum, num), PI.Lid, lid);
    PI.Set(PI.Set(named, PI.PortState, 1), PI.PortPhysicalState, 2)
  }

  lemma NamedAndDown(num: byte, lid: u16)
    ensures var d := FirstFour(num, lid);
            && PI.Get(d, PI.LocalPortnum) == num && PI.Get(d, PI.Lid) == lid
            && PI.Get(d, PI.PortState) == 1 && PI.Get(d, PI.PortPhysicalState) == 2
  {
    hide PI.Get, PI.Set, Pow2;
    Pow2Values();
    FourBits();
    var a := PI.Set(Zeros(64), PI.LocalPortnum, num);
    var b := PI.Set(a, PI.Lid, lid);
    var c := PI.Set(b, PI.PortState, 1);
    PI.SetGetsSmall(Zeros(64), PI.LocalPortnum, num);
    PI.SetGetsSmall(a, PI.Lid, lid);
    PI.SetGetsSmall(b, PI.PortState, 1);
    PI.SetGetsSmall(c, PI.PortPhysicalState, 2);
    PI.SetKeeps(a, PI.Lid, lid, PI.LocalPortnum);
    PI.SetKeeps(b, PI.PortState, 1, PI.LocalPortnum);
    PI.SetKeeps(b, PI.PortState, 1, PI.Lid);
    PI.SetKeeps(c, PI.PortPhysicalState, 2, PI.LocalPortnum);
    PI.SetKeeps(c, PI.PortPhysicalState, 2, PI.Lid);
    PI.SetKeeps(c, PI.PortPhysicalState, 2, PI.PortState);
  }

  /** The last six setter calls of `new_port`. */
  function SpeedsSet(d: PI.Attribute): PI.Attribute {
    var speeds := PI.Set(PI.Set(PI.Set(d, PI.LinkSpeedSupported, 1), PI.LinkSpeedEnabled, 1), PI.LinkSpeedActive, 1);
    PI.Set(PI.Set(PI.Set(speeds, PI.LinkWidthSupported, 1), PI.LinkWidthEnabled, 1), PI.LinkWidthActive, 1)
  }

  lemma SpeedsKeep(d: PI.Attribute, g: PI.PortField)
    requires g in {PI.LocalPortnum, PI.Lid, PI.PortState, PI.PortPhysicalState}
    ensures PI.Get(SpeedsSet(d), g) == PI.Get(d, g)
  {
    hide PI.Get, PI.Set;
    var a := PI.Set(d, PI.LinkSpeedSupported, 1);
    var b := PI.Set(a, PI.LinkSpeedEnabled, 1);
    var c := PI.Set(b, PI.LinkSpeedActive, 1);
    var e := PI.Set(c, PI.LinkWidthSupported, 1);
    var h := PI.Set(e, PI.LinkWidthEnabled, 1);
    PI.SetKeeps(d, PI.LinkSpeedSupported, 1, g);
    PI.SetKeeps(a, PI.LinkSpeedEnabled, 1, g);
    PI.SetKeeps(b, PI.LinkSpeedActive, 1, g);
    PI.SetKeeps(c, PI.LinkWidthSupported, 1, g);
    PI.SetKeeps(e, PI.LinkWidthEnabled, 1, g);
    PI.SetKeeps(h, PI.LinkWidthActive, 1, g);
  }

  lemma UnconnectedIsDiscoverable(f: Image)
    requires Unconnected(f)
    ensures Discoverable(f)
  {
    forall n, p | 0 <= n < |f.nodes| && 0 <= p < |f.nodes[n].ports|
      ensures KnownStates(f.nodes[n].ports[p].info) && f.nodes[n].ports[p].remote.None?
    {
      var port := f.nodes[n].ports[p];
      var lid: u16 :| port == NewPort(port.num, lid);
      NewPortReports(port.num, lid);
    }
  }

  lemma ConnectKeepsValid(f: Image, c: Cable)
    requires f.Valid() && Connectable(f, c)
    ensures Connected(f, c.a, c.b).Valid()
    ensures |Connected(f, c.a, c.b).nodes| == |f.nodes|
    ensures forall n :: 0 <= n < |f.nodes| ==> SameNodeBut(f.nodes[n], Connected(f, c.a, c.b).nodes[n])
  {
    var g := Connected(f, c.a, c.b);
    forall id: PortId | g.Has(id) && g.At(id).remote.Some? ensures g.Has(g.At(id).remote.value) {
      ConnectedPorts(f, c.a, c.b, id);
    }
    forall n | 0 <= n < |f.nodes| ensures SameNodeBut(f.nodes[n], g.nodes[n]) {
      forall p | 0 <= p < |f.nodes[n].ports| ensures SamePortBut(f.nodes[n].ports[p], g.nodes[n].ports[p]) {
        assert f.Has(PortId(n, p));
        ConnectedPorts(f, c.a, c.b, PortId(n, p));
        assert g.At(PortId(n, p)) == g.nodes[n].ports[p];
      }
    }
  }

  /** The same node, some of whose ports may have been connected. */
  predicate SameNodeBut(m: SimNode, n: SimNode) {
    && n.nodeInfo == m.nodeInfo && n.description == m.description && |n.ports| == |m.ports|
    && forall p :: 0 <= p < |m.ports| ==> SamePortBut(m.ports[p], n.ports[p])
  }

  predicate SamePortBut(m: SimPort, n: SimPort) {
    n.num == m.num && n.info in {m.info, LinkUp(m.info)}
  }

  lemma ConnectKeepsDiscoverable(f: Image, c: Cable)
    requires Discoverable(f) && Connectable(f, c)
    ensures Discoverable(Connected(f, c.a, c.b))
  {
    hide Connected, LinkUp, PI.Get;
    var g := Connected(f, c.a, c.b);
    ConnectKeepsValid(f, c);
    ConnectKeepsInvolution(f, c.a, c.b);
    forall n, p | 0 <= n < |g.nodes| && 0 <= p < |g.nodes[n].ports| ensures KnownStates(g.nodes[n].ports[p].info) {
      assert SamePortBut(f.nodes[n].ports[p], g.nodes[n].ports[p]);
      LinkUpStates(f.nodes[n].ports[p].info);
    }
  }

  /**
   Any fabric made of new ports by connecting free ones meets what `SeqDiscover` asks of a fabric, with
   the agent where it was.
   */
  lemma {:induction false} BuiltIsDiscoverable(f: Image, cables: seq<Cable>)
    requires Unconnected(f) && Built(f, cables).Some?
    ensures var g := Built(f, cables).value;
            && Discoverable(g) && Symmetric(g) && g.root == f.root
            && forall h :: 0 <= h < |g.nodes| ==> Readable(g, h)
  {
    if cables == [] {
      UnconnectedIsDiscoverable(f);
    } else {
      BuiltIsDiscoverable(f, cables[..|cables| - 1]);
      ConnectKeepsDiscoverable(Built(f, cables[..|cables| - 1]).value, cables[|cables| - 1]);
    }
    var g := Built(f, cables).value;
    InvolutionIsSymmetric(g);
    forall h | 0 <= h < |g.nodes| ensures Readable(g, h) { KnownIsReadable(g, h); }
  }

  // ---- A channel that loses nothing ----

  /** Receive k of the port delivers the fabric's reply to the k-th request, if it has one for it. */
  ghost predicate RepliesInOrder(f: Image, requests: seq<UserMad>, port: nat -> Receive, lo: nat)
    requires f.Valid()
  {
    forall k: nat :: k < |requests| ==>
      port(lo + k).event.Delivered? && ReplyTo(f, requests[k], port(lo + k).event.reply)
  }

  /** The requests for these queries under the ids that come next. */
  ghost function Requests(c: Requester, asked: seq<Query>, hopCnt: byte, from: nat): seq<UserMad> {
    seq(|asked|, k requires 0 <= k < |asked| => c.RequestOf(asked[k], hopCnt, from + k))
  }

  /** Queries the fabric can answer can be answered in order. */
  lemma SomePortReplies(f: Image, c: Requester, asked: seq<Query>, hopCnt: byte, from: nat, lo: nat)
    requires f.Valid() && forall k :: 0 <= k < |asked| ==> Answer(f, asked[k]).Ok?
    ensures exists port :: RepliesInOrder(f, Requests(c, asked, hopCnt, from), port, lo)
  {
    hide Respond, Answer, BuildDrSmpUmad;
    var requests := Requests(c, asked, hopCnt, from);
    forall k: nat | k < |requests| ensures Respond(f, requests[k].ToBytes()).Some? {
      QueryRoundTrip(f, asked[k], hopCnt, TidAt(c.firstTid, from + k), c.agentId, c.timeout, c.retries);
    }
    var port: nat -> Receive := k =>
      if lo <= k < lo + |requests| then
        Receive(Delivered(IbUserMadFromBytes(Respond(f, requests[k - lo].ToBytes()).value).value), 0)
      else Receive(NoData, 0);
    assert RepliesInOrder(f, requests, port, lo);
  }

  lemma ReplyMatches(c: Requester, q: Query, hopCnt: byte, i: nat, reply: UserMad)
    requires c.truth.Valid() && ReplyTo(c.truth, c.RequestOf(q, hopCnt, i), reply)
    ensures IsTidEqual(c.RequestOf(q, hopCnt, i), reply)
  {
    hide ReplyTo, BuildDrSmpUmad, Answer, TidAt;
    ReplyCarriesAnswer(c.truth, q, hopCnt, TidAt(c.firstTid, i), c.agentId, c.timeout, c.retries, reply);
    BuiltTid(q, hopCnt, TidAt(c.firstTid, i), c.agentId, c.timeout, c.retries);
  }

  /** A reply that is there at the first receive is the one taken. */
  lemma FirstReplyTaken(request: UserMad, port: nat -> Receive, lo: nat, hi: nat, taken: bool)
    requires port(lo).event.Delivered? && IsTidEqual(request, port(lo).event.reply)
    requires lo < hi && NoMatch(request, port, lo, hi - (if taken then 1 else 0))
    ensures taken && hi == lo + 1 && SomeMatch(request, port, lo, hi)
  {
  }

  lemma NextIsGenuine(f: Image, port: nat -> Receive, lo: nat, issued: seq<UserMad>)
    requires f.Valid() && issued != [] && port(lo).event.Delivered?
    requires ReplyTo(f, issued[|issued| - 1], port(lo).event.reply)
    ensures Genuine(f, port, lo, lo + 1, issued)
  {
    hide ReplyTo;
  }

  /**
   Over a port that answers in order, with time to wait and no send that fails, every query is
   answered truly: such a channel is genuine and prompt.
   */
  method AskAll(c: Requester, asked: seq<Query>, hopCnt: byte)
    requires c.Tracked() && c.genuine && c.prompt && c.timeout > 0 && forall k: nat :: c.sends(k).None?
    requires RepliesInOrder(c.truth, Requests(c, asked, hopCnt, |c.issued|), c.port, c.receiveCount)
    modifies c
    ensures c.Tracked() && c.genuine && c.prompt
    ensures Truthful(c.history, c.truth) && Lossless(c.history, c.truth)
    ensures |c.history| == |old(c.history)| + |asked|
    ensures forall k :: 0 <= k < |asked| ==> c.history[|old(c.history)| + k].query == asked[k]
  {
    hide ReplyTo, BuildDrSmpUmad, Answer, TidAt, Truthful, Lossless, Genuine, NoMatch, IsTidEqual;
    var k := 0;
    while k < |asked|
      invariant 0 <= k <= |asked|
      invariant c.Tracked() && c.genuine && c.prompt
      invariant |c.issued| == |c.history| == |old(c.history)| + k && c.receiveCount == old(c.receiveCount) + k
      invariant forall j :: 0 <= j < k ==> c.history[|old(c.history)| + j].query == asked[j]
    {
      ghost var lo, i := c.receiveCount, |c.issued|;
      assert Requests(c, asked, hopCnt, |old(c.issued)|)[k] == c.RequestOf(asked[k], hopCnt, i);
      ReplyMatches(c, asked[k], hopCnt, i, c.port(lo).event.reply);
      var r := c.Transact(asked[k], hopCnt);
      FirstReplyTaken(c.issued[i], c.port, lo, c.receiveCount, r.Ok?);
      NextIsGenuine(c.truth, c.port, lo, c.issued);
      k := k + 1;
    }
  }
}
