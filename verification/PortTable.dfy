/**
 Decoding of attributes, and the port table `populate_node_ports` and `attach_port_to_node` in
 src/discovery/lib.rs build from PortInfo answers.
 */
module PortTable {
  import opened Prelude
  import opened MadLayout
  import opened Simulator
  import opened Topology
  import opened Search
  import opened ShortestPaths
  import opened RoundTrip
  import PI = PortInfo

  // ---- Decoding ----

  function NodeInfoQuery(path: Path): Query { Query(path, NodeInfoAttr, 0) }

  function DescQuery(path: Path): Query { Query(path, NodeDesc, 0) }

  function PortQuery(path: Path, num: byte): Query { Query(path, PortInfoAttr, num) }

  function DecodeNodeInfo(a: Result<Attr64>): Result<NodeInfo> {
    match a
    case Err(e) => Err(e)
    case Ok(b) => Ok(NodeInfoFromBytes(b).value)
  }

  // ---- attach_port_to_node ----

  /**
   The port joins the table; a switch's LID goes to its external ports, and a node takes its LID from port 0 or
   its local port.
   */
  function Attach(n: Node, port: Port): Node {
    var lid := if n.nodeType == Switch && port.number != 0 && n.lid != 0 then n.lid else port.lid;
    var nodeLid := if n.lid == 0 && port.lid != 0 && (port.number == n.localPort || port.number == 0) then port.lid
                   else n.lid;
    n.(lid := nodeLid, ports := n.ports + [port.(lid := lid)])
  }

  // ---- The table, whoever answers ----

  /** An answer, or a timeout, the record of a port other than 0 may have been made from. */
  predicate Reports(x: Exchange, path: Path, p: Port, standIn: u16) {
    && x.query == PortQuery(path, p.number)
    && match DecodePort(x.answer, p.number)
       case Ok(o) => SameRecord(p, o, standIn)
       case Err(e) => p.number != 0 && e == TimedOut && IsBlank(p, standIn)
  }

  /**
   The record of a port is that of some answer about it, or a timeout's placeholder, except that the
   LID of its switch may stand in its place.
   */
  ghost predicate Reported(said: seq<Exchange>, path: Path, p: Port, standIn: u16) {
    exists k :: 0 <= k < |said| && Reports(said[k], path, p, standIn)
  }

  predicate Refuses(x: Exchange, path: Path, n: byte) {
    x.query == PortQuery(path, n) && DecodePort(x.answer, n) == Err(InvalidInput)
  }

  ghost predicate Refused(said: seq<Exchange>, path: Path, n: byte) {
    exists k :: 0 <= k < |said| && Refuses(said[k], path, n)
  }

  predicate Fails(x: Exchange, path: Path, n: byte) {
    x.query == PortQuery(path, n) && DecodePort(x.answer, n).Err?
  }

  /** Port 0 was asked about and no record could be made of it. */
  ghost predicate ZeroFailed(said: seq<Exchange>, path: Path) {
    exists k :: 0 <= k < |said| && Fails(said[k], path, 0)
  }

  /** Every port up to `bound` is in the table, unless its query was refused as invalid input. */
  ghost predicate NoGap(said: seq<Exchange>, path: Path, ports: seq<Port>, bound: nat) {
    forall x: byte :: 1 <= x <= bound ==> FindNumber(ports, x).Some? || Refused(said, path, x)
  }

  /** A switch has its port 0, unless that could not be had. */
  ghost predicate ZeroFirst(said: seq<Exchange>, path: Path, n: Node) {
    n.nodeType == Switch ==> FindNumber(n.ports, 0).Some? || ZeroFailed(said, path)
  }

  ghost predicate AllReported(said: seq<Exchange>, path: Path, n: Node) {
    forall a :: 0 <= a < |n.ports| ==> Reported(said, path, n.ports[a], StandIn(n, n.ports[a].number))
  }

  /** An answer about port 0 of a switch, or about the local port, gave the LID. */
  predicate GivesLid(x: Exchange, path: Path, n: Node) {
    || (n.nodeType == Switch && x.query == PortQuery(path, 0) && HasLid(DecodePort(x.answer, 0), n.lid))
    || (x.query == PortQuery(path, n.localPort) && HasLid(DecodePort(x.answer, n.localPort), n.lid))
  }

  predicate HasLid(d: Result<Port>, lid: u16) { d.Ok? && d.value.lid == lid }

  /** A node's LID came in some answer. */
  ghost predicate LidHeard(said: seq<Exchange>, path: Path, n: Node) {
    n.lid == 0 || exists k :: 0 <= k < |said| && GivesLid(said[k], path, n)
  }

  predicate Bounded(n: Node, bound: nat) {
    && Ascending(n.ports) && Unlinked(n)
    && (forall a :: 0 <= a < |n.ports| ==> n.ports[a].number <= bound)
    && (forall a :: 0 <= a < |n.ports| && n.ports[a].number == 0 ==> n.nodeType == Switch)
  }

  /** What the answers heard while a node's table is filled say about the table. */
  ghost predicate TableUpTo(said: seq<Exchange>, path: Path, n: Node, bound: nat) {
    Bounded(n, bound) && HeardUpTo(said, path, n, bound)
  }

  /** Every record comes from an answer or a timeout, and no port is missing without a cause. */
  ghost predicate HeardUpTo(said: seq<Exchange>, path: Path, n: Node, bound: nat) {
    && AllReported(said, path, n) && NoGap(said, path, n.ports, bound) && ZeroFirst(said, path, n)
    && LidHeard(said, path, n)
  }

  /** Everything said in one history was said in the other. */
  ghost predicate Includes(all: seq<Exchange>, said: seq<Exchange>) {
    forall k :: 0 <= k < |said| ==> said[k] in all
  }

  lemma ReportedStill(said: seq<Exchange>, all: seq<Exchange>, path: Path, p: Port, lid: u16, lid': u16)
    requires Includes(all, said) && Reported(said, path, p, lid) && (lid == 0 || lid == lid')
    ensures Reported(all, path, p, lid')
  {
    var k :| 0 <= k < |said| && Reports(said[k], path, p, lid);
    var j :| 0 <= j < |all| && all[j] == said[k];
    assert Reports(all[j], path, p, lid');
  }

  lemma RefusedStill(said: seq<Exchange>, all: seq<Exchange>, path: Path, x: byte)
    requires Includes(all, said) && Refused(said, path, x)
    ensures Refused(all, path, x)
  {
    var k :| 0 <= k < |said| && Refuses(said[k], path, x);
    var j :| 0 <= j < |all| && all[j] == said[k];
  }

  lemma ZeroFailedStill(said: seq<Exchange>, all: seq<Exchange>, path: Path)
    requires Includes(all, said) && ZeroFailed(said, path)
    ensures ZeroFailed(all, path)
  {
    var k :| 0 <= k < |said| && Fails(said[k], path, 0);
    var j :| 0 <= j < |all| && all[j] == said[k];
  }

  lemma LidStill(said: seq<Exchange>, all: seq<Exchange>, path: Path, n: Node)
    requires Includes(all, said) && LidHeard(said, path, n)
    ensures LidHeard(all, path, n)
  {
    if n.lid != 0 {
      var k :| 0 <= k < |said| && GivesLid(said[k], path, n);
      var j :| 0 <= j < |all| && all[j] == said[k];
    }
  }

  /** Hearing more takes nothing away. */
  lemma HeardStays(said: seq<Exchange>, all: seq<Exchange>, path: Path, n: Node, bound: nat)
    requires Includes(all, said) && HeardUpTo(said, path, n, bound)
    ensures HeardUpTo(all, path, n, bound)
  {
    hide Reported, Refused, ZeroFailed, FindNumber, LidHeard, Includes;
    forall a | 0 <= a < |n.ports| ensures Reported(all, path, n.ports[a], StandIn(n, n.ports[a].number)) {
      ReportedStill(said, all, path, n.ports[a], StandIn(n, n.ports[a].number), StandIn(n, n.ports[a].number));
    }
    LidStill(said, all, path, n);
    forall x: byte | 1 <= x <= bound ensures FindNumber(n.ports, x).Some? || Refused(all, path, x) {
      if Refused(said, path, x) { RefusedStill(said, all, path, x); }
    }
    if ZeroFailed(said, path) { ZeroFailedStill(said, all, path); }
  }

  lemma TableStays(said: seq<Exchange>, more: seq<Exchange>, path: Path, n: Node, bound: nat)
    requires TableUpTo(said, path, n, bound)
    ensures TableUpTo(said + more, path, n, bound)
  {
    hide HeardUpTo, Bounded;
    HeardStays(said, said + more, path, n, bound);
  }

  /** One more port, whose record was just made. */
  lemma AttachKeepsTable(said: seq<Exchange>, path: Path, n: Node, port: Port)
    requires port.number >= 1 && TableUpTo(said, path, n, port.number - 1)
    requires port.remote.None? && Reported(said, path, port, 0)
    ensures TableUpTo(said, path, Attach(n, port), port.number)
  {
    hide Reported, Refused, ZeroFailed, LidHeard;
    AttachKeepsReported(said, path, n, port);
    AttachKeepsLidHeard(said, path, n, port);
    AttachFinds(n, port);
    AttachKeepsBounds(n, port);
  }

  /** A node takes its LID from the answer about the port attached. */
  lemma AttachKeepsLidHeard(said: seq<Exchange>, path: Path, n: Node, port: Port)
    requires LidHeard(said, path, n) && Reported(said, path, port, 0) && (port.number == 0 ==> n.nodeType == Switch)
    ensures LidHeard(said, path, Attach(n, port))
  {
    var m := Attach(n, port);
    if m.lid == n.lid {
      if n.lid != 0 {
        var k :| 0 <= k < |said| && GivesLid(said[k], path, n);
        assert GivesLid(said[k], path, m);
      }
    } else {
      var k :| 0 <= k < |said| && Reports(said[k], path, port, 0);
      assert GivesLid(said[k], path, m);
    }
  }

  lemma AttachKeepsBounds(n: Node, port: Port)
    requires port.number >= 1 && Bounded(n, port.number - 1) && port.remote.None?
    ensures Bounded(Attach(n, port), port.number)
  {
    var m := Attach(n, port);
    assert forall a :: 0 <= a < |n.ports| ==> m.ports[a] == n.ports[a];
  }

  lemma AttachFinds(n: Node, port: Port)
    ensures var m := Attach(n, port);
            && FindNumber(m.ports, port.number).Some?
            && forall x: byte :: FindNumber(n.ports, x).Some? ==> FindNumber(m.ports, x).Some?
  {
    assert Attach(n, port).ports[..|n.ports|] == n.ports;
  }

  lemma AttachKeepsReported(said: seq<Exchange>, path: Path, n: Node, port: Port)
    requires AllReported(said, path, n) && Reported(said, path, port, 0)
    ensures AllReported(said, path, Attach(n, port))
  {
    hide Reported;
    var m := Attach(n, port);
    AttachedReported(said, path, n, port);
    forall a | 0 <= a < |n.ports|
      ensures m.ports[a] == n.ports[a] && Reported(said, path, m.ports[a], StandIn(m, m.ports[a].number))
    {
      ReportedStill(said, said, path, n.ports[a], StandIn(n, n.ports[a].number), StandIn(m, n.ports[a].number));
    }
  }

  lemma AttachedReported(said: seq<Exchange>, path: Path, n: Node, port: Port)
    requires Reported(said, path, port, 0)
    ensures Reported(said, path, Attach(n, port).ports[|n.ports|], StandIn(Attach(n, port), port.number))
  {
    var last, lid := Attach(n, port).ports[|n.ports|], StandIn(Attach(n, port), port.number);
    var k :| 0 <= k < |said| && Reports(said[k], path, port, 0);
    assert Reports(said[k], path, last, lid);
  }

  /** What the last exchange heard says about the port it asked for. */
  lemma LastReports(said: seq<Exchange>, path: Path, x: byte)
    requires said != [] && said[|said| - 1].query == PortQuery(path, x)
    ensures var d := DecodePort(said[|said| - 1].answer, x);
            && (d.Ok? ==> Reported(said, path, d.value, 0) && d.value.number == x && d.value.remote.None?)
            && (d == Err(TimedOut) && x != 0 ==> Reported(said, path, Placeholder(x), 0))
            && (d == Err(InvalidInput) ==> Refused(said, path, x))
            && (d.Err? && x == 0 ==> ZeroFailed(said, path))
  {
    var last := said[|said| - 1];
    var d := DecodePort(last.answer, x);
    if d.Ok? { assert Reports(last, path, d.value, 0); }
    if d == Err(TimedOut) && x != 0 { assert Reports(last, path, Placeholder(x), 0); }
    if d == Err(InvalidInput) { assert Refuses(last, path, x); }
    if d.Err? && x == 0 { assert Fails(last, path, 0); }
  }

  lemma SkipKeepsTable(said: seq<Exchange>, path: Path, n: Node, x: byte)
    requires x >= 1 && TableUpTo(said, path, n, x - 1) && Refused(said, path, x)
    ensures TableUpTo(said, path, n, x)
  {
    hide Reported, Refused, ZeroFailed, FindNumber;
  }

  lemma TableBound(said: seq<Exchange>, path: Path, n: Node, bound: nat)
    requires TableUpTo(said, path, n, bound)
    ensures Ascending(n.ports) && forall a :: 0 <= a < |n.ports| ==> n.ports[a].number <= bound
  {
  }

  lemma EmptyTable(said: seq<Exchange>, path: Path, n: Node)
    requires n.ports == [] && n.lid == 0 && ZeroFirst(said, path, n)
    ensures TableUpTo(said, path, n, 0) && LidRule(n)
  {
  }

  lemma AttachZero(said: seq<Exchange>, path: Path, n: Node, port: Port)
    requires n.ports == [] && n.lid == 0 && n.nodeType == Switch && port.number == 0
    requires port.remote.None? && Reported(said, path, port, 0)
    ensures TableUpTo(said, path, Attach(n, port), 0) && LidRule(Attach(n, port))
    ensures Attach(n, port).ports == [port]
  {
    hide Reported, Refused, ZeroFailed, AllReported, Bounded;
    AttachKeepsReported(said, path, n, port) by { AllOfNone(said, path, n); }
    AttachKeepsLidHeard(said, path, n, port);
    AttachFinds(n, port);
    OnePort(n, port);
  }

  lemma AllOfNone(said: seq<Exchange>, path: Path, n: Node)
    requires n.ports == []
    ensures AllReported(said, path, n)
  {
  }

  lemma OnePort(n: Node, port: Port)
    requires n.ports == [] && n.nodeType == Switch && port.number == 0 && port.remote.None?
    ensures Bounded(Attach(n, port), 0)
  {
  }

  // ---- LIDs ----

  lemma AttachKeepsLids(n: Node, port: Port)
    requires LidRule(n) && Ascending(n.ports) && port.number >= 1
    requires forall a :: 0 <= a < |n.ports| ==> n.ports[a].number < port.number
    ensures LidRule(Attach(n, port))
  {
    var m := Attach(n, port);
    var last := m.ports[|n.ports|];
    assert forall a :: 0 <= a < |n.ports| ==> m.ports[a] == n.ports[a];
    if !ZeroHasLid(n) && port.number == n.localPort {
      assert forall a :: 0 <= a < |n.ports| ==> n.ports[a].number != n.localPort;
      assert last.lid == port.lid == m.lid;
    }
  }

  // ---- The table, when answers are true ----

  /** The true answer about port `x` is that port's attribute, and about port 0 that of port 1. */
  lemma PortAnswerIs(f: Image, path: Path, e: End, x: byte)
    requires f.Valid() && Resolve(f, PathHops(path)) == Some(e)
    ensures Answer(f, PortQuery(path, x))
         == match FindPort(f.nodes[e.node].ports, if x == 0 then 1 else x)
            case None => Err(TimedOut)
            case Some(i) => Ok(f.nodes[e.node].ports[i].info)
  {
    hide FindPort, Resolve, PathHops;
    var q := PortQuery(path, x);
    assert q.modifier % 0x100 == x;
    assert Answer(f, q) == AnswerAt(f, e, PortInfoAttr, x);
  }

  lemma DecodedLive(info: PI.Attribute, x: byte)
    ensures var d := DecodePort(Ok(info), x);
            d.Ok? ==> (d.value.Live() <==> LiveInfo(info))
  {
  }

  /** A port recorded from true answers is recorded as it is, or as a placeholder ... */
  lemma ReportedIsTrue(f: Image, said: seq<Exchange>, path: Path, e: End, p: Port, standIn: u16)
    requires f.Valid() && Truthful(said, f) && Resolve(f, PathHops(path)) == Some(e)
    requires Reported(said, path, p, standIn)
    ensures TruePort(f, e.node, p, standIn)
  {
    hide Resolve, PathHops, FindPort, Answer;
    var k :| 0 <= k < |said| && Reports(said[k], path, p, standIn);
    assert TrueOrMissing(f, said[k]);
    if DecodePort(said[k].answer, p.number).Ok? { PortAnswerIs(f, path, e, p.number); }
  }

  /** ... so it is live only if it may be followed. */
  lemma LiveIsEligible(f: Image, h: nat, p: Port, standIn: u16)
    requires h < |f.nodes| && TruePort(f, h, p, standIn)
    requires p.Live() && 1 <= p.number <= f.nodes[h].nodeInfo.nports
    ensures Eligible(f, h, p.number)
  {
    hide FindPort;
    DecodedLive(f.nodes[h].ports[FindPort(f.nodes[h].ports, p.number).value].info, p.number);
  }

  /** A port query is decoded, refused as invalid data, or times out when the fabric has no such port. */
  lemma PortAnswered(f: Image, path: Path, e: End, x: byte)
    requires f.Valid() && Resolve(f, PathHops(path)) == Some(e)
    ensures DecodePort(Answer(f, PortQuery(path, x)), x)
         == match Described(f, e.node, x)
            case Some(p) => Ok(p)
            case None => if HasPort(f, e.node, x) then Err(InvalidData) else Err(TimedOut)
  {
    hide Resolve, PathHops, FindPort, Answer;
    PortAnswerIs(f, path, e, x);
  }

  /** The fabric has the port that answers about port `x`. */
  predicate HasPort(f: Image, h: nat, x: byte)
    requires h < |f.nodes|
  {
    FindPort(f.nodes[h].ports, if x == 0 then 1 else x).Some?
  }

  lemma NothingRefused(f: Image, said: seq<Exchange>, path: Path, e: End, x: byte)
    requires f.Valid() && Lossless(said, f) && Resolve(f, PathHops(path)) == Some(e)
    ensures !Refused(said, path, x)
  {
    hide Answer, Resolve, PathHops, DecodePort, Described;
    PortAnswered(f, path, e, x);
  }

  /** With every query answered, a port the fabric has is recorded as it is, and the others are placeholders. */
  lemma ReportedIsExact(f: Image, said: seq<Exchange>, path: Path, e: End, p: Port, standIn: u16)
    requires f.Valid() && Lossless(said, f) && Resolve(f, PathHops(path)) == Some(e)
    requires Reported(said, path, p, standIn)
    ensures ExactPort(f, e.node, p, standIn)
    ensures p.number == 0 || HasPort(f, e.node, p.number) ==> Described(f, e.node, p.number).Some?
  {
    hide Answer, Resolve, PathHops, DecodePort, HasPort, Described;
    var k :| 0 <= k < |said| && Reports(said[k], path, p, standIn);
    PortAnswered(f, path, e, p.number);
  }

  lemma ZeroAnswered(f: Image, said: seq<Exchange>, path: Path, e: End)
    requires f.Valid() && Lossless(said, f) && Resolve(f, PathHops(path)) == Some(e) && ZeroFailed(said, path)
    ensures Described(f, e.node, 0).None?
  {
    hide Answer, Resolve, PathHops, DecodePort, HasPort, Described;
    PortAnswered(f, path, e, 0);
  }

  /** ... so every port that may be followed is recorded live. */
  lemma EligibleIsLive(f: Image, h: nat, p: Port, standIn: u16)
    requires f.Valid() && Readable(f, h) && Eligible(f, h, p.number) && ExactPort(f, h, p, standIn)
    ensures p.Live()
  {
    var i := FindPort(f.nodes[h].ports, p.number).value;
    hide FindPort;
    DecodedLive(f.nodes[h].ports[i].info, p.number);
  }

  /** The answers among these, less the timeouts `populate_node_ports` counts. */
  function Gain(said: seq<Exchange>): int {
    if said == [] then 0
    else
      var x := said[|said| - 1];
      Gain(said[..|said| - 1]) + (if x.answer.Ok? then 1 else 0)
      - if x.query.attr == PortInfoAttr && x.answer == Err(TimedOut) then 1 else 0
  }

  /** How many queries about ports other than 0 were refused as invalid input. */
  function Refusals(said: seq<Exchange>): nat {
    if said == [] then 0
    else
      var x := said[|said| - 1];
      Refusals(said[..|said| - 1])
      + if x.query.attr == PortInfoAttr && x.query.modifier != 0 && x.answer == Err(InvalidInput) then 1 else 0
  }

  /** What the decoded answer about a port says of the tally. */
  lemma TallyOne(x: Exchange, n: byte)
    requires x.query.attr == PortInfoAttr && x.query.modifier == n
    ensures var d := DecodePort(x.answer, n);
            && Gain([x]) == (if x.answer.Ok? then 1 else 0) - (if d == Err(TimedOut) then 1 else 0)
            && Refusals([x]) == if n != 0 && d == Err(InvalidInput) then 1 else 0
  {
    hide PI.Get, LinkStateOf, PhysStateOf;
    assert [x][..0] == [];
  }

  lemma {:induction false} TallySum(a: seq<Exchange>, b: seq<Exchange>)
    ensures Gain(a + b) == Gain(a) + Gain(b) && Refusals(a + b) == Refusals(a) + Refusals(b)
  {
    if b == [] {
      assert a + b == a;
    } else {
      assert (a + b)[..|a + b| - 1] == a + b[..|b| - 1];
      TallySum(a, b[..|b| - 1]);
    }
  }

  lemma TallyAsked(said: seq<Exchange>, x: Exchange)
    requires x.query.attr != PortInfoAttr
    ensures Gain(said + [x]) == Gain(said) + (if x.answer.Ok? then 1 else 0) && Refusals(said + [x]) == Refusals(said)
  {
    assert (said + [x])[..|said|] == said;
  }

  lemma Tallied(said: seq<Exchange>, x: Exchange)
    ensures Gain(said + [x]) == Gain(said) + Gain([x]) && Refusals(said + [x]) == Refusals(said) + Refusals([x])
  {
    assert (said + [x])[..|said|] == said;
    assert [x][..0] == [];
  }

  /** Some query about a port 1 to nports failed with an error that is neither a timeout nor invalid input. */
  ghost predicate PortFailed(said: seq<Exchange>, path: Path, nports: byte, error: ErrorKind) {
    && error != TimedOut && error != InvalidInput
    && exists k, x: byte :: 0 <= k < |said| && 1 <= x <= nports && FailsWith(said[k], path, x, error)
  }

  predicate FailsWith(x: Exchange, path: Path, n: byte, error: ErrorKind) {
    x.query == PortQuery(path, n) && DecodePort(x.answer, n) == Err(error)
  }

  lemma LastFailed(said: seq<Exchange>, path: Path, nports: byte, x: byte, error: ErrorKind)
    requires said != [] && FailsWith(said[|said| - 1], path, x, error) && 1 <= x <= nports
    requires error != TimedOut && error != InvalidInput
    ensures PortFailed(said, path, nports, error)
  {
  }

  /** With every query answered, no port of a readable node fails. */
  lemma NoPortFails(f: Image, said: seq<Exchange>, path: Path, e: End, error: ErrorKind)
    requires f.Valid() && Lossless(said, f) && Resolve(f, PathHops(path)) == Some(e) && Readable(f, e.node)
    ensures !PortFailed(said, path, f.nodes[e.node].nodeInfo.nports, error)
  {
    hide Answer, Resolve, PathHops, DecodePort, FindPort, Described;
    var nports := f.nodes[e.node].nodeInfo.nports;
    if PortFailed(said, path, nports, error) {
      var k, x: byte :| 0 <= k < |said| && 1 <= x <= nports && FailsWith(said[k], path, x, error);
      PortAnswered(f, path, e, x);
    }
  }

  // ---- Node records ----

  /** A true NodeInfo answer describes the node the path leads to and the port it is entered by. */
  lemma TrueNodeInfo(f: Image, path: Path, hopCnt: byte, a: Result<Attr64>)
    requires f.Valid() && TrueOrMissing(f, Exchange(NodeInfoQuery(path), hopCnt, a))
    ensures var d := DecodeNodeInfo(a);
            d.Ok? ==>
              var e := Resolve(f, PathHops(path));
              e.Some? && d.value == f.nodes[e.value.node].nodeInfo.(localPort := e.value.num)
  {
    if a.Ok? {
      var e := Resolve(f, PathHops(path)).value;
      NodeInfoRoundTrip(f.nodes[e.node].nodeInfo.(localPort := e.num));
    }
  }

  /** A true NodeDesc answer decodes to the node's description, when that has no NUL. */
  lemma TrueDesc(f: Image, path: Path, hopCnt: byte, a: Result<Attr64>, e: End)
    requires f.Valid() && TrueOrMissing(f, Exchange(DescQuery(path), hopCnt, a))
    requires Resolve(f, PathHops(path)) == Some(e)
    ensures a.Ok? && 0 !in f.nodes[e.node].description ==> DecodeDesc(a.value) == f.nodes[e.node].description
  {
    if a.Ok? && 0 !in f.nodes[e.node].description { DescriptionRecovered(f, DescQuery(path), e); }
  }

  /** A node record made from an answer to NodeInfo, a description and a port table. */
  ghost predicate RecordFrom(said: seq<Exchange>, n: Node, ni: NodeInfo, path: Path) {
    && n.drPath == path && n.guid == ni.nodeGuid && NodeTypeOf(ni.nodeType) == Some(n.nodeType)
    && n.localPort == ni.localPort && n.nports == ni.nports
    && TableUpTo(said, path, n, n.nports) && LidRule(n)
  }

  lemma NodeInfoAnswered(f: Image, path: Path)
    requires f.Valid() && Resolve(f, PathHops(path)).Some?
    ensures DecodeNodeInfo(Answer(f, NodeInfoQuery(path))).Ok?
  {
  }

  lemma RecordGood(said: seq<Exchange>, n: Node, ni: NodeInfo, path: Path)
    requires RecordFrom(said, n, ni, path)
    ensures n.drPath == path && n.guid == ni.nodeGuid && GoodTable(n) && Unlinked(n) && LidRule(n)
    ensures TableUpTo(said, path, n, n.nports)
  {
    hide AllReported, NoGap, ZeroFirst, LidRule;
  }

  lemma TrueRecord(f: Image, said: seq<Exchange>, path: Path, e: End, n: Node, ni: NodeInfo)
    requires f.Valid() && Truthful(said, f) && Resolve(f, PathHops(path)) == Some(e)
    requires ni == f.nodes[e.node].nodeInfo.(localPort := e.num) && RecordFrom(said, n, ni, path)
    requires 0 !in f.nodes[e.node].description ==> n.description == Some(f.nodes[e.node].description)
    ensures TrueNode(f, n)
  {
    hide Reported, NoGap, ZeroFirst, LidRule, TruePort, Truthful, FindPort, PathHops, Eligible, TrueLid, LidHeard;
    forall a | 0 <= a < |n.ports| ensures TruePort(f, e.node, n.ports[a], StandIn(n, n.ports[a].number)) {
      ReportedIsTrue(f, said, path, e, n.ports[a], StandIn(n, n.ports[a].number));
    }
    forall a | 0 <= a < |n.ports| && n.ports[a].Live() && n.ports[a].number != 0
      ensures Eligible(f, e.node, n.ports[a].number)
    {
      LiveIsEligible(f, e.node, n.ports[a], StandIn(n, n.ports[a].number));
    }
    LidIsTrue(f, said, path, e, n);
  }

  lemma LidIsTrue(f: Image, said: seq<Exchange>, path: Path, e: End, n: Node)
    requires f.Valid() && Truthful(said, f) && Resolve(f, PathHops(path)) == Some(e) && LidHeard(said, path, n)
    ensures TrueLid(f, e.node, n)
  {
    hide Resolve, PathHops, FindPort, Answer, DecodePort, Described, HasPort;
    if n.lid != 0 {
      var k :| 0 <= k < |said| && GivesLid(said[k], path, n);
      assert TrueOrMissing(f, said[k]);
      DecodedOk(said[k].answer);
      PortAnswered(f, path, e, 0);
      PortAnswered(f, path, e, n.localPort);
    }
  }

  lemma DecodedOk(a: Result<Attr64>)
    ensures forall x: byte :: DecodePort(a, x).Ok? ==> a.Ok?
  {
  }

  lemma ExactRecord(f: Image, said: seq<Exchange>, path: Path, e: End, n: Node)
    requires f.Valid() && Lossless(said, f) && Resolve(f, PathHops(path)) == Some(e)
    requires n.drPath == path && TrueNode(f, n) && TableUpTo(said, path, n, n.nports) && LidRule(n)
    ensures ExactNode(f, n)
  {
    hide Reported, TruePort, ExactPort, Lossless, FindPort, PathHops, LiveInfo, Refused, ZeroFailed, AllReported;
    hide FindNumber, Resolve, Described, LidRule, TrueLid, LidHeard, LidOf, Tabled;
    forall x: byte ensures FindNumber(n.ports, x).Some? <==> Tabled(f, e.node, x) {
      ExactNumbers(f, said, path, e, n, x);
    }
    forall a | 0 <= a < |n.ports| ensures ExactPort(f, e.node, n.ports[a], StandIn(n, n.ports[a].number)) {
      ExactRecordOf(f, said, path, e, n, a);
    }
    RecordedIsReadable(f, said, path, e, n);
    ExactLid(f, e.node, n);
    forall x: byte | Eligible(f, e.node, x)
      ensures FindNumber(n.ports, x).Some? && n.ports[FindNumber(n.ports, x).value].Live()
    {
      EligibleIsTabled(f, e.node, x);
      var p := n.ports[FindNumber(n.ports, x).value];
      EligibleIsLive(f, e.node, p, StandIn(n, p.number));
    }
  }

  lemma EligibleIsTabled(f: Image, h: nat, x: byte)
    requires Eligible(f, h, x)
    ensures Tabled(f, h, x)
  {
  }

  /** A node whose table could be filled is one a client can record. */
  lemma RecordedIsReadable(f: Image, said: seq<Exchange>, path: Path, e: End, n: Node)
    requires f.Valid() && Lossless(said, f) && Resolve(f, PathHops(path)) == Some(e)
    requires n.drPath == path && TrueNode(f, n) && TableUpTo(said, path, n, n.nports)
    ensures Readable(f, e.node)
  {
    hide Reported, Lossless, ExactPort, FindPort, PathHops, Resolve, Refused, ZeroFailed, FindNumber, Described;
    hide TruePort, TrueLid;
    forall x: byte | 1 <= x <= n.nports && FindPort(f.nodes[e.node].ports, x).Some?
      ensures Described(f, e.node, x).Some?
    {
      NothingRefused(f, said, path, e, x);
      ExactRecordOf(f, said, path, e, n, FindNumber(n.ports, x).value);
    }
  }

  lemma ExactRecordOf(f: Image, said: seq<Exchange>, path: Path, e: End, n: Node, a: nat)
    requires f.Valid() && Lossless(said, f) && Resolve(f, PathHops(path)) == Some(e)
    requires AllReported(said, path, n) && a < |n.ports|
    ensures ExactPort(f, e.node, n.ports[a], StandIn(n, n.ports[a].number))
    ensures n.ports[a].number == 0 || HasPort(f, e.node, n.ports[a].number) ==>
      Described(f, e.node, n.ports[a].number).Some?
  {
    hide Reported, Lossless, ExactPort, HasPort, Described, PathHops, Resolve;
    ReportedIsExact(f, said, path, e, n.ports[a], StandIn(n, n.ports[a].number));
  }

  /** The table has exactly the numbers it should. */
  lemma ExactNumbers(f: Image, said: seq<Exchange>, path: Path, e: End, n: Node, x: byte)
    requires f.Valid() && Lossless(said, f) && Resolve(f, PathHops(path)) == Some(e)
    requires TableUpTo(said, path, n, n.nports) && n.nports == f.nodes[e.node].nodeInfo.nports
    requires NodeTypeOf(f.nodes[e.node].nodeInfo.nodeType) == Some(n.nodeType)
    ensures FindNumber(n.ports, x).Some? <==> Tabled(f, e.node, x)
  {
    hide Reported, Lossless, ExactPort, HasPort, Described, PathHops, Resolve, Refused, ZeroFailed, FindNumber;
    hide LidHeard;
    if x == 0 {
      if ZeroFailed(said, path) { ZeroAnswered(f, said, path, e); }
      if FindNumber(n.ports, 0).Some? { ExactRecordOf(f, said, path, e, n, FindNumber(n.ports, 0).value); }
    } else {
      NothingRefused(f, said, path, e, x);
    }
  }

  /**
   The LID of a complete record is the node's: of port 0 of a switch that has one, or else of the port it was
   entered by.
   */
  lemma ExactLid(f: Image, h: nat, n: Node)
    requires h < |f.nodes| && LidRule(n) && TrueLid(f, h, n) && Ascending(n.ports)
    requires NodeTypeOf(f.nodes[h].nodeInfo.nodeType) == Some(n.nodeType)
    requires forall x: byte :: FindNumber(n.ports, x).Some? <==> Tabled(f, h, x)
    requires forall a :: 0 <= a < |n.ports| ==> TruePort(f, h, n.ports[a], StandIn(n, n.ports[a].number))
    requires forall a :: 0 <= a < |n.ports| ==> ExactPort(f, h, n.ports[a], StandIn(n, n.ports[a].number))
    ensures n.lid == LidOf(f, h, n.localPort)
  {
    hide Described, FindNumber;
    var zero, entry := FindNumber(n.ports, 0), FindNumber(n.ports, n.localPort);
    if zero.Some? { assert TruePort(f, h, n.ports[zero.value], 0) && zero.value == 0; }
    if ZeroHasLid(n) { assert FindNumber(n.ports, 0).Some?; }
    if entry.Some? {
      var p := n.ports[entry.value];
      assert TruePort(f, h, p, StandIn(n, p.number)) && ExactPort(f, h, p, StandIn(n, p.number));
    }
  }
}
