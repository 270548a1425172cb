/**
 What the traversals of src/discovery keep whoever answers: every record comes from what was heard, no port
 that is due is left alone without a cause, and every query carries the hop count of its path.
 */
module Explored {
  import opened Prelude
  import opened MadLayout
  import opened Simulator
  import opened RoundTrip
  import opened Topology
  import opened Search
  import opened ShortestPaths
  import opened PortTable
  import opened Arrival

  // ---- What was heard ----

  predicate Tells(x: Exchange, path: Path, ni: NodeInfo) {
    x.query == NodeInfoQuery(path) && DecodeNodeInfo(x.answer) == Ok(ni)
  }

  /** Some answer at the end of the path was this. */
  ghost predicate Told(said: seq<Exchange>, path: Path, ni: NodeInfo) {
    exists k :: 0 <= k < |said| && Tells(said[k], path, ni)
  }

  ghost predicate GuidTold(said: seq<Exchange>, path: Path, guid: u64) {
    exists ni :: Told(said, path, ni) && ni.nodeGuid == guid
  }

  predicate Describes(x: Exchange, path: Path, n: Node) {
    x.query == DescQuery(path) && x.answer.Ok? && n.description == Some(DecodeDesc(x.answer.value))
  }

  ghost predicate DescHeard(said: seq<Exchange>, path: Path, n: Node) {
    exists k :: 0 <= k < |said| && Describes(said[k], path, n)
  }

  predicate SameInfo(n: Node, ni: NodeInfo) {
    && n.guid == ni.nodeGuid && NodeTypeOf(ni.nodeType) == Some(n.nodeType)
    && n.localPort == ni.localPort && n.nports == ni.nports
  }

  ghost predicate InfoHeard(said: seq<Exchange>, path: Path, n: Node) {
    exists ni :: Told(said, path, ni) && SameInfo(n, ni)
  }

  /** The whole record of a node comes from answers at the end of its path. */
  ghost predicate RecordHeard(said: seq<Exchange>, n: Node) {
    InfoHeard(said, n.drPath, n) && DescHeard(said, n.drPath, n) && HeardUpTo(said, n.drPath, n, n.nports)
  }

  ghost predicate AllHeard(said: seq<Exchange>, nodes: seq<Node>) {
    forall i :: 0 <= i < |nodes| ==> RecordHeard(said, nodes[i])
  }

  lemma ToldStill(said: seq<Exchange>, all: seq<Exchange>, path: Path, ni: NodeInfo)
    requires Includes(all, said) && Told(said, path, ni)
    ensures Told(all, path, ni)
  {
    var k :| 0 <= k < |said| && Tells(said[k], path, ni);
    var j :| 0 <= j < |all| && all[j] == said[k];
    assert Tells(all[j], path, ni);
  }

  lemma GuidStill(said: seq<Exchange>, all: seq<Exchange>, path: Path, guid: u64)
    requires Includes(all, said) && GuidTold(said, path, guid)
    ensures GuidTold(all, path, guid)
  {
    hide Told, Includes;
    var ni :| Told(said, path, ni) && ni.nodeGuid == guid;
    ToldStill(said, all, path, ni);
  }

  lemma DescStill(said: seq<Exchange>, all: seq<Exchange>, path: Path, n: Node)
    requires Includes(all, said) && DescHeard(said, path, n)
    ensures DescHeard(all, path, n)
  {
    var k :| 0 <= k < |said| && Describes(said[k], path, n);
    var j :| 0 <= j < |all| && all[j] == said[k];
    assert Describes(all[j], path, n);
  }

  /** Hearing more, and linking ports, takes nothing from a record. */
  lemma RecordStays(said: seq<Exchange>, all: seq<Exchange>, m: Node, n: Node)
    requires Includes(all, said) && RecordHeard(said, m) && SameTable(m, n)
    ensures RecordHeard(all, n)
  {
    hide Told, Includes, SameTable, HeardUpTo, DescHeard;
    SameTableFields(m, n);
    var ni :| Told(said, m.drPath, ni) && SameInfo(m, ni);
    ToldStill(said, all, m.drPath, ni);
    assert SameInfo(n, ni);
    DescStill(said, all, m.drPath, m);
    DescSame(all, m.drPath, m, n);
    HeardStays(said, all, m.drPath, m, m.nports);
    HeardSame(all, m.drPath, m, n, m.nports);
  }

  lemma SameTableFields(m: Node, n: Node)
    requires SameTable(m, n)
    ensures n == m.(ports := n.ports) && |n.ports| == |m.ports|
    ensures forall c :: 0 <= c < |m.ports| ==> n.ports[c].number == m.ports[c].number
  {
  }

  lemma DescSame(said: seq<Exchange>, path: Path, m: Node, n: Node)
    requires DescHeard(said, path, m) && n.description == m.description
    ensures DescHeard(said, path, n)
  {
    var k :| 0 <= k < |said| && Describes(said[k], path, m);
    assert Describes(said[k], path, n);
  }

  lemma LidSame(said: seq<Exchange>, path: Path, m: Node, n: Node)
    requires LidHeard(said, path, m)
    requires n.lid == m.lid && n.nodeType == m.nodeType && n.localPort == m.localPort
    ensures LidHeard(said, path, n)
  {
    hide HasLid, DecodePort;
    if n.lid != 0 {
      var k :| 0 <= k < |said| && GivesLid(said[k], path, m);
      assert GivesLid(said[k], path, n);
    }
  }

  lemma HeardSame(said: seq<Exchange>, path: Path, m: Node, n: Node, bound: nat)
    requires HeardUpTo(said, path, m, bound) && SameTable(m, n)
    ensures HeardUpTo(said, path, n, bound)
  {
    hide Refused, ZeroFailed, LidHeard;
    forall a | 0 <= a < |n.ports| ensures Reported(said, path, n.ports[a], StandIn(n, n.ports[a].number)) {
      var k :| 0 <= k < |said| && Reports(said[k], path, m.ports[a], StandIn(m, m.ports[a].number));
      assert Reports(said[k], path, n.ports[a], StandIn(n, n.ports[a].number));
    }
    forall x: byte | FindNumber(m.ports, x).Some? ensures FindNumber(n.ports, x).Some? { StillInTable(m, n, x); }
    LidSame(said, path, m, n);
  }

  lemma StillInTable(m: Node, n: Node, x: byte)
    requires SameTable(m, n)
    ensures FindNumber(n.ports, x).Some? <==> FindNumber(m.ports, x).Some?
  {
    hide FindNumber;
    var r, s := FindNumber(m.ports, x), FindNumber(n.ports, x);
    if r.Some? { assert n.ports[r.value].number == x; }
    if s.Some? { assert m.ports[s.value].number == x; }
  }

  lemma AllHeardStays(said: seq<Exchange>, all: seq<Exchange>, nodes: seq<Node>, nodes': seq<Node>)
    requires said <= all && AllHeard(said, nodes) && Grown(nodes, nodes') && |nodes'| == |nodes|
    ensures AllHeard(all, nodes')
  {
    hide RecordHeard, SameTable;
    PrefixIncluded(said, all);
    forall i | 0 <= i < |nodes'| ensures RecordHeard(all, nodes'[i]) {
      RecordStays(said, all, nodes[i], nodes'[i]);
    }
  }

  lemma PrefixIncluded(said: seq<Exchange>, all: seq<Exchange>)
    requires said <= all
    ensures Includes(all, said)
  {
    assert forall k :: 0 <= k < |said| ==> all[k] == said[k];
  }

  // ---- Why a node was not recorded ----

  /** The query that failed was about the node, or its type is unknown. */
  predicate Fatal(x: Exchange, path: Path) {
    || (x.query == NodeInfoQuery(path)
        && (DecodeNodeInfo(x.answer).Err? || NodeTypeOf(DecodeNodeInfo(x.answer).value.nodeType).None?))
    || (x.query == DescQuery(path) && x.answer.Err?)
  }

  /** The query that failed was about port 1 to nports, and it neither timed out nor was refused as invalid input. */
  predicate FatalPort(x: Exchange, path: Path, nports: byte) {
    && 1 <= x.query.modifier <= nports && x.query == PortQuery(path, x.query.modifier)
    && var d := DecodePort(x.answer, x.query.modifier); d.Err? && d.error != TimedOut && d.error != InvalidInput
  }

  ghost predicate NodeFailed(said: seq<Exchange>, path: Path) {
    exists k :: 0 <= k < |said| && Fatal(said[k], path)
  }

  ghost predicate SomePortFailed(said: seq<Exchange>, path: Path, nports: byte) {
    exists k :: 0 <= k < |said| && FatalPort(said[k], path, nports)
  }

  /** Some query at the end of the path failed so that no record could be made. */
  ghost predicate Failed(said: seq<Exchange>, path: Path) {
    NodeFailed(said, path) || exists ni :: Told(said, path, ni) && SomePortFailed(said, path, ni.nports)
  }

  lemma FailedStill(said: seq<Exchange>, all: seq<Exchange>, path: Path)
    requires Includes(all, said) && Failed(said, path)
    ensures Failed(all, path)
  {
    if NodeFailed(said, path) {
      var k :| 0 <= k < |said| && Fatal(said[k], path);
      var j :| 0 <= j < |all| && all[j] == said[k];
    } else {
      var ni :| Told(said, path, ni) && SomePortFailed(said, path, ni.nports);
      ToldStill(said, all, path, ni);
      var k :| 0 <= k < |said| && FatalPort(said[k], path, ni.nports);
      var j :| 0 <= j < |all| && all[j] == said[k];
    }
  }

  /** An answer named a port that the table of its node does not have. */
  ghost predicate MisnamedBy(said: seq<Exchange>, nodes: seq<Node>, path: Path, ni: NodeInfo, i: nat) {
    && i < |nodes| && Told(said, path, ni) && GuidTold(said, path, nodes[i].guid)
    && FindNumber(nodes[i].ports, ni.localPort).None?
  }

  ghost predicate Misnamed(said: seq<Exchange>, nodes: seq<Node>, path: Path) {
    exists ni, i :: MisnamedBy(said, nodes, path, ni, i)
  }

  // ---- Why a port is not linked ----

  function Longer(path: Path, number: byte): Path
    requires GetHopCount(path) < 63
  {
    path[GetHopCount(path) + 1 := number]
  }

  /** The port is linked, or its path has no room, or the node behind it could not be recorded. */
  ghost predicate PortDone(said: seq<Exchange>, nodes: seq<Node>, r: PortRef, path: Path) {
    && Has(nodes, r)
    && (|| PortAt(nodes, r).remote.Some? || GetHopCount(path) >= 63
        || Failed(said, Longer(path, PortAt(nodes, r).number)))
  }

  /** The path has room, and the node behind the port does not tell of the port it was entered by. */
  ghost predicate MisnamedAt(said: seq<Exchange>, nodes: seq<Node>, r: PortRef, path: Path) {
    Has(nodes, r) && GetHopCount(path) < 63 && Misnamed(said, nodes, Longer(path, PortAt(nodes, r).number))
  }

  ghost predicate PortSettled(said: seq<Exchange>, nodes: seq<Node>, r: PortRef, path: Path) {
    PortDone(said, nodes, r, path) || MisnamedAt(said, nodes, r, path)
  }

  lemma DoneStill(said: seq<Exchange>, all: seq<Exchange>, nodes: seq<Node>, nodes': seq<Node>, r: PortRef, path: Path)
    requires Includes(all, said) && Grown(nodes, nodes') && PortDone(said, nodes, r, path)
    ensures PortDone(all, nodes', r, path)
  {
    hide Failed, GetHopCount, Includes;
    assert SameTable(nodes[r.node], nodes'[r.node]);
    if GetHopCount(path) < 63 && Failed(said, Longer(path, PortAt(nodes, r).number)) {
      FailedStill(said, all, Longer(path, PortAt(nodes, r).number));
    }
  }

  lemma SettledStill(said: seq<Exchange>, all: seq<Exchange>, nodes: seq<Node>, nodes': seq<Node>, r: PortRef,
                     path: Path)
    requires Includes(all, said) && Grown(nodes, nodes') && PortSettled(said, nodes, r, path)
    ensures PortSettled(all, nodes', r, path)
  {
    hide PortDone, GetHopCount, Includes, MisnamedBy, Grown;
    if PortDone(said, nodes, r, path) {
      DoneStill(said, all, nodes, nodes', r, path);
    } else {
      GrownHas(nodes, nodes', r);
      var longer := Longer(path, PortAt(nodes, r).number);
      var ni, i :| MisnamedBy(said, nodes, longer, ni, i);
      MisnamedStill(said, all, nodes, nodes', longer, ni, i);
    }
  }

  lemma MisnamedStill(said: seq<Exchange>, all: seq<Exchange>, nodes: seq<Node>, nodes': seq<Node>, path: Path,
                      ni: NodeInfo, i: nat)
    requires Includes(all, said) && Grown(nodes, nodes') && MisnamedBy(said, nodes, path, ni, i)
    ensures MisnamedBy(all, nodes', path, ni, i)
  {
    hide Includes, Told, GuidTold, FindNumber;
    assert SameTable(nodes[i], nodes'[i]);
    ToldStill(said, all, path, ni);
    GuidStill(said, all, path, nodes[i].guid);
    StillInTable(nodes[i], nodes'[i], ni.localPort);
  }

  lemma PortFailedIs(said: seq<Exchange>, all: seq<Exchange>, path: Path, nports: byte, error: ErrorKind)
    requires Includes(all, said) && PortFailed(said, path, nports, error)
    ensures SomePortFailed(all, path, nports)
  {
    var k, x: byte :| 0 <= k < |said| && 1 <= x <= nports && FailsWith(said[k], path, x, error);
    var j :| 0 <= j < |all| && all[j] == said[k];
    assert FatalPort(all[j], path, nports);
  }

  lemma SuffixIncluded(before: seq<Exchange>, said: seq<Exchange>)
    ensures Includes(before + said, said)
  {
    assert forall k :: 0 <= k < |said| ==> (before + said)[|before| + k] == said[k];
  }

  lemma DescStays(said: seq<Exchange>, all: seq<Exchange>, path: Path, m: Node, n: Node)
    requires said <= all && DescHeard(said, path, m) && n.description == m.description
    ensures DescHeard(all, path, n)
  {
    hide DescHeard, Includes;
    PrefixIncluded(said, all);
    DescStill(said, all, path, m);
    DescSame(all, path, m, n);
  }

  lemma RecordIsHeard(said: seq<Exchange>, all: seq<Exchange>, n: Node, ni: NodeInfo, path: Path)
    requires RecordFrom(said, n, ni, path) && Includes(all, said) && Told(all, path, ni) && DescHeard(all, path, n)
    ensures RecordHeard(all, n)
  {
    hide Told, Includes, DescHeard, HeardUpTo, LidRule, Bounded;
    assert SameInfo(n, ni);
    HeardStays(said, all, path, n, n.nports);
  }

  /** What the attempt to record a node says of its failure. */
  ghost predicate Unfilled(said: seq<Exchange>, path: Path, ni: NodeInfo) {
    NodeTypeOf(ni.nodeType).None? || NodeFailed(said, path) || SomePortFailed(said, path, ni.nports)
  }

  lemma UnfilledFails(said: seq<Exchange>, path: Path, ni: NodeInfo)
    requires Told(said, path, ni) && Unfilled(said, path, ni)
    ensures Failed(said, path)
  {
    if NodeTypeOf(ni.nodeType).None? {
      var k :| 0 <= k < |said| && Tells(said[k], path, ni);
      assert Fatal(said[k], path);
    }
  }

  lemma LastTells(said: seq<Exchange>, path: Path)
    requires said != [] && said[|said| - 1].query == NodeInfoQuery(path)
    ensures match DecodeNodeInfo(said[|said| - 1].answer)
            case Err(_) => Failed(said, path)
            case Ok(ni) => Told(said, path, ni)
  {
    var last := said[|said| - 1];
    match DecodeNodeInfo(last.answer) {
      case Err(_) => assert Fatal(last, path);
      case Ok(ni) => assert Tells(last, path, ni);
    }
  }

  lemma LastDescribes(said: seq<Exchange>, path: Path, n: Node)
    requires said != [] && said[|said| - 1].query == DescQuery(path)
    ensures match said[|said| - 1].answer
            case Err(_) => NodeFailed(said, path)
            case Ok(b) => n.description == Some(DecodeDesc(b)) ==> DescHeard(said, path, n)
  {
    var last := said[|said| - 1];
    if last.answer.Err? { assert Fatal(last, path); }
    else if n.description == Some(DecodeDesc(last.answer.value)) { assert Describes(last, path, n); }
  }

  lemma NothingNew(said: seq<Exchange>, all: seq<Exchange>, nodes: seq<Node>)
    requires said <= all && AllHeard(said, nodes)
    ensures AllHeard(all, nodes)
  {
    hide AllHeard;
    PrefixGrown(nodes, nodes);
    AllHeardStays(said, all, nodes, nodes);
  }

  /** A registered record that was heard keeps the registry heard. */
  lemma ArrivalHeard(said: seq<Exchange>, all: seq<Exchange>, nodes: seq<Node>, nodeMap: Registry, nodes': seq<Node>,
                     nodeMap': Registry, path: Path, i: nat)
    requires said <= all && AllHeard(said, nodes) && Registers(nodes, nodeMap, nodes', nodeMap', path, i)
    requires |nodes'| > |nodes| ==> RecordHeard(all, nodes'[i])
    ensures AllHeard(all, nodes')
  {
    hide RecordHeard, GoodTable, Unlinked;
    PrefixGrown(nodes, nodes);
    AllHeardStays(said, all, nodes, nodes);
  }

  /** Nothing is asked for this entry: its port is linked, or its path has no room. */
  predicate Idle(nodes: seq<Node>, it: Item) {
    Has(nodes, it.port) && (PortAt(nodes, it.port).remote.Some? || GetHopCount(it.path) >= 63)
  }

  /** The path to the node behind an entry. */
  function BehindEntry(nodes: seq<Node>, it: Item): Path {
    if Has(nodes, it.port) && GetHopCount(it.path) < 63 then Longer(it.path, PortAt(nodes, it.port).number) else it.path
  }

  /** From one moment to another, the first query was for the NodeInfo at the end of the path. */
  predicate AsksFirst(before: seq<Exchange>, after: seq<Exchange>, path: Path) {
    before < after && after[|before|].query == NodeInfoQuery(path)
  }

  lemma AskedFirst(before: seq<Exchange>, x: Exchange, path: Path)
    requires x.query == NodeInfoQuery(path)
    ensures AsksFirst(before, before + [x], path)
  {
  }

  lemma AsksStill(before: seq<Exchange>, mid: seq<Exchange>, after: seq<Exchange>, path: Path)
    requires AsksFirst(before, mid, path) && mid <= after
    ensures AsksFirst(before, after, path)
  {
  }

  lemma LinkedSettled(said: seq<Exchange>, nodes: seq<Node>, r: PortRef, path: Path)
    requires Has(nodes, r) && PortAt(nodes, r).remote.Some?
    ensures PortDone(said, nodes, r, path) && PortSettled(said, nodes, r, path)
  {
  }

  lemma FullSettled(said: seq<Exchange>, nodes: seq<Node>, r: PortRef, path: Path)
    requires Has(nodes, r) && GetHopCount(path) >= 63
    ensures PortDone(said, nodes, r, path) && PortSettled(said, nodes, r, path)
  {
  }

  lemma FailedSettled(said: seq<Exchange>, nodes: seq<Node>, r: PortRef, path: Path)
    requires Has(nodes, r) && GetHopCount(path) < 63 && Failed(said, Longer(path, PortAt(nodes, r).number))
    ensures PortDone(said, nodes, r, path) && PortSettled(said, nodes, r, path)
  {
  }

  /** Linking the port with the one its neighbour names settles it, and is all there is to do if that port is known. */
  lemma JoinSettled(said: seq<Exchange>, nodes: seq<Node>, r: PortRef, i: nat, ni: NodeInfo, path: Path)
    requires Has(nodes, r) && i < |nodes| && GetHopCount(path) < 63
    requires var longer := Longer(path, PortAt(nodes, r).number);
             Told(said, longer, ni) && GuidTold(said, longer, nodes[i].guid)
    ensures var t := LinkedTo(nodes, r, i, ni.localPort);
            && PortSettled(said, t, r, path)
            && (FindNumber(nodes[i].ports, ni.localPort).Some? ==> PortDone(said, t, r, path))
            && (FindNumber(nodes[i].ports, ni.localPort).None? ==>
                  t == nodes && Misnamed(said, nodes, Longer(path, PortAt(nodes, r).number)))
  {
    hide GetHopCount, Told, GuidTold, Failed;
    if FindNumber(nodes[i].ports, ni.localPort).None? {
      assert MisnamedBy(said, nodes, Longer(path, PortAt(nodes, r).number), ni, i);
    }
  }

  /** Linking two ports takes nothing from a record and leaves as many. */
  lemma LinkingHeard(said: seq<Exchange>, nodes: seq<Node>, local: PortRef, i: nat, number: byte)
    requires Has(nodes, local) && i < |nodes|
    ensures var t := LinkedTo(nodes, local, i, number); |t| == |nodes| && (AllHeard(said, nodes) ==> AllHeard(said, t))
  {
    hide AllHeard, Grown;
    var t := LinkedTo(nodes, local, i, number);
    PrefixGrown(nodes, nodes);
    var b := FindNumber(nodes[i].ports, number);
    if b.Some? { LinkGrown(nodes, local, PortRef(i, b.value)); }
    if AllHeard(said, nodes) { AllHeardStays(said, said, nodes, t); }
  }

  /** Some answer at the end of the path named this port. */
  ghost predicate EnteredBy(said: seq<Exchange>, path: Path, number: byte) {
    exists ni :: Told(said, path, ni) && ni.localPort == number
  }

  lemma PortIsTold(said: seq<Exchange>, path: Path, ni: NodeInfo)
    requires Told(said, path, ni)
    ensures EnteredBy(said, path, ni.localPort)
  {
  }

  lemma EnteredStill(said: seq<Exchange>, all: seq<Exchange>, path: Path, number: byte)
    requires said <= all && EnteredBy(said, path, number)
    ensures EnteredBy(all, path, number)
  {
    hide Told, Includes;
    PrefixIncluded(said, all);
    var ni :| Told(said, path, ni) && ni.localPort == number;
    ToldStill(said, all, path, ni);
  }

  /** Of the nodes from `from` on, node `i` is the only one, met at the end of the path. */
  predicate MetAt(from: nat, nodes: seq<Node>, i: nat, path: Path) {
    |nodes| > from ==> i == from && |nodes| == from + 1 && nodes[i].drPath == path
  }

  lemma MetHere(nodes: seq<Node>, nodeMap: Registry, nodes': seq<Node>, nodeMap': Registry, path: Path, i: nat)
    requires Registers(nodes, nodeMap, nodes', nodeMap', path, i)
    ensures i < |nodes'| && MetAt(|nodes|, nodes', i, path)
  {
    hide GoodTable, Unlinked;
  }

  lemma JoinEntered(said: seq<Exchange>, nodes: seq<Node>, r: PortRef, i: nat, number: byte, path: Path)
    requires Has(nodes, r) && i < |nodes| && GetHopCount(path) < 63
    requires var longer := Longer(path, PortAt(nodes, r).number);
             EnteredBy(said, longer, number) && GuidTold(said, longer, nodes[i].guid)
    ensures var t := LinkedTo(nodes, r, i, number);
            && PortSettled(said, t, r, path)
            && (FindNumber(nodes[i].ports, number).Some? ==> PortDone(said, t, r, path))
            && (FindNumber(nodes[i].ports, number).None? ==>
                  t == nodes && Misnamed(said, nodes, Longer(path, PortAt(nodes, r).number)))
  {
    hide GetHopCount, Told, GuidTold, LinkedTo, FindNumber, PortSettled, PortDone, Misnamed, Longer;
    var ni :| Told(said, Longer(path, PortAt(nodes, r).number), ni) && ni.localPort == number;
    JoinSettled(said, nodes, r, i, ni, path);
  }

  lemma IsLonger(path: Path, number: byte, longer: Path)
    requires GetHopCount(path) < 63 && longer == path[GetHopCount(path) + 1 := number]
    ensures longer == Longer(path, number)
  {
  }

  lemma GuidNow(said: seq<Exchange>, all: seq<Exchange>, nodes: seq<Node>, nodes': seq<Node>, path: Path, i: nat)
    requires said <= all && Grown(nodes, nodes') && i < |nodes| && GuidTold(said, path, nodes[i].guid)
    ensures i < |nodes'| && GuidTold(all, path, nodes'[i].guid)
  {
    hide GuidTold, Includes;
    PrefixIncluded(said, all);
    assert SameTable(nodes[i], nodes'[i]);
    GuidStill(said, all, path, nodes[i].guid);
  }

  lemma MetStays(from: nat, nodes: seq<Node>, nodes': seq<Node>, i: nat, path: Path)
    requires MetAt(from, nodes, i, path) && Grown(nodes, nodes') && i < |nodes|
    ensures |nodes| > from ==> i == from && |nodes| == from + 1 && nodes'[i].drPath == path
  {
    assert SameTable(nodes[i], nodes'[i]);
  }

  lemma EntryMisnamed(said: seq<Exchange>, nodes: seq<Node>, path: Path, i: nat, number: byte)
    requires i < |nodes| && EnteredBy(said, path, number) && GuidTold(said, path, nodes[i].guid)
    ensures FindNumber(nodes[i].ports, number).None? ==> Misnamed(said, nodes, path)
  {
    hide Told, GuidTold, FindNumber;
    var ni :| Told(said, path, ni) && ni.localPort == number;
    if FindNumber(nodes[i].ports, number).None? { assert MisnamedBy(said, nodes, path, ni, i); }
  }

  lemma NotLinked(nodes: seq<Node>, r: PortRef, i: nat, number: byte)
    requires Has(nodes, r) && i < |nodes| && FindNumber(nodes[i].ports, number).None?
    ensures LinkedTo(nodes, r, i, number) == nodes
  {
  }

  lemma GuidIsTold(said: seq<Exchange>, path: Path, ni: NodeInfo)
    requires Told(said, path, ni)
    ensures GuidTold(said, path, ni.nodeGuid)
  {
  }

  lemma SamePortStill(nodes: seq<Node>, nodes': seq<Node>, r: PortRef)
    requires Has(nodes, r) && |nodes'| >= |nodes| && nodes'[..|nodes|] == nodes
    ensures Has(nodes', r) && PortAt(nodes', r) == PortAt(nodes, r)
  {
    assert nodes'[r.node] == nodes'[..|nodes|][r.node];
  }

  // ---- The breadth-first traversal ----

  /** A live port other than port 0 of a switch. */
  predicate IsDue(nodes: seq<Node>, r: PortRef) {
    && Has(nodes, r) && nodes[r.node].nodeType == Switch && PortAt(nodes, r).Live() && PortAt(nodes, r).number != 0
  }

  function Entry(nodes: seq<Node>, r: PortRef): Item
    requires Has(nodes, r)
  {
    Item(r, nodes[r.node].drPath)
  }

  /** The live ports of the switches from `from` on are in the work list, each with its node's path. */
  ghost predicate Pushed(nodes: seq<Node>, from: nat, queue: seq<Item>) {
    forall r: PortRef :: IsDue(nodes, r) && from <= r.node ==> Entry(nodes, r) in queue
  }

  /** Every live port of a switch other than the first node is still to be followed, or settled. */
  ghost predicate Searched(said: seq<Exchange>, nodes: seq<Node>, queue: seq<Item>) {
    forall r: PortRef :: IsDue(nodes, r) && r.node > 0 ==>
      Entry(nodes, r) in queue || PortSettled(said, nodes, r, nodes[r.node].drPath)
  }

  lemma PushedSearched(said: seq<Exchange>, nodes: seq<Node>, queue: seq<Item>)
    requires Pushed(nodes, 1, queue)
    ensures Searched(said, nodes, queue)
  {
  }

  lemma GrownDue(nodes: seq<Node>, nodes': seq<Node>, r: PortRef)
    requires Grown(nodes, nodes') && r.node < |nodes|
    ensures IsDue(nodes', r) <==> IsDue(nodes, r)
    ensures Has(nodes, r) ==> Has(nodes', r) && Entry(nodes', r) == Entry(nodes, r)
  {
    assert SameTable(nodes[r.node], nodes'[r.node]);
  }

  /** One turn: its entry is settled, the rest is still there, and new switches have been pushed. */
  lemma SearchedNext(said: seq<Exchange>, all: seq<Exchange>, nodes: seq<Node>, nodes': seq<Node>, it: Item,
                     rest: seq<Item>, queue: seq<Item>)
    requires said <= all && Grown(nodes, nodes') && Searched(said, nodes, [it] + rest)
    requires PortSettled(all, nodes', it.port, it.path) && rest <= queue && Pushed(nodes', |nodes|, queue)
    ensures Searched(all, nodes', queue)
  {
    hide PortSettled, Includes, Grown;
    PrefixIncluded(said, all);
    forall r: PortRef | IsDue(nodes', r) && r.node > 0
      ensures Entry(nodes', r) in queue || PortSettled(all, nodes', r, nodes'[r.node].drPath)
    {
      if r.node < |nodes| {
        GrownDue(nodes, nodes', r);
        var item := Entry(nodes, r);
        if item !in [it] + rest { SettledStill(said, all, nodes, nodes', r, item.path); }
        if item in rest { InLonger(item, rest, queue); }
      }
    }
  }

  lemma InLonger(item: Item, rest: seq<Item>, queue: seq<Item>)
    requires item in rest && rest <= queue
    ensures item in queue
  {
    var k :| 0 <= k < |rest| && rest[k] == item;
    assert queue[k] == item;
  }

  /** What a newly reached node adds. */
  lemma PushesPushed(nodes: seq<Node>, from: nat, i: nat, path: Path, queue: seq<Item>)
    requires i < |nodes| && from <= |nodes| && (|nodes| > from ==> i == from == |nodes| - 1 && nodes[i].drPath == path)
    requires forall it :: it in Pushes(nodes, i, path) ==> it in queue
    ensures Pushed(nodes, from, queue)
  {
    forall r: PortRef | IsDue(nodes, r) && from <= r.node ensures Entry(nodes, r) in queue {
      SeedsHasAll(nodes[i].ports, i, path, r.port);
    }
  }

  lemma NonePushed(nodes: seq<Node>, queue: seq<Item>)
    ensures Pushed(nodes, |nodes|, queue)
  {
  }

  /** Reaching a node pushes its ports if it is new and a switch. */
  lemma EnterPushes(nodes: seq<Node>, nodeMap: Registry, nodes': seq<Node>, nodeMap': Registry, path: Path, i: nat,
                    stack: seq<Item>)
    requires Registers(nodes, nodeMap, nodes', nodeMap', path, i)
    ensures Pushed(nodes', |nodes|, stack + Pushes(nodes', i, path))
  {
    hide GoodTable, Unlinked, Pushes, IsDue;
    PushesPushed(nodes', |nodes|, i, path, stack + Pushes(nodes', i, path));
  }

  lemma PushedMore(nodes: seq<Node>, nodes': seq<Node>, queue: seq<Item>, queue': seq<Item>)
    requires |nodes'| >= |nodes| >= 1 && nodes'[..|nodes|] == nodes && queue <= queue'
    requires Pushed(nodes, 1, queue) && Pushed(nodes', |nodes|, queue')
    ensures Pushed(nodes', 1, queue')
  {
    forall r: PortRef | IsDue(nodes', r) && 1 <= r.node ensures Entry(nodes', r) in queue' {
      if r.node < |nodes| {
        assert nodes'[r.node] == nodes'[..|nodes|][r.node];
        InLonger(Entry(nodes, r), queue, queue');
      }
    }
  }

  lemma PushedGrown(nodes: seq<Node>, nodes': seq<Node>, from: nat, queue: seq<Item>, queue': seq<Item>)
    requires Pushed(nodes, from, queue) && Grown(nodes, nodes') && |nodes'| == |nodes|
    requires queue <= queue'
    ensures Pushed(nodes', from, queue')
  {
    hide Grown;
    forall r: PortRef | IsDue(nodes', r) && from <= r.node ensures Entry(nodes', r) in queue' {
      GrownDue(nodes, nodes', r);
      InLonger(Entry(nodes, r), queue, queue');
    }
  }

  // ---- The agent's own ports ----

  /** The path out of port `x` of the agent's node. */
  function HopPath(nodes: seq<Node>, x: byte): Path
    requires nodes != []
  {
    START_PATH[Base(nodes) := x]
  }

  /** A node with the GUID told at the end of the path is known. */
  ghost predicate Registered(said: seq<Exchange>, nodes: seq<Node>, path: Path) {
    exists i :: 0 <= i < |nodes| && GuidTold(said, path, nodes[i].guid)
  }

  /** The neighbour behind each of the first live ports of the agent's node is known, or it could not be recorded. */
  ghost predicate HopsAnswered(said: seq<Exchange>, nodes: seq<Node>, seen: nat) {
    nodes != [] &&
    forall k :: 0 <= k < |nodes[0].ports| && k < seen && nodes[0].ports[k].Live() && nodes[0].ports[k].number != 0 ==>
      var path := HopPath(nodes, nodes[0].ports[k].number);
      Failed(said, path) || Registered(said, nodes, path)
  }

  lemma RegisteredStill(said: seq<Exchange>, all: seq<Exchange>, nodes: seq<Node>, nodes': seq<Node>, path: Path)
    requires Includes(all, said) && Grown(nodes, nodes') && Registered(said, nodes, path)
    ensures Registered(all, nodes', path)
  {
    hide GuidTold, Includes;
    var i :| 0 <= i < |nodes| && GuidTold(said, path, nodes[i].guid);
    assert SameTable(nodes[i], nodes'[i]);
    GuidStill(said, all, path, nodes[i].guid);
  }

  lemma NoHops(said: seq<Exchange>, nodes: seq<Node>)
    requires nodes != []
    ensures HopsAnswered(said, nodes, 0)
  {
  }

  lemma HopIdle(said: seq<Exchange>, nodes: seq<Node>, k: nat)
    requires HopsAnswered(said, nodes, k) && k < |nodes[0].ports|
    requires !nodes[0].ports[k].Live() || nodes[0].ports[k].number == 0
    ensures HopsAnswered(said, nodes, k + 1)
  {
  }

  /** The k-th port has been asked about. */
  lemma HopAnswered(said: seq<Exchange>, all: seq<Exchange>, nodes: seq<Node>, nodes': seq<Node>, k: nat,
                    reached: Result<nat>)
    requires said <= all && HopsAnswered(said, nodes, k) && k < |nodes[0].ports|
    requires |nodes'| >= |nodes| && nodes'[..|nodes|] == nodes
    requires var path := HopPath(nodes, nodes[0].ports[k].number);
             && (reached.Err? ==> Failed(all, path))
             && (reached.Ok? ==> reached.value < |nodes'| && GuidTold(all, path, nodes'[reached.value].guid))
    ensures HopsAnswered(all, nodes', k + 1)
  {
    hide Failed, GuidTold;
    PrefixGrown(nodes, nodes');
    HopsStill(said, all, nodes, nodes', k);
    assert nodes'[0] == nodes'[..|nodes|][0];
  }

  lemma HopsStill(said: seq<Exchange>, all: seq<Exchange>, nodes: seq<Node>, nodes': seq<Node>, seen: nat)
    requires said <= all && Grown(nodes, nodes') && HopsAnswered(said, nodes, seen)
    ensures HopsAnswered(all, nodes', seen)
  {
    hide Failed, Registered, Includes;
    PrefixIncluded(said, all);
    GrownRoot(nodes, nodes');
    assert SameTable(nodes[0], nodes'[0]);
    forall k | 0 <= k < |nodes'[0].ports| && k < seen && nodes'[0].ports[k].Live() && nodes'[0].ports[k].number != 0
      ensures var path := HopPath(nodes', nodes'[0].ports[k].number);
              Failed(all, path) || Registered(all, nodes', path)
    {
      var path := HopPath(nodes, nodes[0].ports[k].number);
      if Failed(said, path) { FailedStill(said, all, path); } else { RegisteredStill(said, all, nodes, nodes', path); }
    }
  }

  // ---- Hop counts ----

  /** From one moment to another, every query was about the end of one path and carried one hop count. */
  ghost predicate Along(before: seq<Exchange>, after: seq<Exchange>, path: Path, hopCnt: byte) {
    before <= after && forall k :: |before| <= k < |after| ==> after[k].query.path == path && after[k].hopCnt == hopCnt
  }

  /** These queries are about the end of one path and carry one hop count. */
  ghost predicate About(said: seq<Exchange>, path: Path, hopCnt: byte) {
    forall k :: 0 <= k < |said| ==> said[k].query.path == path && said[k].hopCnt == hopCnt
  }

  lemma AboutOne(said: seq<Exchange>, x: Exchange, path: Path, hopCnt: byte)
    requires About(said, path, hopCnt) && x.query.path == path && x.hopCnt == hopCnt
    ensures About(said + [x], path, hopCnt)
  {
  }

  lemma AlongMore(before: seq<Exchange>, mid: seq<Exchange>, said: seq<Exchange>, path: Path, hopCnt: byte)
    requires Along(before, mid, path, hopCnt) && About(said, path, hopCnt)
    ensures Along(before, mid + said, path, hopCnt)
  {
  }

  lemma AlongNone(before: seq<Exchange>, path: Path, hopCnt: byte)
    ensures Along(before, before, path, hopCnt) && About([], path, hopCnt)
  {
  }

  /**
   The hop count a traversal gives a path: its number of hops; but with the agent on a switch one less,
   except that the breadth-first traversal gives 1 to a path of one hop.
   */
  function HopsFor(ring: bool, base: nat, path: Path): nat {
    var n := |PathHops(path)|;
    if base != 0 || n == 0 || (n == 1 && !ring) then n else n - 1
  }

  /** Every query from the k-th on carries the hop count of its path. */
  ghost predicate Counted(ring: bool, base: nat, said: seq<Exchange>, from: nat) {
    forall k :: from <= k < |said| ==> said[k].hopCnt == HopsFor(ring, base, said[k].query.path)
  }

  lemma AlongCounted(ring: bool, base: nat, before: seq<Exchange>, after: seq<Exchange>, path: Path, hopCnt: byte)
    requires Along(before, after, path, hopCnt) && hopCnt == HopsFor(ring, base, path)
    ensures Counted(ring, base, after, |before|)
  {
  }

  lemma CountedJoin(ring: bool, base: nat, mid: seq<Exchange>, after: seq<Exchange>, from: nat)
    requires mid <= after && from <= |mid| && Counted(ring, base, mid, from) && Counted(ring, base, after, |mid|)
    ensures Counted(ring, base, after, from)
  {
    hide HopsFor;
  }

  lemma AlongOne(before: seq<Exchange>, x: Exchange, path: Path, hopCnt: byte)
    requires x.query.path == path && x.hopCnt == hopCnt
    ensures Along(before, before + [x], path, hopCnt)
  {
  }

  lemma AlongJoin(before: seq<Exchange>, mid: seq<Exchange>, after: seq<Exchange>, path: Path, hopCnt: byte)
    requires Along(before, mid, path, hopCnt) && Along(mid, after, path, hopCnt)
    ensures Along(before, after, path, hopCnt)
  {
  }

  lemma CountedNone(ring: bool, base: nat, said: seq<Exchange>)
    ensures Counted(ring, base, said, |said|)
  {
  }

  lemma RootCounted(ring: bool, base: nat, before: seq<Exchange>, after: seq<Exchange>)
    requires Along(before, after, START_PATH, 0)
    ensures Counted(ring, base, after, |before|) && |before| <= |after|
  {
    StartPathOk(1);
  }

  /** The hop count of the first hop: 1, or as `get_hop_count` has it. */
  lemma HopCounted(ring: bool, base: nat, before: seq<Exchange>, after: seq<Exchange>, x: byte)
    requires base <= 1 && x != 0 && Along(before, after, START_PATH[base := x], if ring then base else 1)
    ensures Counted(ring, base, after, |before|)
  {
    FirstHopOk(base, x);
  }

  /** Beyond the first hop both give `get_hop_count`, and so does the ring traversal at the first. */
  lemma HopsDeeper(ring: bool, base: nat, path: Path)
    requires PathOk(base, path) && (|PathHops(path)| >= 2 || (ring && |PathHops(path)| == 1))
    ensures HopsFor(ring, base, path) == GetHopCount(path)
  {
    HopsNonzero(path);
    HopCountOfEncode(base, PathHops(path));
  }

  // ---- The breadth-first traversal as a whole ----

  /**
   What the traversal keeps whoever answers: every record is made of answers, each neighbour of the agent's
   node is known or could not be recorded, each live port of another switch is still to be followed or
   settled, and every query carried the hop count of its path.
   */
  ghost predicate Accounted(said: seq<Exchange>, nodes: seq<Node>, queue: seq<Item>) {
    && nodes != [] && AllHeard(said, nodes) && HopsAnswered(said, nodes, |nodes[0].ports|)
    && Searched(said, nodes, queue) && Counted(false, Base(nodes), said, 0)
  }

  lemma StartAccounted(said: seq<Exchange>, nodes: seq<Node>, queue: seq<Item>)
    requires nodes != [] && AllHeard(said, nodes) && HopsAnswered(said, nodes, |nodes[0].ports|)
    requires Pushed(nodes, 1, queue) && Counted(false, Base(nodes), said, 0)
    ensures Accounted(said, nodes, queue)
  {
    hide AllHeard, HopsAnswered, Pushed, Counted, Searched;
    PushedSearched(said, nodes, queue);
  }

  lemma AccountedNext(said: seq<Exchange>, all: seq<Exchange>, nodes: seq<Node>, nodes': seq<Node>, it: Item,
                      rest: seq<Item>, queue: seq<Item>)
    requires said <= all && nodes != [] && Grown(nodes, nodes') && Accounted(said, nodes, [it] + rest)
    requires AllHeard(said, nodes) ==> AllHeard(all, nodes')
    requires PortSettled(all, nodes', it.port, it.path) && rest <= queue && Pushed(nodes', |nodes|, queue)
    requires nodes' != [] && Counted(false, Base(nodes'), all, |said|)
    ensures Accounted(all, nodes', queue)
  {
    hide AllHeard, HopsAnswered, Pushed, Counted, Searched, PortSettled, Grown;
    GrownRoot(nodes, nodes');
    SameRootPorts(nodes, nodes');
    SearchedNext(said, all, nodes, nodes', it, rest, queue);
    HopsStill(said, all, nodes, nodes', |nodes[0].ports|);
    CountedJoin(false, Base(nodes'), said, all, 0);
  }

  lemma SameRootPorts(nodes: seq<Node>, nodes': seq<Node>)
    requires nodes != [] && Grown(nodes, nodes')
    ensures nodes' != [] && |nodes'[0].ports| == |nodes[0].ports|
  {
    assert SameTable(nodes[0], nodes'[0]);
  }
}
