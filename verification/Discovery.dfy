/**
 The discovery client of src/discovery/lib.rs and its two traversals, src/discovery/ib.rs and
 src/discovery/nvlink.rs.
 */
module Discovery {
  import opened Prelude
  import opened MadLayout
  import opened Simulator
  import opened RoundTrip
  import opened Topology
  import opened Search
  import opened ShortestPaths
  import opened PortTable
  import opened Arrival
  import opened NvLink
  import opened Explored
  import opened RingExplored
  import Transaction

  class Fabric {
    /** Who asks: ids, retries and matching of replies. */
    const requester: Transaction.Requester
    /** The fabric behind the port, for stating when answers are true. */
    ghost const truth: Image

    var nodes: seq<Node>
    var nodeMap: Registry
    var switches: seq<nat>
    var hcas: seq<nat>
    /** Where in the requester's record the traversal began. */
    ghost var since: nat

    constructor (requester: Transaction.Requester)
      ensures this.requester == requester && truth == requester.truth && since == 0
    {
      this.requester, this.truth := requester, requester.truth;
      nodes, nodeMap, switches, hcas, since := [], map[], [], [], 0;
    }

    /** The requester's record of what it asked is in order. */
    ghost predicate Online()
      reads requester, this`since
    {
      requester.truth == truth && requester.Tracked() && since <= |requester.history|
    }

    /** What this traversal has asked and heard. */
    ghost function Heard(): seq<Exchange>
      reads this`since, requester`history
    {
      if since <= |requester.history| then requester.history[since..] else []
    }

    /** A symmetric fabric with distinct GUIDs. */
    ghost predicate Plain() {
      truth.Valid() && Symmetric(truth) && GuidsDistinct(truth)
    }

    /** Answers so far were true or missing. */
    ghost predicate HearsTruth()
      reads requester`history
    {
      truth.Valid() && Truthful(requester.history, truth)
    }

    /** ... in a plain fabric. */
    ghost predicate HearsPlainTruth()
      reads requester`history
    {
      Plain() && HearsTruth()
    }

    /** ... and every query that could be answered was. */
    ghost predicate HearsAll()
      reads requester`history
    {
      HearsPlainTruth() && Lossless(requester.history, truth)
    }

    /** What was heard stays heard, so if all of it is true so was what was heard before. */
    twostate predicate Afterwards()
      reads requester, this`since
    {
      && Online() && old(requester.history) <= requester.history
      && (HearsTruth() ==> old(HearsTruth())) && (HearsAll() ==> old(HearsAll()))
    }

    /** ... within one traversal. */
    twostate predicate Amid()
      reads requester, this`since
    {
      Afterwards() && since == old(since) && old(Heard()) <= Heard()
    }

    /** Timeouts and errors are counted for what is asked, and nothing else. */
    ghost function Tally(): (int, int)
      reads requester
    {
      (requester.Open() - Gain(requester.history), requester.Slips() - Refusals(requester.history))
    }

    /** ... with the counts in order. */
    twostate predicate Later()
      reads requester, this`since
    {
      Amid() && Tally() == old(Tally())
    }

    // ---- src/discovery/lib.rs ----

    /** One request and its reply. */
    method Ask(q: Query, hopCnt: byte) returns (r: Result<Attr64>)
      requires Online()
      modifies requester
      ensures Amid() && requester.history == old(requester.history) + [Exchange(q, hopCnt, r)]
      ensures Heard() == old(Heard()) + [Exchange(q, hopCnt, r)]
      ensures requester.Open() == old(requester.Open()) + (if r.Ok? then 1 else 0)
      ensures requester.Slips() == old(requester.Slips())
      ensures HearsTruth() ==> TrueOrMissing(truth, Exchange(q, hopCnt, r))
      ensures HearsAll() ==> r == Answer(truth, q)
    {
      hide Truthful, Lossless, TrueOrMissing, Symmetric, GuidsDistinct, Answer;
      ghost var before := requester.history;
      r := requester.Transact(q, hopCnt);
      LastTold(before, Exchange(q, hopCnt, r), truth);
      assert requester.history[since..] == before[since..] + [Exchange(q, hopCnt, r)];
    }

    method FetchNodeInfo(path: Path, hopCnt: byte) returns (r: Result<NodeInfo>, ghost a: Result<Attr64>)
      requires Online()
      modifies requester
      ensures Later() && requester.history == old(requester.history) + [Exchange(NodeInfoQuery(path), hopCnt, a)]
      ensures Heard() == old(Heard()) + [Exchange(NodeInfoQuery(path), hopCnt, a)]
      ensures r == DecodeNodeInfo(a)
      ensures HearsTruth() && r.Ok? ==>
                var e := Resolve(truth, PathHops(path));
                e.Some? && r.value == truth.nodes[e.value.node].nodeInfo.(localPort := e.value.num)
      ensures HearsAll() && Resolve(truth, PathHops(path)).Some? ==> r.Ok?
    {
      hide Gain, Refusals, Heard, Truthful, Lossless, TrueOrMissing, Symmetric, GuidsDistinct, Answer, Resolve;
      hide PathHops;
      ghost var before := requester.history;
      var bytes := Ask(NodeInfoQuery(path), hopCnt);
      a := bytes;
      TallyAsked(before, Exchange(NodeInfoQuery(path), hopCnt, a));
      if HearsTruth() { TrueNodeInfo(truth, path, hopCnt, a); }
      if HearsAll() && Resolve(truth, PathHops(path)).Some? { NodeInfoAnswered(truth, path); }
      if bytes.Err? { return Err(bytes.error), a; }
      var ni := NodeInfoFromBytes(bytes.value);
      if ni.None? { return Err(InvalidData), a; }
      r := Ok(ni.value);
    }

    method FetchNodeDesc(path: Path, hopCnt: byte) returns (r: Result<seq<byte>>, ghost a: Result<Attr64>)
      requires Online()
      modifies requester
      ensures Later() && requester.history == old(requester.history) + [Exchange(DescQuery(path), hopCnt, a)]
      ensures Heard() == old(Heard()) + [Exchange(DescQuery(path), hopCnt, a)]
      ensures match a case Err(e) => r == Err(e) case Ok(b) => r == Ok(DecodeDesc(b))
      ensures HearsTruth() && r.Ok? ==> forall e :: Resolve(truth, PathHops(path)) == Some(e) ==>
                0 !in truth.nodes[e.node].description ==> r.value == truth.nodes[e.node].description
      ensures HearsAll() && Resolve(truth, PathHops(path)).Some? ==> r.Ok?
    {
      hide Gain, Refusals, Heard, Truthful, Lossless, TrueOrMissing, Symmetric, GuidsDistinct, Resolve, PathHops;
      ghost var before := requester.history;
      var bytes := Ask(DescQuery(path), hopCnt);
      a := bytes;
      TallyAsked(before, Exchange(DescQuery(path), hopCnt, a));
      if HearsTruth() && Resolve(truth, PathHops(path)).Some? {
        TrueDesc(truth, path, hopCnt, a, Resolve(truth, PathHops(path)).value);
      }
      if bytes.Err? { return Err(bytes.error), a; }
      r := Ok(DecodeDesc(bytes.value));
    }

    method FetchPortInfo(path: Path, num: byte, hopCnt: byte) returns (r: Result<Port>, ghost x: Exchange)
      requires Online()
      modifies requester
      ensures Amid() && requester.history == old(requester.history) + [x] && Heard() == old(Heard()) + [x]
      ensures requester.Open() == old(requester.Open()) + (if x.answer.Ok? then 1 else 0)
      ensures requester.Slips() == old(requester.Slips())
      ensures x.query == PortQuery(path, num) && x.hopCnt == hopCnt && r == DecodePort(x.answer, num)
    {
      var a := Ask(PortQuery(path, num), hopCnt);
      x := Exchange(PortQuery(path, num), hopCnt, a);
      r := DecodePort(a, num);
    }

    /** `fetch_port_info` with what `populate_node_ports` counts: timeouts, and refusals of ports other than 0. */
    method CountPortInfo(path: Path, num: byte, hopCnt: byte) returns (r: Result<Port>, ghost x: Exchange)
      requires Online()
      modifies requester
      ensures Later() && requester.history == old(requester.history) + [x] && Heard() == old(Heard()) + [x]
      ensures x.query == PortQuery(path, num) && x.hopCnt == hopCnt && r == DecodePort(x.answer, num)
    {
      hide Heard, DecodePort, Gain, Refusals, Truthful, Lossless, Symmetric, GuidsDistinct;
      r, x := FetchPortInfo(path, num, hopCnt);
      TallyOne(x, num);
      Tallied(old(requester.history), x);
      if r == Err(TimedOut) { requester.madTimeouts := requester.madTimeouts + 1; }
      if num != 0 && r == Err(InvalidInput) { requester.madErrors := requester.madErrors + 1; }
    }

    /** One turn of the loop of `populate_node_ports`. */
    method AddPort(n: Node, p: byte, path: Path, hopCnt: byte, ghost said: seq<Exchange>)
      returns (r: Result<Node>, ghost x: Exchange)
      requires Online() && 1 <= p <= n.nports && TableUpTo(said, path, n, p - 1) && LidRule(n)
      modifies requester
      ensures Later() && requester.history == old(requester.history) + [x] && Heard() == old(Heard()) + [x]
      ensures x.query == PortQuery(path, p) && x.hopCnt == hopCnt
      ensures r.Ok? ==> TableUpTo(said + [x], path, r.value, p) && LidRule(r.value)
      ensures r.Ok? ==> r.value == n.(lid := r.value.lid, ports := r.value.ports) && n.ports <= r.value.ports
      ensures r.Err? ==> PortFailed(said + [x], path, n.nports, r.error)
    {
      hide Heard, TableUpTo, LidRule, Reported, Refused, DecodePort, Ascending, ZeroFailed, Truthful, Lossless;
      hide Symmetric, GuidsDistinct, PortFailed, Tally;
      TableBound(said, path, n, p - 1);
      var got;
      got, x := CountPortInfo(path, p, hopCnt);
      TableStays(said, [x], path, n, p - 1);
      LastReports(said + [x], path, p);
      if got.Err? && got.error == InvalidInput {
        SkipKeepsTable(said + [x], path, n, p);
        return Ok(n), x;
      }
      if got.Err? && got.error != TimedOut {
        LastFailed(said + [x], path, n.nports, p, got.error);
        return Err(got.error), x;
      }
      var port := if got.Ok? then got.value else Placeholder(p);
      AttachKeepsTable(said + [x], path, n, port);
      AttachKeepsLids(n, port);
      r := Ok(Attach(n, port));
    }

    /** The first query of `populate_node_ports`, about port 0 of a switch. */
    method AddPortZero(n: Node, path: Path, hopCnt: byte) returns (r: Node, ghost x: Exchange)
      requires Online() && n.nodeType == Switch && n.ports == [] && n.lid == 0
      modifies requester
      ensures Later() && requester.history == old(requester.history) + [x] && Heard() == old(Heard()) + [x]
      ensures x.query == PortQuery(path, 0) && x.hopCnt == hopCnt
      ensures TableUpTo([x], path, r, 0) && LidRule(r) && r == n.(lid := r.lid, ports := r.ports)
      ensures var zero := DecodePort(x.answer, 0);
              r.ports == if zero.Ok? then [zero.value] else []
    {
      hide Heard, TableUpTo, LidRule, Reported, Refused, DecodePort, Ascending, ZeroFailed, Truthful, Lossless;
      hide Symmetric, GuidsDistinct, Tally;
      var zero;
      zero, x := CountPortInfo(path, 0, hopCnt);
      LastReports([x], path, 0);
      if zero.Ok? {
        AttachZero([x], path, n, zero.value);
        r := Attach(n, zero.value);
      } else {
        EmptyTable([x], path, n);
        r := n;
      }
    }

    /** `populate_node_ports`: port 0 of a switch first, then 1 to `numPorts`, each asked about once. */
    method PopulateNodePorts(n0: Node, path: Path, hopCnt: byte) returns (r: Result<Node>, ghost said: seq<Exchange>)
      requires Online() && n0.ports == [] && n0.lid == 0
      modifies requester
      ensures Later() && requester.history == old(requester.history) + said && Heard() == old(Heard()) + said
      ensures About(said, path, hopCnt)
      ensures r.Ok? ==> r.value == n0.(lid := r.value.lid, ports := r.value.ports)
      ensures r.Ok? ==> TableUpTo(said, path, r.value, n0.nports) && LidRule(r.value)
      ensures n0.nodeType == Switch ==>
                && said != [] && said[0].query == PortQuery(path, 0)
                && var zero := DecodePort(said[0].answer, 0);
                   r.Ok? && zero.Ok? ==> r.value.ports != [] && r.value.ports[0] == zero.value
      ensures r.Err? ==> PortFailed(said, path, n0.nports, r.error)
      ensures r.Ok? ==> |said| == n0.nports as int + if n0.nodeType == Switch then 1 else 0
    {
      hide Heard, TableUpTo, LidRule, DecodePort, Truthful, Lossless, Symmetric, GuidsDistinct, PortFailed, About;
      hide Tally;
      var n := n0;
      said := [];
      AlongNone([], path, hopCnt);
      if n.nodeType == Switch {
        ghost var x;
        n, x := AddPortZero(n, path, hopCnt);
        AboutOne([], x, path, hopCnt);
        assert [] + [x] == [x];
        said := [x];
      } else {
        EmptyTable(said, path, n);
      }
      ghost var first, opening := n.ports, said;
      var p := 1;
      while p <= n0.nports
        invariant 1 <= p <= n0.nports + 1
        invariant Later() && requester.history == old(requester.history) + said && Heard() == old(Heard()) + said
        invariant About(said, path, hopCnt)
        invariant n == n0.(lid := n.lid, ports := n.ports) && first <= n.ports && opening <= said
        invariant |said| == |opening| + p - 1
        invariant TableUpTo(said, path, n, p - 1) && LidRule(n)
      {
        var added;
        ghost var x;
        added, x := AddPort(n, p, path, hopCnt, said);
        Appended(old(requester.history), said, x);
        Appended(old(Heard()), said, x);
        AboutOne(said, x, path, hopCnt);
        said := said + [x];
        if added.Err? { return Err(added.error), said; }
        n := added.value;
        p := p + 1;
      }
      r := Ok(n);
    }

    /** The part of `discover_node` that fills in the record of a node with a new GUID. */
    method FillNode(ni: NodeInfo, path: Path, hopCnt: byte) returns (r: Result<Node>, ghost said: seq<Exchange>)
      requires Online()
      modifies requester
      ensures Later() && EndsWith(requester.history, said) && Along(old(Heard()), Heard(), path, hopCnt)
      ensures r.Ok? ==> RecordFrom(said, r.value, ni, path)
      ensures r.Ok? ==> DescHeard(Heard(), path, r.value) && Includes(Heard(), said)
      ensures r.Err? ==> Unfilled(Heard(), path, ni)
      ensures HearsTruth() && r.Ok? ==> forall e :: Resolve(truth, PathHops(path)) == Some(e) ==>
        0 !in truth.nodes[e.node].description ==> r.value.description == Some(truth.nodes[e.node].description)
      ensures HearsAll() && Answered(path, ni) && Ends(truth, PathHops(path)) ==> r.Ok?
    {
      hide Heard, Tally, Truthful, Lossless, Symmetric, GuidsDistinct, Resolve, PathHops, TableUpTo, LidRule;
      hide DecodeDesc, PortFailed, NodeFailed, SomePortFailed, DescHeard, Includes, Along, About, EndsWith;
      said := [];
      ghost var start := Heard();
      AlongNone(start, path, hopCnt);
      EndsWithNone(requester.history);
      var nodeType := NodeTypeOf(ni.nodeType);
      if nodeType.None? { return Err(InvalidData), said; }
      var node := Node(0, path, nodeType.value, ni.nodeGuid, None, ni.localPort, ni.nports, []);
      ghost var a;
      var desc;
      desc, a := FetchNodeDesc(path, hopCnt);
      AboutOne([], Exchange(DescQuery(path), hopCnt, a), path, hopCnt);
      assert [] + [Exchange(DescQuery(path), hopCnt, a)] == [Exchange(DescQuery(path), hopCnt, a)];
      AlongMore(start, start, [Exchange(DescQuery(path), hopCnt, a)], path, hopCnt);
      EndsWithNone(requester.history);
      LastDescribes(Heard(), path, node.(description := if desc.Ok? then Some(desc.value) else None));
      if desc.Err? { return Err(desc.error), said; }
      node := node.(description := Some(desc.value));
      ghost var before, heard := requester.history, Heard();
      r, said := PopulateNodePorts(node, path, hopCnt);
      SuffixIncluded(heard, said);
      AlongMore(start, heard, said, path, hopCnt);
      EndsWithSuffix(before, said);
      if r.Err? { PortFailedIs(said, Heard(), path, ni.nports, r.error); }
      else { DescStays(heard, Heard(), path, node, r.value); }
      if r.Err? && HearsAll() && Answered(path, ni) && Ends(truth, PathHops(path)) {
        TruthOfParts(before, said, truth);
        NoPortFails(truth, said, path, Resolve(truth, PathHops(path)).value, r.error);
      }
    }

    /** `discover_node`: the index of the node `path` leads to, registering it if its GUID is new. */
    method DiscoverNode(path: Path, hopCnt: byte) returns (r: Result<nat>)
      requires Online() && Indexed(nodes, nodeMap)
      modifies requester, this`nodes, this`nodeMap
      ensures Later()
      ensures r.Err? ==> nodes == old(nodes) && nodeMap == old(nodeMap)
      ensures r.Ok? ==> Registers(old(nodes), old(nodeMap), nodes, nodeMap, path, r.value)
      // the node at the end of the path is asked about first, and nothing more if its GUID is known
      ensures AsksFirst(old(requester.history), requester.history, path)
      ensures r.Ok? && |nodes| == |old(nodes)| ==> |requester.history| == |old(requester.history)| + 1
      // whoever answers: it fails only over an answer, and a record is made of answers alone
      ensures Along(old(Heard()), Heard(), path, hopCnt)
      ensures r.Err? ==> Failed(Heard(), path)
      ensures r.Ok? ==> GuidTold(Heard(), path, nodes[r.value].guid)
      ensures r.Ok? && |nodes| > |old(nodes)| ==> RecordHeard(Heard(), nodes[r.value])
      ensures HearsTruth() && r.Ok? ==>
        Met(truth, path, nodes[r.value]) && (|nodes| > |old(nodes)| ==> TrueNode(truth, nodes[r.value]))
      ensures HearsAll() && r.Ok? && |nodes| > |old(nodes)| ==> ExactNode(truth, nodes[r.value])
      ensures HearsAll() && Ends(truth, PathHops(path)) ==> r.Ok?
    {
      hide Heard, Tally, ExactNode, TrueNode, PathHops, GoodTable, Unlinked, Resolve, Indexed, Answered, Home;
      hide Readable, DecodeNodeInfo, Symmetric, GuidsDistinct, Truthful, Lossless, Failed, Told, RecordHeard;
      hide AsksFirst, Along, GuidTold, Met, Online;
      ghost var start, began := Heard(), requester.history;
      var got, a := FetchNodeInfo(path, hopCnt);
      LastTells(Heard(), path);
      AskedFirst(began, Exchange(NodeInfoQuery(path), hopCnt, a), path);
      AlongOne(start, Exchange(NodeInfoQuery(path), hopCnt, a), path, hopCnt);
      if got.Err? { return Err(got.error); }
      var ni := got.value;
      if HearsTruth() { IsAnswered(path, ni); }
      if ni.nodeGuid in nodeMap {
        IndexedNode(nodeMap[ni.nodeGuid], ni.nodeGuid);
        GuidIsTold(Heard(), path, ni);
        if HearsTruth() { AnsweredIsMet(path, ni, nodes[nodeMap[ni.nodeGuid]]); }
        return Ok(nodeMap[ni.nodeGuid]);
      }
      ghost var heard, mid := Heard(), requester.history;
      r := Record(ni, path, hopCnt);
      AsksStill(began, mid, requester.history, path);
      AlongJoin(start, heard, Heard(), path, hopCnt);
    }

    lemma IndexedNode(i: nat, guid: u64)
      requires Indexed(nodes, nodeMap) && guid in nodeMap && nodeMap[guid] == i
      ensures i < |nodes| && nodes[i].guid == guid
    {
    }

    lemma AnsweredIsMet(path: Path, ni: NodeInfo, n: Node)
      requires truth.Valid() && Answered(path, ni) && n.guid == ni.nodeGuid
      ensures Met(truth, path, n)
    {
    }

    lemma IsAnswered(path: Path, ni: NodeInfo)
      requires truth.Valid()
      requires var e := Resolve(truth, PathHops(path));
               e.Some? && ni == truth.nodes[e.value.node].nodeInfo.(localPort := e.value.num)
      ensures Answered(path, ni)
    {
    }

    /** The part of `discover_node` that registers a node with a new GUID. */
    method Record(ni: NodeInfo, path: Path, hopCnt: byte) returns (r: Result<nat>)
      requires Online() && Indexed(nodes, nodeMap) && ni.nodeGuid !in nodeMap && Told(Heard(), path, ni)
      modifies requester, this`nodes, this`nodeMap
      ensures Later() && Along(old(Heard()), Heard(), path, hopCnt)
      ensures r.Err? ==> nodes == old(nodes) && nodeMap == old(nodeMap) && Failed(Heard(), path)
      ensures r.Ok? ==> |nodes| > |old(nodes)| && Registers(old(nodes), old(nodeMap), nodes, nodeMap, path, r.value)
      ensures r.Ok? ==> GuidTold(Heard(), path, nodes[r.value].guid) && RecordHeard(Heard(), nodes[r.value])
      ensures HearsTruth() && Answered(path, ni) && r.Ok? ==>
        Met(truth, path, nodes[r.value]) && TrueNode(truth, nodes[r.value])
      ensures HearsAll() && Answered(path, ni) ==>
        (r.Ok? ==> ExactNode(truth, nodes[r.value])) && (Ends(truth, PathHops(path)) ==> r.Ok?)
    {
      hide Heard, Tally, RecordFrom, TableUpTo, LidRule, ExactNode, TrueNode, PathHops, GoodTable, Unlinked, Resolve;
      hide Symmetric, GuidsDistinct, Truthful, Lossless, EndsWith, Readable, Failed, Told, Unfilled, DescHeard;
      hide Includes, RecordHeard, Along, Online;
      ghost var heard := Heard();
      var filled, said := FillNode(ni, path, hopCnt);
      PrefixIncluded(heard, Heard());
      ToldStill(heard, Heard(), path, ni);
      if filled.Err? {
        UnfilledFails(Heard(), path, ni);
        return Err(filled.error);
      }
      RecordIsHeard(said, Heard(), filled.value, ni, path);
      RecordGood(said, filled.value, ni, path);
      if HearsTruth() && Answered(path, ni) { FilledIsTrue(path, filled.value, ni, said); }
      GuidIsTold(Heard(), path, ni);
      nodes := nodes + [filled.value];
      nodeMap := nodeMap[ni.nodeGuid := |nodes| - 1];
      r := Ok(|nodes| - 1);
    }

    lemma FilledIsTrue(path: Path, n: Node, ni: NodeInfo, said: seq<Exchange>)
      requires HearsTruth() && EndsWith(requester.history, said) && RecordFrom(said, n, ni, path)
      requires Resolve(truth, PathHops(path)).Some?
      requires var e := Resolve(truth, PathHops(path)).value;
               && ni == truth.nodes[e.node].nodeInfo.(localPort := e.num)
               && (0 !in truth.nodes[e.node].description ==> n.description == Some(truth.nodes[e.node].description))
      ensures TrueNode(truth, n)
      ensures HearsAll() ==> ExactNode(truth, n)
    {
      hide Heard, TrueNode, ExactNode, PathHops, Resolve, Symmetric, GuidsDistinct, Truthful, Lossless, TableUpTo;
      hide LidRule;
      EndIsTrue(requester.history, said, truth);
      TrueRecord(truth, said, path, Resolve(truth, PathHops(path)).value, n, ni);
      if HearsAll() { ExactRecord(truth, said, path, Resolve(truth, PathHops(path)).value, n); }
    }

    // ---- src/discovery/ib.rs ----

    /** Between steps of a traversal, whoever answers. */
    ghost predicate Ready(queue: seq<Item>)
      reads this
    {
      nodes != [] && nodes[0].drPath == START_PATH && Consistent(nodes, nodeMap) && GoodQueue(nodes, queue)
    }

    /** Pushes the ports of node `i` a traversal may follow. */
    method PushEligible(stack: seq<Item>, i: nat, path: Path) returns (r: seq<Item>)
      requires i < |nodes|
      ensures r == stack + Seeds(nodes[i].ports, i, path)
    {
      var ports := nodes[i].ports;
      r := stack;
      var a := 0;
      while a < |ports|
        invariant 0 <= a <= |ports|
        invariant r == stack + Seeds(ports[..a], i, path)
      {
        assert ports[..a + 1][..a] == ports[..a];
        if ports[a].number != 0 && ports[a].Live() {
          r := r + [Item(PortRef(i, a), path)];
        }
        a := a + 1;
      }
      assert ports[..a] == ports;
    }

    /** `discover_node` in the middle of a traversal: what it keeps of the registry and the work list. */
    method Reach(path: Path, hopCnt: byte, ghost queue: seq<Item>) returns (r: Result<nat>)
      requires Ready(queue) && PathOk(Base(nodes), path)
      requires Online()
      modifies requester, this`nodes, this`nodeMap
      ensures Later()
      ensures Ready(queue) && nodes[0] == old(nodes[0]) && |nodes| >= |old(nodes)|
      ensures nodes[..|old(nodes)|] == old(nodes)
      ensures r.Err? ==> nodes == old(nodes) && nodeMap == old(nodeMap)
      ensures r.Ok? ==> Registers(old(nodes), old(nodeMap), nodes, nodeMap, path, r.value)
      // whoever answers: it fails only over an answer, and records are made of answers alone
      ensures Along(old(Heard()), Heard(), path, hopCnt)
      ensures (r.Err? ==> Failed(Heard(), path)) && (r.Ok? ==> GuidTold(Heard(), path, nodes[r.value].guid))
      ensures old(AllHeard(Heard(), nodes)) ==> AllHeard(Heard(), nodes)
      ensures HearsTruth() && old(TrueNodes(truth, nodes)) ==> TrueNodes(truth, nodes)
      ensures HearsTruth() && r.Ok? ==> Met(truth, path, nodes[r.value])
      ensures HearsPlainTruth() && old(Sound(truth, nodes, queue)) ==>
        && Sound(truth, nodes, queue)
        && (r.Ok? ==> Home(truth, nodes[r.value]) == Resolve(truth, PathHops(path)).value.node)
      ensures HearsAll() && old(ExactNodes(truth, nodes)) ==> ExactNodes(truth, nodes)
      ensures HearsAll() && Ends(truth, PathHops(path)) ==> r.Ok?
    {
      hide Heard, Tally, GoodQueue, Resolve, PathHops, TrueNode, ExactNode, LidRule, PathOk, Home, GoodTable;
      hide Unlinked, Indexed, RefsInside, Sound, Symmetric, Truthful, Lossless, GuidsDistinct, TrueNodes, Ends;
      hide AllHeard, RecordHeard, Failed, GuidTold, Along;
      ghost var before, map0, heard := nodes, nodeMap, Heard();
      r := DiscoverNode(path, hopCnt);
      if r.Err? {
        if AllHeard(heard, before) { NothingNew(heard, Heard(), nodes); }
      } else {
        if AllHeard(heard, before) { ArrivalHeard(heard, Heard(), before, map0, nodes, nodeMap, path, r.value); }
        ArrivalConsistent(before, map0, nodes, nodeMap, path, r.value, queue);
        if HearsAll() && ExactNodes(truth, before) {
          ArrivalExact(truth, before, map0, nodes, nodeMap, path, r.value);
        }
        if HearsTruth() && TrueNodes(truth, before) { ArrivalTrue(truth, before, map0, nodes, nodeMap, path, r.value); }
        if HearsPlainTruth() && Sound(truth, before, queue) {
          ArrivalSound(truth, before, map0, nodes, nodeMap, path, r.value, queue);
        }
      }
    }

    /** The search is on track and `path` leaves the frontier. */
    ghost predicate Outbound(path: Path, queue: seq<Item>, seen: nat, level: nat)
      reads this
    {
      Plain() && Sound(truth, nodes, queue) && OnTrack(truth, nodes, queue, seen, level) && Outward(truth, path, level)
    }

    /** Reaches the node at the end of `path` and pushes its ports if it is a switch. */
    method Enter(path: Path, hopCnt: byte, stack: seq<Item>, ghost level: nat, ghost seen: nat, ghost head: seq<Item>)
      returns (r: Result<nat>, queue: seq<Item>)
      requires Ready(head + stack) && PathOk(Base(nodes), path) && |PathHops(path)| >= 1
      requires Online()
      modifies requester, this`nodes, this`nodeMap
      ensures Later()
      ensures Ready(head + queue) && nodes[0] == old(nodes[0]) && |nodes| >= |old(nodes)|
      ensures nodes[..|old(nodes)|] == old(nodes)
      ensures r.Err? ==> queue == stack && nodes == old(nodes) && nodeMap == old(nodeMap)
      ensures r.Ok? ==> r.value < |nodes| && queue == stack + Pushes(nodes, r.value, path)
      // whoever answers: a switch that is new has its live ports pushed
      ensures Along(old(Heard()), Heard(), path, hopCnt) && Pushed(nodes, |old(nodes)|, queue)
      ensures (r.Err? ==> Failed(Heard(), path)) && (r.Ok? ==> GuidTold(Heard(), path, nodes[r.value].guid))
      ensures old(AllHeard(Heard(), nodes)) ==> AllHeard(Heard(), nodes)
      ensures HearsPlainTruth() && old(Sound(truth, nodes, head + stack)) ==>
        && Sound(truth, nodes, head + queue)
        && (r.Ok? ==> Met(truth, path, nodes[r.value]))
        && (r.Ok? ==> Home(truth, nodes[r.value]) == Resolve(truth, PathHops(path)).value.node)
      ensures HearsTruth() && old(TrueNodes(truth, nodes)) ==> TrueNodes(truth, nodes)
      ensures HearsAll() && old(Outbound(path, head + stack, seen, level)) ==>
        OnTrack(truth, nodes, head + queue, seen, level)
      ensures HearsAll() && Ends(truth, PathHops(path)) ==> r.Ok?
    {
      hide Heard, Tally, OnTrack, Consistent, GoodQueue, Seeds, Route, Resolve, PathHops, TrueNode, ExactNode;
      hide Outward, Registers, TrueItems, PathOk, Home, GoodTable, Unlinked, Symmetric, Truthful, Lossless;
      hide GuidsDistinct, TrueNodes, Ends, ExactNodes, AllHeard, Failed, GuidTold, Along, Pushed;
      ghost var before, map0 := nodes, nodeMap;
      r := Reach(path, hopCnt, head + stack);
      queue := stack;
      NonePushed(nodes, stack);
      if r.Err? { return; }
      RegistersFacts(before, map0, nodes, nodeMap, path, r.value);
      if nodes[r.value].nodeType == Switch {
        queue := PushEligible(stack, r.value, path);
      }
      ghost var more := Pushes(nodes, r.value, path);
      assert head + queue == (head + stack) + more;
      PushesGood(nodes, r.value, path);
      EnterPushes(before, map0, nodes, nodeMap, path, r.value, stack);
      QueueConcat(nodes, head + stack, more);
      if HearsPlainTruth() && Sound(truth, before, head + stack) {
        PushesTrue(truth, nodes, r.value, path);
        TrueConcat(truth, nodes, head + stack, more);
      }
      if HearsAll() && old(Outbound(path, head + stack, seen, level)) {
        TrackedExact(truth, before, head + stack, seen, level);
        ExactOf(truth, nodes, r.value);
        ReachedEnds(truth, nodes, path, r.value);
        OutwardRoute(truth, path, level);
        ArrivalOnTrack(truth, before, map0, nodes, nodeMap, path, r.value, head + stack, seen, level);
      }
    }

    /** `first_hop_discovery_ib`: the agent's node, its neighbours, and the work list to start from. */
    method FirstHopDiscoveryIb() returns (r: Result<seq<Item>>)
      requires nodes == [] && nodeMap == map[]
      requires Online()
      modifies requester, this`nodes, this`nodeMap
      ensures Later()
      ensures r.Err? ==> r == Err(InvalidData) && nodes == [] && nodeMap == map[]
      ensures r.Ok? ==> Ready(r.value)
      // whoever answers: it fails only over an answer about the agent's node; each of its neighbours is known or could
      // not be recorded, and switches are pushed
      ensures r.Err? ==> Along(old(Heard()), Heard(), START_PATH, 0) && Failed(Heard(), START_PATH)
      ensures r.Ok? ==> Counted(false, Base(nodes), Heard(), |old(Heard())|) && AllHeard(Heard(), nodes)
      ensures r.Ok? ==> Pushed(nodes, 1, r.value) && HopsAnswered(Heard(), nodes, |nodes[0].ports|)
      ensures HearsTruth() && r.Ok? ==> TrueNodes(truth, nodes)
      ensures HearsPlainTruth() && r.Ok? ==> Sound(truth, nodes, r.value)
      ensures HearsAll() ==> (r.Ok? <==> Route(truth, [])) && (r.Ok? ==> OnTrack(truth, nodes, r.value, 0x100, 0))
    {
      hide Heard, Tally, Sound, OnTrack, Consistent, GoodQueue, Truthful, Lossless, Symmetric, GuidsDistinct, Route;
      hide TrueNodes, AllHeard, Failed, Along, Pushed, Counted, HopsAnswered, HopsFor;
      ghost var start := Heard();
      var got := EnterRoot();
      if got.Err? { return Err(InvalidData); }
      RootCounted(false, Base(nodes), start, Heard());
      NonePushed(nodes, []);
      NoHops(Heard(), nodes);
      ghost var root := nodes[0];
      var ports := nodes[0].ports;
      var stack: seq<Item> := [];
      var k := 0;
      while k < |ports|
        invariant 0 <= k <= |ports|
        invariant Ready(stack) && nodes[0] == root && Later()
        invariant Counted(false, Base(nodes), Heard(), |start|) && |start| <= |Heard()| && AllHeard(Heard(), nodes)
        invariant Pushed(nodes, 1, stack) && |nodes| >= 1 && HopsAnswered(Heard(), nodes, k)
        invariant HearsTruth() ==> TrueNodes(truth, nodes)
        invariant HearsPlainTruth() ==> Sound(truth, nodes, stack)
        invariant HearsAll() ==> Route(truth, []) && OnTrack(truth, nodes, stack, SeenAt(ports, k), 0)
      {
        ghost var before, heard, were := nodes, Heard(), stack;
        stack := FirstHopPort(k, stack);
        CountedJoin(false, Base(nodes), heard, Heard(), |start|);
        PushedMore(before, nodes, were, stack);
        k := k + 1;
      }
      r := Ok(stack);
    }

    /** One turn of the loop over the ports of the agent's node. */
    method FirstHopPort(k: nat, stack: seq<Item>) returns (queue: seq<Item>)
      requires Ready(stack) && k < |nodes[0].ports|
      requires Online()
      modifies requester, this`nodes, this`nodeMap
      ensures Later()
      ensures Ready(queue) && nodes[0] == old(nodes[0]) && |nodes| >= |old(nodes)|
      ensures nodes[..|old(nodes)|] == old(nodes)
      // whoever answers: the neighbour is known or could not be recorded, and pushed if it is new and a switch
      ensures stack <= queue && Pushed(nodes, |old(nodes)|, queue)
      ensures Counted(false, Base(nodes), Heard(), |old(Heard())|)
      ensures old(HopsAnswered(Heard(), nodes, k)) ==> HopsAnswered(Heard(), nodes, k + 1)
      ensures old(AllHeard(Heard(), nodes)) ==> AllHeard(Heard(), nodes)
      ensures HearsTruth() && old(TrueNodes(truth, nodes)) ==> TrueNodes(truth, nodes)
      ensures HearsPlainTruth() && old(Sound(truth, nodes, stack)) ==> Sound(truth, nodes, queue)
      ensures HearsAll() ==>
              old(Sound(truth, nodes, stack)) && old(OnTrack(truth, nodes, stack, SeenAt(nodes[0].ports, k), 0)) ==>
        OnTrack(truth, nodes, queue, SeenAt(nodes[0].ports, k + 1), 0)
    {
      hide Heard, Tally, Sound, OnTrack, Consistent, GoodQueue, TrueNodes, Ascending, Symmetric, GuidsDistinct;
      hide AllHeard, Pushed, Counted, HopsAnswered;
      TablesAscend(stack);
      CountedNone(false, Base(nodes), Heard());
      NonePushed(nodes, stack);
      var port := nodes[0].ports[k];
      if port.number == 0 || !port.Live() {
        if Plain() && OnTrack(truth, nodes, stack, SeenAt(nodes[0].ports, k), 0) {
          RootPortIdle(truth, nodes, stack, k);
        }
        if HopsAnswered(Heard(), nodes, k) { HopIdle(Heard(), nodes, k); }
        return stack;
      }
      queue := FirstHopNeighbour(k, stack);
    }

    /** The node behind a live port of the agent's node. */
    method FirstHopNeighbour(k: nat, stack: seq<Item>) returns (queue: seq<Item>)
      requires Ready(stack) && k < |nodes[0].ports| && nodes[0].ports[k].Live() && nodes[0].ports[k].number != 0
      requires Online()
      modifies requester, this`nodes, this`nodeMap
      ensures Later()
      ensures Ready(queue) && nodes[0] == old(nodes[0]) && |nodes| >= |old(nodes)|
      ensures nodes[..|old(nodes)|] == old(nodes)
      // whoever answers: the neighbour is known or could not be recorded, and pushed if it is new and a switch
      ensures stack <= queue && Pushed(nodes, |old(nodes)|, queue)
      ensures Counted(false, Base(nodes), Heard(), |old(Heard())|)
      ensures old(HopsAnswered(Heard(), nodes, k)) ==> HopsAnswered(Heard(), nodes, k + 1)
      ensures old(AllHeard(Heard(), nodes)) ==> AllHeard(Heard(), nodes)
      ensures HearsTruth() && old(TrueNodes(truth, nodes)) ==> TrueNodes(truth, nodes)
      ensures HearsPlainTruth() && old(Sound(truth, nodes, stack)) ==> Sound(truth, nodes, queue)
      ensures HearsAll() ==>
              old(Sound(truth, nodes, stack)) && old(OnTrack(truth, nodes, stack, SeenAt(nodes[0].ports, k), 0)) ==>
        OnTrack(truth, nodes, queue, SeenAt(nodes[0].ports, k + 1), 0)
    {
      hide Heard, Tally, Sound, OnTrack, Consistent, GoodQueue, PathOk, PathHops, Resolve, Eligible, NodeServed, Home;
      hide Outward, TrueNodes, Ascending, Encode, Pushes, Registers, Truthful, Lossless, Symmetric, GuidsDistinct;
      hide Ends, Route, AllHeard, Failed, GuidTold, Along, Pushed, Counted, HopsAnswered, HopsFor;
      ghost var track := Plain() && Sound(truth, nodes, stack)
                         && OnTrack(truth, nodes, stack, SeenAt(nodes[0].ports, k), 0);
      ghost var before, heard := nodes, Heard();
      var number := nodes[0].ports[k].number;
      var base := if nodes[0].nodeType == Switch then 0 else 1;
      FirstHopOk(base, number);
      var path := START_PATH[base := number];
      if track {
        TablesAscend(stack);
        SoundNodes(stack);
        RootIsRoute(truth, nodes, stack, SeenAt(nodes[0].ports, k), 0);
        RootStep(truth, nodes, k, path);
      }
      assert [] + stack == stack;
      var reached;
      reached, queue := Enter(path, 1, stack, 0, SeenAt(nodes[0].ports, k), []);
      assert [] + queue == queue;
      HopCounted(false, base, heard, Heard(), number);
      if HopsAnswered(heard, before, k) { HopAnswered(heard, Heard(), before, nodes, k, reached); }
      if track && HearsAll() {
        TablesAscend(queue);
        SoundNodes(queue);
        RootPortServed(truth, nodes, queue, k, path, reached);
      }
    }

    lemma SoundNodes(queue: seq<Item>)
      requires Plain() && Sound(truth, nodes, queue)
      ensures TrueNodes(truth, nodes)
    {
    }

    lemma TablesAscend(queue: seq<Item>)
      requires Ready(queue)
      ensures forall i :: 0 <= i < |nodes| ==> Ascending(nodes[i].ports)
    {
    }

    /** The first `discover_node`, at the all-zero path. */
    method EnterRoot() returns (r: Result<nat>)
      requires nodes == [] && nodeMap == map[]
      requires Online()
      modifies requester, this`nodes, this`nodeMap
      ensures Later()
      ensures r.Err? ==> nodes == [] && nodeMap == map[]
      ensures r.Ok? ==> Ready([])
      // whoever answers: it fails only over an answer, and the record is made of answers alone
      ensures Along(old(Heard()), Heard(), START_PATH, 0) && (r.Err? ==> Failed(Heard(), START_PATH))
      ensures r.Ok? ==> |nodes| == 1 && AllHeard(Heard(), nodes)
      ensures HearsTruth() && r.Ok? ==> TrueNodes(truth, nodes)
      ensures HearsPlainTruth() && r.Ok? ==> Sound(truth, nodes, [])
      ensures HearsAll() ==> (r.Ok? <==> Route(truth, []))
      ensures HearsAll() && r.Ok? ==> OnTrack(truth, nodes, [], SeenAt(nodes[0].ports, 0), 0)
    {
      hide Heard, Tally, OnTrack, PathHops, Resolve, TrueNode, ExactNode, PathOk, GoodTable, LidRule, Met, Truthful;
      hide Lossless, Symmetric, GuidsDistinct, Route, Ends, RecordHeard, Failed, Along;
      StartPathOk(1);
      r := DiscoverNode(START_PATH, 0);
      if HearsAll() && Route(truth, []) { RootEnds(truth); }
      if r.Err? { return; }
      RootConsistent(nodes, nodeMap);
      if HearsPlainTruth() { RootSound(truth, nodes); }
      if HearsAll() {
        RootReadable(truth, nodes);
        RootOnTrack(truth, nodes);
      }
    }

    /** Links the port followed with the port it was answered from, if that node's table has it. */
    method LinkToRemote(local: PortRef, i: nat, number: byte) returns (found: bool)
      requires Has(nodes, local) && i < |nodes|
      modifies this`nodes
      ensures found <==> FindNumber(old(nodes)[i].ports, number).Some?
      ensures nodes == LinkedTo(old(nodes), local, i, number)
    {
      var b := FindNumber(nodes[i].ports, number);
      if b.None? { return false; }
      nodes := SetRemote(nodes, local, PortRef(i, b.value));
      nodes := SetRemote(nodes, PortRef(i, b.value), local);
      found := true;
    }

    /** One turn of the main loop of `seq_discover`: the entry popped, and the work list after it. */
    method Visit(it: Item, rest: seq<Item>, ghost level: nat) returns (queue: seq<Item>)
      requires Ready([it] + rest) && Online()
      modifies requester, this`nodes, this`nodeMap
      ensures Later() && Ready(queue) && Weight(queue) < Weight([it] + rest)
      ensures Grown(old(nodes), nodes) && nodes != [] && Base(nodes) == old(Base(nodes))
      // an entry that is linked or has no room is dropped unasked; else the node behind it is asked about first
      ensures if Idle(old(nodes), it) then
                queue == rest && nodes == old(nodes) && requester.history == old(requester.history)
              else AsksFirst(old(requester.history), requester.history, BehindEntry(old(nodes), it))
      // whoever answers: the entry is settled, no other is lost, and a switch that is new has its live ports pushed
      ensures rest <= queue && PortSettled(Heard(), nodes, it.port, it.path) && Pushed(nodes, |old(nodes)|, queue)
      ensures Counted(false, Base(nodes), Heard(), |old(Heard())|)
      ensures old(AllHeard(Heard(), nodes)) ==> AllHeard(Heard(), nodes)
      ensures HearsTruth() && old(TrueNodes(truth, nodes)) ==> TrueNodes(truth, nodes)
      ensures HearsPlainTruth() && old(Sound(truth, nodes, [it] + rest)) ==>
        Sound(truth, nodes, queue) && LinksKept(old(nodes), nodes)
      ensures HearsAll() ==>
              old(Sound(truth, nodes, [it] + rest)) && old(OnTrack(truth, nodes, [it] + rest, 0x100, level)) ==>
        OnTrack(truth, nodes, queue, 0x100, Level(it))
    {
      hide Heard, Tally, Sound, OnTrack, Consistent, GoodQueue, PathOk, PathHops, Resolve, Peer, Home, Weight;
      hide HeadDone, TrueItem, GetHopCount, TrueLinks, TrueNodes, Route, Ascending, TrueEnd, Grown, LinksKept;
      hide Truthful, Lossless, Symmetric, GuidsDistinct, AllHeard, PortSettled, Pushed, Counted, AsksFirst;
      PopIsLighter(it, rest);
      TailGood(nodes, it, rest);
      TablesAscend([it] + rest);
      NonePushed(nodes, rest);
      CountedNone(false, Base(nodes), Heard());
      PrefixGrown(nodes, nodes);
      PrefixLinks(nodes, nodes);
      ghost var sound := Plain() && Sound(truth, nodes, [it] + rest);
      ghost var track := sound && OnTrack(truth, nodes, [it] + rest, 0x100, level);
      if sound { TailSound(truth, nodes, it, rest); SoundParts(rest); }
      if track { HeadFacts(truth, nodes, it, rest, 0x100, level); }

      var number := PortAt(nodes, it.port).number;
      NotPortZero([it] + rest);
      if number == 0 { return rest; }
      if PortAt(nodes, it.port).remote.Some? {
        LinkedSettled(Heard(), nodes, it.port, it.path);
        if track {
          HeadLinked(truth, nodes, it, rest, 0x100, level);
          HeadDropped(truth, nodes, it, rest, 0x100, Level(it));
        }
        return rest;
      }
      var hopCnt := GetHopCount(it.path) + 1;
      ExtendPath(Base(nodes), it.path, number);
      if hopCnt >= 64 {
        FullSettled(Heard(), nodes, it.port, it.path);
        if track {
          HeadIdle(truth, nodes, it);
          HeadDropped(truth, nodes, it, rest, 0x100, Level(it));
        }
        return rest;
      }
      queue := Probe(it, rest, it.path[hopCnt := number], hopCnt);
    }

    lemma SoundParts(queue: seq<Item>)
      requires Plain() && Sound(truth, nodes, queue)
      ensures TrueNodes(truth, nodes) && TrueLinks(truth, nodes)
    {
    }

    /** The query behind an entry's port, and what follows from the answer. */
    method Probe(it: Item, rest: seq<Item>, path: Path, hopCnt: byte) returns (queue: seq<Item>)
      requires Ready([it] + rest) && Has(nodes, it.port) && Online()
      requires PathOk(Base(nodes), path) && PathHops(path) == PathHops(it.path) + [PortAt(nodes, it.port).number]
      requires GetHopCount(it.path) < 63 && path == Longer(it.path, PortAt(nodes, it.port).number)
      requires GetHopCount(path) == GetHopCount(it.path) + 1 && hopCnt == GetHopCount(path)
      modifies requester, this`nodes, this`nodeMap
      ensures Later() && Ready(queue) && Weight(queue) < Weight([it] + rest)
      ensures Grown(old(nodes), nodes) && nodes != [] && Base(nodes) == old(Base(nodes))
      ensures AsksFirst(old(requester.history), requester.history, path)
      // whoever answers: the entry is settled, no other is lost, and a switch that is new has its live ports pushed
      ensures rest <= queue && PortSettled(Heard(), nodes, it.port, it.path) && Pushed(nodes, |old(nodes)|, queue)
      ensures Counted(false, Base(nodes), Heard(), |old(Heard())|)
      ensures old(AllHeard(Heard(), nodes)) ==> AllHeard(Heard(), nodes)
      ensures HearsTruth() && old(TrueNodes(truth, nodes)) ==> TrueNodes(truth, nodes)
      ensures HearsPlainTruth() && old(Sound(truth, nodes, [it] + rest)) ==>
        Sound(truth, nodes, queue) && LinksKept(old(nodes), nodes)
      ensures HearsAll() ==>
              old(Sound(truth, nodes, [it] + rest)) && old(OnTrack(truth, nodes, [it] + rest, 0x100, Level(it))) ==>
        OnTrack(truth, nodes, queue, 0x100, Level(it))
    {
      hide Heard, Tally, Sound, OnTrack, Consistent, GoodQueue, PathOk, PathHops, Resolve, Peer, Home, Weight;
      hide HeadDone, TrueItem, GetHopCount, TrueLinks, TrueNodes, Route, Ascending, TrueEnd, Outward, DecodeNodeInfo;
      hide Behind, Pushes, Grown, LinksKept, Truthful, Lossless, Symmetric, GuidsDistinct, LinkedTo, NodeTypeOf, Ends;
      hide Leads, AllHeard, PortSettled, Pushed, Counted, HopsFor, Failed, Told, GuidTold, Along, Longer, AsksFirst;
      hide Online;
      PopIsLighter(it, rest);
      TailGood(nodes, it, rest);
      ghost var before, heard := nodes, Heard();
      NonePushed(before, rest);
      HeadDeeper([it] + rest, path);
      PrefixGrown(before, before);
      PrefixLinks(before, before);
      ghost var sound := Plain() && Sound(truth, nodes, [it] + rest);
      ghost var track := sound && OnTrack(truth, nodes, [it] + rest, 0x100, Level(it));
      if sound { HeadTold(it, rest, path); HeadEnds(it, path); }

      ghost var began := requester.history;
      var got, a := FetchNodeInfo(path, hopCnt);
      AskedFirst(began, Exchange(NodeInfoQuery(path), hopCnt, a), path);
      ghost var mid := requester.history;
      LastTells(Heard(), path);
      AlongOne(heard, Exchange(NodeInfoQuery(path), hopCnt, a), path, hopCnt);
      AlongCounted(false, Base(nodes), heard, Heard(), path, hopCnt);
      if AllHeard(heard, nodes) { NothingNew(heard, Heard(), nodes); }
      ghost var asked := Heard();
      if got.Err? {
        FailedSettled(Heard(), nodes, it.port, it.path);
        if track && HearsAll() { HeadSilent(it, rest); }
        return rest;
      }
      queue := Follow(it, rest, path, hopCnt, got.value);
      AlongJoin(heard, asked, Heard(), path, hopCnt);
      AsksStill(began, mid, requester.history, path);
      AlongCounted(false, Base(nodes), heard, Heard(), path, hopCnt);
    }

    /** The answer has come: the node behind the entry's port is found or discovered, and the two are linked. */
    method Follow(it: Item, rest: seq<Item>, path: Path, hopCnt: byte, ni: NodeInfo) returns (queue: seq<Item>)
      requires Ready([it] + rest) && Has(nodes, it.port) && Online()
      requires PathOk(Base(nodes), path) && PathHops(path) == PathHops(it.path) + [PortAt(nodes, it.port).number]
      requires GetHopCount(it.path) < 63 && path == Longer(it.path, PortAt(nodes, it.port).number)
      requires GetHopCount(path) == GetHopCount(it.path) + 1 && Told(Heard(), path, ni)
      modifies requester, this`nodes, this`nodeMap
      ensures Later() && Ready(queue) && Weight(queue) < Weight([it] + rest)
      ensures Grown(old(nodes), nodes) && nodes != [] && Base(nodes) == old(Base(nodes))
      // whoever answers: the entry is settled, no other is lost, and a switch that is new has its live ports pushed
      ensures rest <= queue && PortSettled(Heard(), nodes, it.port, it.path) && Pushed(nodes, |old(nodes)|, queue)
      ensures Along(old(Heard()), Heard(), path, hopCnt)
      ensures old(AllHeard(Heard(), nodes)) ==> AllHeard(Heard(), nodes)
      ensures HearsTruth() && old(TrueNodes(truth, nodes)) ==> TrueNodes(truth, nodes)
      ensures HearsPlainTruth() && old(Sound(truth, nodes, [it] + rest)) && Answered(path, ni) ==>
        Sound(truth, nodes, queue) && LinksKept(old(nodes), nodes)
      ensures HearsAll() && Answered(path, ni) && old(OnTrackTo(it, rest)) ==>
        OnTrack(truth, nodes, queue, 0x100, Level(it))
    {
      hide Heard, Tally, Sound, OnTrack, Consistent, GoodQueue, PathOk, PathHops, Resolve, Peer, Home, Weight;
      hide TrueItem, GetHopCount, TrueLinks, TrueNodes, Route, TrueEnd, Behind, Answered, Leads, Grown, LinksKept;
      hide Truthful, Lossless, Symmetric, GuidsDistinct, LinkedTo, Ends, AllHeard, PortSettled, Pushed, Failed, Told;
      hide GuidTold, Along, Longer, Online;
      ghost var before, heard := nodes, Heard();
      ghost var sound := Plain() && Sound(truth, nodes, [it] + rest) && Answered(path, ni);
      ghost var track := sound && OnTrack(truth, nodes, [it] + rest, 0x100, Level(it));
      if sound { HeadTold(it, rest, path); HeadEnds(it, path); AnsweredNode(path, ni); }
      var r;
      r, queue := Neighbour(it, rest, path, hopCnt, ni);
      SamePortStill(before, nodes, it.port);
      PrefixGrown(before, nodes);
      GrownRoot(before, nodes);
      PrefixLinks(before, nodes);
      if sound && HearsPlainTruth() { EndStays(truth, before, nodes, it.port); }
      if r.Err? {
        FailedSettled(Heard(), nodes, it.port, it.path);
        TailGood(nodes, it, rest);
        if sound && HearsPlainTruth() { TailSound(truth, nodes, it, rest); }
        if track && HearsAll() { HeadSilent(it, rest); }
        return rest;
      }
      if sound && HearsPlainTruth() {
        TailSound(truth, nodes, it, queue);
        BehindNode(truth, nodes, it, path, r.value);
      }
      ghost var met := nodes;
      PrefixIncluded(heard, Heard());
      ToldStill(heard, Heard(), path, ni);
      JoinSettled(Heard(), met, it.port, r.value, ni, it.path);
      Join(it, queue, r.value, ni.localPort);
      LinkingHeard(Heard(), met, it.port, r.value, ni.localPort);
      PushedGrown(met, nodes, |before|, queue, queue);
      GrownRoot(met, nodes);
      GrownTwice(before, met, nodes);
      if sound && HearsPlainTruth() { LinksTwice(before, met, nodes); }
    }

    /** Entries name no port 0. */
    lemma NotPortZero(queue: seq<Item>)
      requires Ready(queue) && queue != []
      ensures Has(nodes, queue[0].port) && PortAt(nodes, queue[0].port).number != 0
    {
      assert GoodItem(nodes, queue[0]);
    }

    /** The path of an entry, one hop on, has its `get_hop_count` for a hop count. */
    lemma HeadDeeper(queue: seq<Item>, path: Path)
      requires Ready(queue) && queue != [] && PathOk(Base(nodes), path)
      requires |PathHops(path)| == |PathHops(queue[0].path)| + 1
      ensures HopsFor(false, Base(nodes), path) == GetHopCount(path)
    {
      assert GoodItem(nodes, queue[0]);
      HopsDeeper(false, Base(nodes), path);
    }

    lemma HeadSilent(it: Item, rest: seq<Item>)
      requires Ready([it] + rest) && Plain() && Has(nodes, it.port) && !Leads(truth, TrueEnd(truth, nodes, it.port))
      requires OnTrack(truth, nodes, [it] + rest, 0x100, Level(it))
      ensures OnTrack(truth, nodes, rest, 0x100, Level(it))
    {
      hide Heard, OnTrack, Consistent, GoodQueue, Leads, TrueEnd, Ascending, HeadDone;
      TablesAscend([it] + rest);
      HeadIdle(truth, nodes, it);
      HeadDropped(truth, nodes, it, rest, 0x100, Level(it));
    }

    /** The node behind an entry's port, known by its GUID or else discovered, with what it adds to the work list. */
    method Neighbour(it: Item, rest: seq<Item>, path: Path, hopCnt: byte, ni: NodeInfo)
      returns (r: Result<nat>, queue: seq<Item>)
      requires Ready([it] + rest) && Has(nodes, it.port) && Online()
      requires PathOk(Base(nodes), path) && PathHops(path) == PathHops(it.path) + [PortAt(nodes, it.port).number]
      requires GetHopCount(path) == GetHopCount(it.path) + 1
      requires Told(Heard(), path, ni)
      modifies requester, this`nodes, this`nodeMap
      ensures Later() && Ready([it] + queue) && |nodes| >= |old(nodes)| && nodes[..|old(nodes)|] == old(nodes)
      ensures Weight(queue) < Weight([it] + rest) && (r.Err? ==> queue == rest) && (r.Ok? ==> r.value < |nodes|)
      ensures ni.nodeGuid in old(nodeMap) ==> nodes == old(nodes) && requester.history == old(requester.history)
      // whoever answers: it fails only over an answer, and a switch that is new has its live ports pushed
      ensures rest <= queue && Pushed(nodes, |old(nodes)|, queue) && Along(old(Heard()), Heard(), path, hopCnt)
      ensures (r.Err? ==> Failed(Heard(), path)) && (r.Ok? ==> GuidTold(Heard(), path, nodes[r.value].guid))
      ensures old(AllHeard(Heard(), nodes)) ==> AllHeard(Heard(), nodes)
      ensures HearsTruth() && old(TrueNodes(truth, nodes)) ==> TrueNodes(truth, nodes)
      ensures HearsPlainTruth() && old(Sound(truth, nodes, [it] + rest)) && Answered(path, ni) ==>
        && Sound(truth, nodes, [it] + queue)
        && (r.Ok? ==> Home(truth, nodes[r.value]) == Resolve(truth, PathHops(path)).value.node)
      ensures HearsAll() && Answered(path, ni) && old(OnTrackTo(it, rest)) ==>
        OnTrack(truth, nodes, [it] + queue, 0x100, Level(it)) && (Ends(truth, PathHops(path)) ==> r.Ok?)
    {
      hide Heard, Tally, Sound, OnTrack, Consistent, GoodQueue, PathOk, PathHops, Resolve, Home, Weight, TrueItem;
      hide Answered, GetHopCount, TrueLinks, TrueNodes, Route, Ascending, Outward, Pushes, Truthful, Lossless;
      hide Symmetric, GuidsDistinct, Ends, AllHeard, Pushed, Failed, Told, GuidTold, Along;
      NonePushed(nodes, rest);
      AlongNone(Heard(), path, hopCnt);
      PopIsLighter(it, rest);
      TailGood(nodes, it, rest);
      ghost var sound := Plain() && Sound(truth, nodes, [it] + rest) && Answered(path, ni);
      ghost var track := sound && OnTrack(truth, nodes, [it] + rest, 0x100, Level(it));
      if sound { AnsweredNode(path, ni); HeadTold(it, rest, path); }
      if track {
        HeadFacts(truth, nodes, it, rest, 0x100, Level(it));
        HeadOutward(it, path);
      }
      if ni.nodeGuid in nodeMap {
        r, queue := Ok(nodeMap[ni.nodeGuid]), rest;
        KnownNode(r.value, ni.nodeGuid);
        GuidIsTold(Heard(), path, ni);
        if sound { HomeByGuid(truth, nodes, r.value, Resolve(truth, PathHops(path)).value.node); }
        return;
      }
      r, queue := Enter(path, hopCnt, rest, Level(it), 0x100, [it]);
      if r.Ok? {
        TablesAscend([it] + queue);
        PushesAre(nodes, r.value, path);
        ExpansionIsLighter(it, rest, Pushes(nodes, r.value, path), path);
      }
    }

    /** With this entry at its head, the picture is true and the search on track. */
    ghost predicate OnTrackTo(it: Item, rest: seq<Item>)
      requires Plain()
      reads this
    {
      Sound(truth, nodes, [it] + rest) && OnTrack(truth, nodes, [it] + rest, 0x100, Level(it))
    }

    /** The answer describes the node the path leads to. */
    ghost predicate Answered(path: Path, ni: NodeInfo) {
      truth.Valid() &&
      var e := Resolve(truth, PathHops(path));
      e.Some? && ni == truth.nodes[e.value.node].nodeInfo.(localPort := e.value.num)
    }

    lemma AnsweredNode(path: Path, ni: NodeInfo)
      requires Answered(path, ni)
      ensures Resolve(truth, PathHops(path)).Some?
      ensures ni.nodeGuid == truth.nodes[Resolve(truth, PathHops(path)).value.node].nodeInfo.nodeGuid
      ensures ni.localPort == Resolve(truth, PathHops(path)).value.num
    {
    }

    lemma HeadEnds(it: Item, path: Path)
      requires Plain() && Has(nodes, it.port)
      requires Resolve(truth, PathHops(path)) == Peer(truth, TrueEnd(truth, nodes, it.port))
      ensures Ends(truth, PathHops(path)) <==> Leads(truth, TrueEnd(truth, nodes, it.port))
      ensures Ends(truth, PathHops(path)) ==> Resolve(truth, PathHops(path)).Some?
    {
      hide Heard, Resolve, PathHops, Peer, TrueEnd, Readable;
    }

    lemma HeadTold(it: Item, rest: seq<Item>, path: Path)
      requires Plain() && Sound(truth, nodes, [it] + rest)
      requires Has(nodes, it.port) && PathHops(path) == PathHops(it.path) + [PortAt(nodes, it.port).number]
      ensures TrueItem(truth, nodes, it) && Sound(truth, nodes, rest) && TrueNodes(truth, nodes)
      ensures TrueLinks(truth, nodes)
      ensures Resolve(truth, PathHops(path)) == Peer(truth, TrueEnd(truth, nodes, it.port))
    {
      hide Heard, Sound, TrueItem, TrueNodes, TrueLinks, PathHops, Resolve, Peer, TrueEnd;
      TailSound(truth, nodes, it, rest);
      SoundParts(rest);
      NextHop(truth, nodes, it, path);
    }

    lemma KnownNode(i: nat, guid: u64)
      requires Consistent(nodes, nodeMap) && guid in nodeMap && nodeMap[guid] == i
      ensures i < |nodes| && nodes[i].guid == guid
    {
    }

    lemma HeadOutward(it: Item, path: Path)
      requires Plain() && TrueNodes(truth, nodes) && TrueItem(truth, nodes, it) && nodes != [] && GoodItem(nodes, it)
      requires Route(truth, PathHops(it.path)) && PathHops(path) == PathHops(it.path) + [PortAt(nodes, it.port).number]
      ensures Outward(truth, path, Level(it))
    {
      hide Heard, TrueNodes, TrueItem, PathHops, Route, Ends, GoodItem;
      if Ends(truth, PathHops(path)) { NextRoute(truth, nodes, it, path); }
    }

    /** Links the entry's port with the port its neighbour was entered by; the entry is then done with. */
    method Join(it: Item, queue: seq<Item>, i: nat, number: byte)
      requires Ready([it] + queue) && Has(nodes, it.port) && i < |nodes|
      modifies this`nodes
      ensures Ready(queue) && Grown(old(nodes), nodes) && nodes == LinkedTo(old(nodes), it.port, i, number)
      ensures truth.Valid() && old(TrueNodes(truth, nodes)) ==> TrueNodes(truth, nodes)
      ensures Plain() && old(Sound(truth, nodes, [it] + queue)) && old(Behind(truth, nodes, it, i, number)) ==>
        Sound(truth, nodes, queue) && LinksKept(old(nodes), nodes)
      ensures Plain() ==>
              old(Behind(truth, nodes, it, i, number)) && old(OnTrack(truth, nodes, [it] + queue, 0x100, Level(it))) ==>
        OnTrack(truth, nodes, queue, 0x100, Level(it))
    {
      hide Heard, Tally, Sound, OnTrack, Consistent, GoodQueue, HeadDone, Ascending, Behind, Symmetric, GuidsDistinct;
      hide Grown, LinksKept, LinkPorts, TrueNodes;
      ghost var before := nodes;
      PrefixGrown(before, before);
      PrefixLinks(before, before);
      ghost var sound := Plain() && Sound(truth, nodes, [it] + queue) && Behind(truth, nodes, it, i, number);
      ghost var track := Plain() && Behind(truth, nodes, it, i, number)
                         && OnTrack(truth, nodes, [it] + queue, 0x100, Level(it));
      if truth.Valid() && TrueNodes(truth, nodes) { LinkedToKeepsTrueNodes(truth, nodes, it.port, i, number); }
      var found := LinkToRemote(it.port, i, number);
      if found {
        var remote := PortRef(i, FindNumber(before[i].ports, number).value);
        LinkKeepsConsistent(before, nodeMap, it.port, remote);
        LinkKeepsQueue(before, [it] + queue, it.port, remote);
        LinkGrown(before, it.port, remote);
        GrownRoot(before, nodes);
        if sound { JoinSound(truth, before, nodeMap, [it] + queue, it, i, number, remote.port); }
        if track { LinkKeepsOnTrack(truth, before, [it] + queue, 0x100, Level(it), it.port, remote); }
      }
      TailGood(nodes, it, queue);
      TablesAscend([it] + queue);
      if sound { TailSound(truth, nodes, it, queue); }
      if track {
        JoinDone(truth, before, [it] + queue, it, i, number, nodes, Level(it));
        HeadDropped(truth, nodes, it, queue, 0x100, Level(it));
      }
    }

    /** `switches` and `hcas` split the registry: every node's index, in order, in exactly one of them. */
    ghost predicate Categorised()
      reads this
    {
      && switches == IndicesOf(nodes, true)
      && hcas == IndicesOf(nodes, false)
    }

    /** The final categorisation. */
    method Categorise()
      requires switches == [] && hcas == []
      modifies this`switches, this`hcas
      ensures Categorised()
    {
      var i := 0;
      while i < |nodes|
        invariant 0 <= i <= |nodes|
        invariant switches == IndicesOf(nodes[..i], true) && hcas == IndicesOf(nodes[..i], false)
      {
        assert nodes[..i + 1][..i] == nodes[..i];
        if nodes[i].nodeType == Switch { switches := switches + [i]; } else { hcas := hcas + [i]; }
        i := i + 1;
      }
      assert nodes[..i] == nodes;
    }

    /** Both traversals begin by forgetting what was found and counted before. */
    method Clear()
      requires Online()
      modifies this, requester
      ensures nodes == [] && nodeMap == map[] && switches == [] && hcas == []
      ensures requester.madErrors == requester.madTimeouts == requester.madsSent == 0
      ensures Afterwards() && requester.history == old(requester.history) && requester.genuine == old(requester.genuine)
      ensures Tally() == (old(requester.Out()) - Gain(requester.history),
                          0 - old(requester.Faulted()) - Refusals(requester.history))
      ensures since == |requester.history| && Heard() == []
    {
      hide Truthful, Lossless, Symmetric, GuidsDistinct, Transaction.Requester.Logged, Transaction.TidAt;
      nodes, nodeMap, switches, hcas := [], map[], [], [];
      requester.madErrors, requester.madTimeouts, requester.madsSent := 0, 0, 0;
      since := |requester.history|;
    }

    /** What has been counted since `before`. */
    lemma Reckon(before: seq<Exchange>, out: int, faulted: int)
      requires before <= requester.history && since == |before|
      requires Tally() == (out - Gain(before), 0 - faulted - Refusals(before))
      ensures requester.madTimeouts == requester.Out() - out - Gain(Heard())
      ensures requester.madErrors == requester.Faulted() - faulted + Refusals(Heard())
    {
      hide Gain, Refusals;
      assert requester.history == before + Heard();
      TallySum(before, Heard());
    }

    /** `seq_discover`: breadth-first discovery over every live port of every switch. */
    method SeqDiscover() returns (r: Result<()>)
      requires Online()
      modifies this, requester
      ensures Afterwards() && since == |old(requester.history)|
      // Whoever answers: it ends, and on success the registry is consistent and categorised.
      ensures r.Err? ==> r == Err(InvalidData) && nodes == [] && nodeMap == map[]
      ensures r.Ok? ==> Ready([]) && Categorised()
      // Whoever answers: it gives up only over an answer about the agent's node. Otherwise every record is made of
      // answers, each neighbour of the agent's node is known or could not be recorded, and each live port of another
      // switch is linked, or has no room in its path, or the node behind it could not be recorded or misnamed its port;
      // and every query carried the hop count of its path.
      ensures r.Err? ==> Along([], Heard(), START_PATH, 0) && Failed(Heard(), START_PATH)
      ensures r.Ok? ==> Accounted(Heard(), nodes, [])
      // Whoever answers: what it counts. Requests that went out were answered, or met a receive with nothing to give,
      // or are counted as timed out, those about ports twice; errors are faults and refused queries about ports.
      ensures requester.madTimeouts == requester.Out() - old(requester.Out()) - Gain(Heard())
      ensures requester.madErrors == requester.Faulted() - old(requester.Faulted()) + Refusals(Heard())
      // With true or missing answers, as genuine replies give: every record is true, and in a plain fabric every link.
      ensures HearsTruth() && r.Ok? ==> TrueNodes(truth, nodes)
      ensures HearsPlainTruth() && r.Ok? ==> TrueLinks(truth, nodes)
      ensures requester.genuine && r.Ok? ==> TrueNodes(truth, nodes) && (Plain() ==> TrueLinks(truth, nodes))
      // With every query answered: it succeeds if the agent's node can be recorded, and then all that a route
      // within the path limit leads to is found, and nothing else, by shortest paths, and linked.
      ensures HearsAll() ==> (r.Ok? <==> Route(truth, []))
      ensures HearsAll() && r.Ok? ==> AllFoundIn(truth, nodes)
      ensures requester.genuine && requester.prompt && Plain() ==>
        (r.Ok? <==> Route(truth, [])) && (r.Ok? ==> AllFoundIn(truth, nodes))
    {
      hide Heard, Tally, Sound, OnTrack, Consistent, GoodQueue, Weight, TrueNodes, TrueLinks, AllFoundIn, Route;
      hide Symmetric, GuidsDistinct, Truthful, Lossless, Grown, LinksKept, AllHeard, HopsAnswered, Accounted, Counted;
      hide Pushed, Failed, Along, Transaction.Requester.Out, Transaction.Requester.Faulted, Gain, Refusals;
      Clear();
      var first := FirstHopDiscoveryIb();
      if first.Err? {
        Reckon(old(requester.history), old(requester.Out()), old(requester.Faulted()));
        return Err(first.error);
      }
      var stack := first.value;
      StartAccounted(Heard(), nodes, first.value);
      SearchAll(first.value);
      Reckon(old(requester.history), old(requester.Out()), old(requester.Faulted()));
      Categorise();
      if HearsPlainTruth() { SoundParts([]); }
      r := Ok(());
    }

    /** The main loop of `seq_discover`. */
    method SearchAll(first: seq<Item>)
      requires Ready(first) && Online()
      modifies requester, this`nodes, this`nodeMap
      ensures Later() && Ready([])
      ensures old(Accounted(Heard(), nodes, first)) ==> Accounted(Heard(), nodes, [])
      ensures HearsTruth() && old(TrueNodes(truth, nodes)) ==> TrueNodes(truth, nodes)
      ensures HearsPlainTruth() && old(Sound(truth, nodes, first)) ==> Sound(truth, nodes, [])
      ensures HearsAll() && old(Sound(truth, nodes, first) && OnTrack(truth, nodes, first, 0x100, 0)) ==>
        AllFoundIn(truth, nodes)
    {
      hide Heard, Tally, Sound, OnTrack, Consistent, GoodQueue, Weight, TrueNodes, TrueLinks, AllFoundIn, Symmetric;
      hide GuidsDistinct, Truthful, Lossless, Grown, LinksKept, AllHeard, Accounted, Counted, Pushed, PortSettled;
      hide Transaction.Requester.Tracked;
      var stack := first;
      ghost var level := 0;
      while stack != []
        invariant Later() && Ready(stack)
        invariant old(Accounted(Heard(), nodes, first)) ==> Accounted(Heard(), nodes, stack)
        invariant HearsTruth() && old(TrueNodes(truth, nodes)) ==> TrueNodes(truth, nodes)
        invariant HearsPlainTruth() && old(Sound(truth, nodes, first)) ==> Sound(truth, nodes, stack)
        invariant HearsAll() && old(Sound(truth, nodes, first) && OnTrack(truth, nodes, first, 0x100, 0)) ==>
                    OnTrack(truth, nodes, stack, 0x100, level)
        decreases Weight(stack)
      {
        var it, rest := stack[0], stack[1..];
        assert stack == [it] + rest;
        ghost var before, heard := nodes, Heard();
        stack := Visit(it, rest, level);
        if Accounted(heard, before, [it] + rest) { AccountedNext(heard, Heard(), before, nodes, it, rest, stack); }
        level := Level(it);
      }
      if HearsAll() && old(Sound(truth, nodes, first) && OnTrack(truth, nodes, first, 0x100, 0)) {
        SoundParts([]);
        EverythingFound(level);
      }
    }

    lemma EverythingFound(level: nat)
      requires HearsAll() && Ready([]) && TrueNodes(truth, nodes) && TrueLinks(truth, nodes)
      requires OnTrack(truth, nodes, [], 0x100, level)
      ensures AllFoundIn(truth, nodes)
    {
      hide Heard, OnTrack, AllFoundIn, TrueNodes, TrueLinks, GoodTable, RefsInside, PathOk;
      AllFound(truth, nodes, nodeMap, level);
    }

    // ---- src/discovery/nvlink.rs ----

    /** Puts a node's live ring ports at the front of the stack, one after another. */
    method PushRing(stack: seq<Item>, i: nat, path: Path) returns (r: seq<Item>)
      requires i < |nodes|
      ensures r == RingSeeds(nodes[i].ports, i, path) + stack
    {
      var ports := nodes[i].ports;
      r := stack;
      var a := 0;
      while a < |ports|
        invariant 0 <= a <= |ports|
        invariant r == RingSeeds(ports[..a], i, path) + stack
      {
        assert ports[..a + 1][..a] == ports[..a];
        if IsRingSeed(ports[a]) {
          r := [Item(PortRef(i, a), path)] + r;
        }
        a := a + 1;
      }
      assert ports[..a] == ports;
    }

    /** The ports `discover_connected_nodes_nvlink` probes, in port order. */
    method PortsToProbe(i: nat) returns (probes: seq<nat>)
      requires i < |nodes|
      ensures forall k, l :: 0 <= k < l < |probes| ==> probes[k] < probes[l]
      ensures forall a: nat :: a in probes <==> a < |nodes[i].ports| && IsProbed(nodes[i].ports[a])
      ensures forall k :: 0 <= k < |probes| ==> probes[k] < |nodes[i].ports| && IsProbed(nodes[i].ports[probes[k]])
    {
      var ports := nodes[i].ports;
      probes := [];
      var a := 0;
      while a < |ports|
        invariant 0 <= a <= |ports|
        invariant forall k, l :: 0 <= k < l < |probes| ==> probes[k] < probes[l]
        invariant forall k :: 0 <= k < |probes| ==> probes[k] < a && IsProbed(ports[probes[k]])
        invariant forall c: nat :: c < a && IsProbed(ports[c]) ==> c in probes
      {
        if IsProbed(ports[a]) {
          ghost var before := probes;
          probes := probes + [a];
          assert probes[|before|] == a && forall c :: c in before ==> c in probes;
        }
        a := a + 1;
      }
    }

    /** Asks who is at the end of `path`, and finds that node by its GUID or discovers it. */
    method FindOrReach(path: Path, hopCnt: byte, ghost queue: seq<Item>)
      returns (r: Result<nat>, number: byte, isNew: bool, ghost a: Result<Attr64>)
      requires Ready(queue) && PathOk(Base(nodes), path) && Online()
      modifies requester, this`nodes, this`nodeMap
      ensures Later() && Ready(queue) && (r.Ok? ==> r.value < |nodes|)
      ensures |nodes| >= |old(nodes)| && nodes[..|old(nodes)|] == old(nodes)
      // the first answer says which port was entered and whether its node was already known
      ensures old(requester.history) + [Exchange(NodeInfoQuery(path), hopCnt, a)] <= requester.history
      ensures match DecodeNodeInfo(a)
              case Err(e) => r == Err(e)
              case Ok(ni) => number == ni.localPort && (isNew <==> ni.nodeGuid !in old(nodeMap))
      ensures !isNew || r.Err? ==> nodes == old(nodes) && nodeMap == old(nodeMap)
      ensures AsksFirst(old(requester.history), requester.history, path)
      // whoever answers: it fails only over an answer, and the port entered is the one some answer names
      ensures Along(old(Heard()), Heard(), path, hopCnt) && (r.Err? ==> Failed(Heard(), path))
      ensures r.Ok? ==> GuidTold(Heard(), path, nodes[r.value].guid) && EnteredBy(Heard(), path, number)
      ensures r.Ok? ==> MetAt(|old(nodes)|, nodes, r.value, path)
      ensures old(AllHeard(Heard(), nodes)) ==> AllHeard(Heard(), nodes)
      ensures HearsPlainTruth() && old(Sound(truth, nodes, queue)) ==>
        Sound(truth, nodes, queue) && (r.Ok? ==> Enters(truth, nodes, path, r.value, number))
      ensures HearsTruth() && old(TrueNodes(truth, nodes)) ==> TrueNodes(truth, nodes)
      ensures HearsAll() && old(ExactNodes(truth, nodes)) ==>
        ExactNodes(truth, nodes) && (Ends(truth, PathHops(path)) ==> r.Ok?)
    {
      hide Heard, Tally, Sound, Consistent, GoodQueue, PathOk, PathHops, Resolve, TrueNodes, DecodeNodeInfo, Enters;
      hide Symmetric, Truthful, Lossless, GuidsDistinct, ExactNodes, Readable, AllHeard, Failed, Told, GuidTold;
      hide Along, EnteredBy, MetAt, AsksFirst;
      isNew, number := false, 0;
      ghost var heard := Heard();
      var got;
      ghost var began := requester.history;
      got, a := FetchNodeInfo(path, hopCnt);
      AskedFirst(began, Exchange(NodeInfoQuery(path), hopCnt, a), path);
      ghost var mid := requester.history;
      LastTells(Heard(), path);
      AlongOne(heard, Exchange(NodeInfoQuery(path), hopCnt, a), path, hopCnt);
      if AllHeard(heard, nodes) { NothingNew(heard, Heard(), nodes); }
      if got.Err? { return Err(got.error), 0, false, a; }
      ghost var asked := Heard();
      number := got.value.localPort;
      r, isNew := Find(path, hopCnt, got.value, queue);
      AlongJoin(heard, asked, Heard(), path, hopCnt);
      AsksStill(began, mid, requester.history, path);
    }

    /** The node an answer describes, known by its GUID or else discovered. */
    method Find(path: Path, hopCnt: byte, ni: NodeInfo, ghost queue: seq<Item>) returns (r: Result<nat>, isNew: bool)
      requires Ready(queue) && PathOk(Base(nodes), path) && Online() && Told(Heard(), path, ni)
      modifies requester, this`nodes, this`nodeMap
      ensures Later() && Ready(queue) && (r.Ok? ==> r.value < |nodes|)
      ensures |nodes| >= |old(nodes)| && nodes[..|old(nodes)|] == old(nodes)
      ensures isNew <==> ni.nodeGuid !in old(nodeMap)
      ensures !isNew || r.Err? ==> nodes == old(nodes) && nodeMap == old(nodeMap)
      ensures ni.nodeGuid in old(nodeMap) ==> nodes == old(nodes) && requester.history == old(requester.history)
      // whoever answers: it fails only over an answer, and the port entered is the one some answer names
      ensures Along(old(Heard()), Heard(), path, hopCnt) && (r.Err? ==> Failed(Heard(), path))
      ensures r.Ok? ==> GuidTold(Heard(), path, nodes[r.value].guid) && EnteredBy(Heard(), path, ni.localPort)
      ensures r.Ok? ==> MetAt(|old(nodes)|, nodes, r.value, path)
      ensures old(AllHeard(Heard(), nodes)) ==> AllHeard(Heard(), nodes)
      ensures HearsPlainTruth() && old(Sound(truth, nodes, queue)) && Answered(path, ni) ==>
        Sound(truth, nodes, queue) && (r.Ok? ==> Enters(truth, nodes, path, r.value, ni.localPort))
      ensures HearsTruth() && old(TrueNodes(truth, nodes)) ==> TrueNodes(truth, nodes)
      ensures HearsAll() && old(ExactNodes(truth, nodes)) ==>
        ExactNodes(truth, nodes) && (Ends(truth, PathHops(path)) ==> r.Ok?)
    {
      hide Heard, Tally, Sound, Consistent, GoodQueue, PathOk, PathHops, Resolve, Home, TrueNodes, TrueLinks;
      hide Answered, Symmetric, Truthful, Lossless, GuidsDistinct, Met, Registers, ExactNodes, ExactNode, Readable;
      hide AllHeard, Failed, Told, GuidTold, Along, EnteredBy, Ends;
      ghost var before, map0, heard := nodes, nodeMap, Heard();
      ghost var sound := Plain() && Sound(truth, nodes, queue) && Answered(path, ni);
      if sound { SoundParts(queue); AnsweredNode(path, ni); }
      AlongNone(heard, path, hopCnt);
      PortIsTold(heard, path, ni);
      isNew := ni.nodeGuid !in nodeMap;
      if !isNew {
        r := Ok(nodeMap[ni.nodeGuid]);
        KnownNode(r.value, ni.nodeGuid);
        GuidIsTold(Heard(), path, ni);
        if sound { HomeByGuid(truth, nodes, r.value, Resolve(truth, PathHops(path)).value.node); }
      } else {
        r := Reach(path, hopCnt, queue);
        EnteredStill(heard, Heard(), path, ni.localPort);
        if r.Ok? { MetHere(before, map0, nodes, nodeMap, path, r.value); }
      }
    }

    /** The picture is true, and the path runs through the port followed to port `number` of node `i`. */
    ghost predicate CableFollowed(local: PortRef, i: nat, number: byte, path: Path, queue: seq<Item>)
      requires Plain()
      reads this
    {
      Sound(truth, nodes, queue) && LeadsThrough(truth, nodes, local, path) && Enters(truth, nodes, path, i, number)
    }

    /** Links the port followed with the port it was answered from. */
    method LinkNvlink(local: PortRef, i: nat, number: byte, ghost path: Path, ghost queue: seq<Item>)
      returns (found: bool)
      requires Ready(queue) && Has(nodes, local) && i < |nodes|
      modifies this`nodes
      ensures Ready(queue) && Grown(old(nodes), nodes)
      ensures found <==> FindNumber(old(nodes)[i].ports, number).Some?
      ensures nodes == LinkedTo(old(nodes), local, i, number)
      ensures truth.Valid() && old(TrueNodes(truth, nodes)) ==> TrueNodes(truth, nodes)
      ensures Plain() && old(CableFollowed(local, i, number, path, queue)) ==>
        Sound(truth, nodes, queue) && LinksKept(old(nodes), nodes)
      ensures Plain() && old(ExactNodes(truth, nodes)) ==> ExactNodes(truth, nodes)
      ensures found ==> IsLinked(nodes, local)
    {
      hide Heard, Tally, Sound, Consistent, GoodQueue, Resolve, Peer, PathHops, Home, Grown, Symmetric, LinksKept;
      hide LinkPorts, ExactNodes, TrueNodes;
      ghost var before := nodes;
      PrefixGrown(nodes, nodes);
      PrefixLinks(nodes, nodes);
      if truth.Valid() && TrueNodes(truth, nodes) { LinkedToKeepsTrueNodes(truth, nodes, local, i, number); }
      found := LinkToRemote(local, i, number);
      if found {
        var remote := PortRef(i, FindNumber(before[i].ports, number).value);
        LinkGrown(before, local, remote);
        GrownRoot(before, nodes);
        LinkKeepsConsistent(before, nodeMap, local, remote);
        LinkKeepsQueue(before, queue, local, remote);
        if Plain() && ExactNodes(truth, before) { LinkKeepsExact(truth, before, local, remote); }
        if Plain() && Sound(truth, before, queue) && LeadsThrough(truth, before, local, path)
          && Enters(truth, before, path, i, number) {
          SoundPartsOf(before, queue);
          LinkKeepsSound(truth, before, nodeMap, queue, local, remote);
          LinkingKeepsLinks(truth, before, nodeMap, local, remote);
        }
      }
    }

    lemma SoundPartsOf(nodes: seq<Node>, queue: seq<Item>)
      requires Plain() && Sound(truth, nodes, queue)
      ensures TrueNodes(truth, nodes) && TrueLinks(truth, nodes)
    {
    }

    /** `discover_connected_nodes_nvlink`: probes the ports of switch `i` that are not ring ports. */
    method DiscoverConnectedNodesNvlink(i: nat, path: Path, baseHopCnt: byte, ghost queue: seq<Item>)
      requires Ready(queue) && i < |nodes| && PathOk(Base(nodes), path) && |PathHops(path)| >= 1 && Online()
      requires baseHopCnt == GetHopCount(path)
      modifies requester, this`nodes, this`nodeMap
      ensures Later() && Ready(queue) && Grown(old(nodes), nodes)
      // whoever answers: each port probed is settled, and no node was met over a ring port
      ensures OthersSettled(Heard(), nodes, i, path) && OffRing(nodes, |old(nodes)|)
      ensures Counted(true, Base(nodes), Heard(), |old(Heard())|) && nodes != [] && Base(nodes) == old(Base(nodes))
      ensures old(AllHeard(Heard(), nodes)) ==> AllHeard(Heard(), nodes)
      ensures HearsTruth() && old(TrueNodes(truth, nodes)) ==> TrueNodes(truth, nodes)
      ensures HearsPlainTruth() && old(Sound(truth, nodes, queue)) && old(LeadsTo(truth, nodes, path, i)) ==>
        Sound(truth, nodes, queue) && LinksKept(old(nodes), nodes)
      // with every query answered, each port probed is linked if the path has room and its cable lands
      ensures HearsAll() ==>
              old(Sound(truth, nodes, queue) && LeadsTo(truth, nodes, path, i) && ExactNodes(truth, nodes)) ==>
        ExactNodes(truth, nodes) && (baseHopCnt < 63 ==> ProbesLinked(truth, old(nodes), nodes, i))
    {
      hide Heard, Tally, TrueNodes, Sound, Consistent, GoodQueue, PathOk, PathHops, LeadsTo, Grown, GetHopCount;
      hide Symmetric, Truthful, Lossless, GuidsDistinct, LinksKept, ExactNodes, Lands, IsLinked, TrueEnd, AllHeard;
      hide PortSettled, Counted, OffRing, HopsFor, TheseSettled, OthersSettled, Online;
      PrefixGrown(nodes, nodes);
      PrefixLinks(nodes, nodes);
      ghost var sound := Plain() && Sound(truth, nodes, queue) && LeadsTo(truth, nodes, path, i);
      ghost var exact := sound && ExactNodes(truth, nodes);
      var probes := PortsToProbe(i);
      ghost var before, heard := nodes, Heard();
      CountedNone(true, Base(nodes), heard);
      AllOffRing(nodes);
      NoneSettled(heard, nodes, i, path);
      assert probes[..0] == [];
      var k := 0;
      while k < |probes|
        invariant 0 <= k <= |probes|
        invariant Later() && Ready(queue) && Grown(before, nodes)
        invariant TheseSettled(Heard(), nodes, i, probes[..k], path) && OffRing(nodes, |before|)
        invariant Counted(true, Base(nodes), Heard(), |heard|) && Base(nodes) == Base(before)
        invariant AllHeard(heard, before) ==> AllHeard(Heard(), nodes)
        invariant sound && HearsPlainTruth() ==>
          Sound(truth, nodes, queue) && LeadsTo(truth, nodes, path, i) && LinksKept(before, nodes)
        invariant HearsTruth() && TrueNodes(truth, before) ==> TrueNodes(truth, nodes)
        invariant exact && HearsAll() ==> ExactNodes(truth, nodes)
        invariant exact && HearsAll() && baseHopCnt < 63 ==>
                    forall c :: 0 <= c < k ==> ProbeLinked(before, PortRef(i, probes[..k][c]))
      {
        ghost var now, told := nodes, Heard();
        GrownRoot(before, nodes);
        GrownHas(before, nodes, PortRef(i, probes[k]));
        if Plain() { GrownEnd(truth, before, nodes, PortRef(i, probes[k])); }
        ProbePort(PortRef(i, probes[k]), path, baseHopCnt, queue);
        GrownTwice(before, now, nodes);
        assert probes[..k + 1] == probes[..k] + [probes[k]];
        ProbesTurn(|heard|, told, Heard(), |before|, now, nodes, i, probes[..k], probes[k], path);
        if sound && HearsPlainTruth() {
          LinksTwice(before, now, nodes);
          AllStayLinked(now, nodes, i, probes[..k]);
        }
        k := k + 1;
      }
      assert probes[..k] == probes;
      ProbedSettled(heard, Heard(), before, nodes, i, probes, path);
      if exact && HearsAll() && baseHopCnt < 63 {
        forall a: nat | a < |before[i].ports| && IsProbed(before[i].ports[a])
                        && Lands(truth, TrueEnd(truth, before, PortRef(i, a)))
          ensures IsLinked(nodes, PortRef(i, a))
        {
          var c :| 0 <= c < |probes| && probes[c] == a;
          assert ProbeLinked(before, PortRef(i, probes[..k][c]));
        }
      }
    }

    ghost predicate ProbeLinked(before: seq<Node>, r: PortRef)
      requires Plain()
      reads this`nodes
    {
      Has(before, r) && (Lands(truth, TrueEnd(truth, before, r)) ==> IsLinked(nodes, r))
    }

    /** One probe: a port of a switch, and the path to that switch. */
    method ProbePort(local: PortRef, path: Path, baseHopCnt: byte, ghost queue: seq<Item>)
      requires Ready(queue) && Has(nodes, local) && PortAt(nodes, local).number != 0 && Online()
      requires !IsRing(PortAt(nodes, local).number)
      requires PathOk(Base(nodes), path) && |PathHops(path)| >= 1 && baseHopCnt == GetHopCount(path)
      modifies requester, this`nodes, this`nodeMap
      ensures Later() && Ready(queue) && Grown(old(nodes), nodes)
      // whoever answers: the port is settled, and the node behind it was not met over a ring port
      ensures PortSettled(Heard(), nodes, local, path) && OffRing(nodes, |old(nodes)|)
      ensures Counted(true, Base(nodes), Heard(), |old(Heard())|) && nodes != [] && Base(nodes) == old(Base(nodes))
      ensures old(AllHeard(Heard(), nodes)) ==> AllHeard(Heard(), nodes)
      ensures HearsTruth() && old(TrueNodes(truth, nodes)) ==> TrueNodes(truth, nodes)
      ensures HearsPlainTruth() && old(Sound(truth, nodes, queue)) && old(LeadsTo(truth, nodes, path, local.node)) ==>
        Sound(truth, nodes, queue) && LeadsTo(truth, nodes, path, local.node) && LinksKept(old(nodes), nodes)
      // with every query answered, the port is linked if the path has room and its cable lands
      ensures HearsAll() ==>
              old(Sound(truth, nodes, queue) && LeadsTo(truth, nodes, path, local.node) && ExactNodes(truth, nodes)) ==>
        && ExactNodes(truth, nodes)
        && (baseHopCnt < 63 && Lands(truth, old(TrueEnd(truth, nodes, local))) ==> IsLinked(nodes, local))
    {
      hide Heard, Tally, TrueNodes, Sound, Consistent, GoodQueue, PathOk, PathHops, LeadsTo, Grown, GetHopCount;
      hide LeadsThrough, Enters, Symmetric, Truthful, Lossless, GuidsDistinct, LinksKept, LinkedTo, DecodeNodeInfo;
      hide ExactNodes, Lands, Resolve, TrueEnd, IsLinked, FindNumber, Ends, Strays, AllHeard, PortSettled, Failed;
      hide GuidTold, EnteredBy, Along, Counted, OffRing, MetAt, HopsFor, Longer, AsksFirst, Online;
      ghost var before, heard := nodes, Heard();
      CountedNone(true, Base(nodes), heard);
      AllOffRing(nodes);
      PrefixGrown(before, before);
      PrefixLinks(before, before);
      ghost var sound := Plain() && Sound(truth, nodes, queue) && LeadsTo(truth, nodes, path, local.node);
      var number := PortAt(nodes, local).number;
      var hopCnt := baseHopCnt + 1;
      ExtendPath(Base(nodes), path, number);
      if hopCnt >= 64 {
        FullSettled(heard, nodes, local, path);
        return;
      }
      var longer := path[hopCnt := number];
      IsLonger(path, number, longer);
      HopsDeeper(true, Base(nodes), longer);
      if sound { HopThrough(truth, nodes, path, local, longer); ThroughLands(longer, local); }
      ghost var a;
      var r, entered, isNew;
      r, entered, isNew, a := FindOrReach(longer, hopCnt, queue);
      AlongCounted(true, Base(nodes), heard, Heard(), longer, hopCnt);
      PrefixGrown(before, nodes);
      PrefixLinks(before, nodes);
      if sound { GrownLeadsTo(truth, before, nodes, path, local.node); }
      SamePortStill(before, nodes, local);
      if r.Err? {
        FailedSettled(Heard(), nodes, local, path);
        return;
      }
      GrownHas(before, nodes, local);
      if sound { GrownThrough(truth, before, nodes, local, longer); GrownEnd(truth, before, nodes, local); }
      ghost var reached := nodes;
      if sound && HearsAll() && ExactNodes(truth, nodes) {
        LandsFound(truth, nodes, local, longer, r.value, entered);
      }
      var found := LinkNvlink(local, r.value, entered, longer, queue);
      ProbeTurn(Heard(), |before|, reached, nodes, local, r.value, entered, path);
      GrownTwice(before, reached, nodes);
      if sound { GrownLeadsTo(truth, reached, nodes, path, local.node); }
      if sound && HearsPlainTruth() { LinksTwice(before, reached, nodes); }
    }

    lemma ThroughLands(path: Path, local: PortRef)
      requires Plain() && LeadsThrough(truth, nodes, local, path)
      ensures Ends(truth, PathHops(path)) <==>
                Lands(truth, TrueEnd(truth, nodes, local)) || Strays(truth, TrueEnd(truth, nodes, local))
    {
      hide Heard, Resolve, PathHops, Peer, TrueEnd, Tabled, Readable;
    }

    /** A switch just met: its other ports are probed, and its ring ports go to the front of the stack. */
    method ExpandNvlink(i: nat, path: Path, hopCnt: byte, stack: seq<Item>) returns (queue: seq<Item>)
      requires Ready(stack) && i < |nodes| && PathOk(Base(nodes), path) && |PathHops(path)| >= 1 && Online()
      requires nodes[i].nodeType == Switch && hopCnt == GetHopCount(path)
      modifies requester, this`nodes, this`nodeMap
      ensures Later() && Ready(queue) && Grown(old(nodes), nodes)
      ensures queue == RingSeeds(old(nodes)[i].ports, i, path) + stack
      // whoever answers: the switch has been expanded, and no node was met over a ring port
      ensures Expanded(Heard(), nodes, queue, i, path) && OffRing(nodes, |old(nodes)|)
      ensures Counted(true, Base(nodes), Heard(), |old(Heard())|) && nodes != [] && Base(nodes) == old(Base(nodes))
      ensures old(AllHeard(Heard(), nodes)) ==> AllHeard(Heard(), nodes)
      ensures HearsTruth() && old(TrueNodes(truth, nodes)) ==> TrueNodes(truth, nodes)
      ensures HearsPlainTruth() && old(Sound(truth, nodes, stack)) && old(LeadsTo(truth, nodes, path, i)) ==>
        Sound(truth, nodes, queue) && LinksKept(old(nodes), nodes)
      ensures HearsAll() ==>
              old(Sound(truth, nodes, stack) && LeadsTo(truth, nodes, path, i) && ExactNodes(truth, nodes)) ==>
        ExactNodes(truth, nodes) && (hopCnt < 63 ==> ProbesLinked(truth, old(nodes), nodes, i))
    {
      hide Heard, Tally, TrueNodes, Sound, Consistent, GoodQueue, PathOk, PathHops, LeadsTo, Ascending, TrueItems;
      hide RingSeeds, LinksKept, GetHopCount, ExactNodes, ProbesLinked, Truthful, Lossless, GuidsDistinct, Symmetric;
      hide AllHeard, Counted, OffRing, OthersSettled, Expanded;
      ghost var before := nodes;
      ghost var sound := Plain() && Sound(truth, nodes, stack) && LeadsTo(truth, nodes, path, i);
      DiscoverConnectedNodesNvlink(i, path, hopCnt, stack);
      GrownRoot(before, nodes);
      queue := PushRing(stack, i, path);
      GrownRing(before, nodes, i, path);
      PushedExpanded(Heard(), nodes, i, path, stack);
      ghost var more := RingSeeds(nodes[i].ports, i, path);
      RingGood(nodes, i, path, more);
      QueueConcat(nodes, more, stack);
      if sound && HearsPlainTruth() {
        GrownLeadsTo(truth, before, nodes, path, i);
        RingTrue(truth, nodes, i, path, more);
        SoundConcat(stack, more);
      }
    }

    /** One turn of the main loop of `seq_discover_nvlink`. */
    method VisitNvlink(it: Item, rest: seq<Item>) returns (r: Result<()>, queue: seq<Item>)
      requires Ready([it] + rest) && Online()
      modifies requester, this`nodes, this`nodeMap
      ensures Later() && Ready(queue) && Weight(queue) < Weight([it] + rest)
      ensures r.Err? ==> r == Err(InvalidData)
      ensures Grown(old(nodes), nodes)
      // an entry that is linked or has no room is dropped unasked; else the node behind it is asked about first
      ensures if Idle(old(nodes), it) then
                queue == rest && nodes == old(nodes) && requester.history == old(requester.history)
              else AsksFirst(old(requester.history), requester.history, BehindEntry(old(nodes), it))
      // whoever answers: the rest of the list is kept, the entry is done or it is an error over an answer, and a switch
      // met over a ring port has been expanded
      ensures KeepsBehind(queue, rest)
      ensures r.Ok? ==> PortDone(Heard(), nodes, it.port, it.path)
      ensures r.Err? ==> MisnamedAt(Heard(), nodes, it.port, it.path)
      ensures RingExpanded(Heard(), nodes, queue, |old(nodes)|)
      ensures Counted(true, Base(nodes), Heard(), |old(Heard())|) && nodes != [] && Base(nodes) == old(Base(nodes))
      ensures old(AllHeard(Heard(), nodes)) ==> AllHeard(Heard(), nodes)
      ensures HearsTruth() && old(TrueNodes(truth, nodes)) ==> TrueNodes(truth, nodes)
      ensures HearsPlainTruth() && old(Sound(truth, nodes, [it] + rest)) ==>
        Sound(truth, nodes, queue) && LinksKept(old(nodes), nodes)
      ensures HearsAll() && old(Sound(truth, nodes, [it] + rest) && ExactNodes(truth, nodes)) ==>
        && ExactNodes(truth, nodes)
        && EntryLinked(truth, old(nodes), nodes, it)
        && (r.Err? <==> Stuck(truth, old(nodes), it))
    {
      hide Heard, Tally, TrueNodes, Sound, Consistent, GoodQueue, PathOk, PathHops, LeadsTo, Grown, GetHopCount;
      hide LeadsThrough, Enters, Weight, Symmetric, Truthful, Lossless, GuidsDistinct, TrueItem, LinksKept;
      hide ExactNodes, Lands, Strays, TrueEnd, AllHeard, Counted, Failed, RingExpanded, Misnamed, OffRing, Longer;
      hide AsksFirst, KeepsBehind;
      NotPortZero([it] + rest);
      CountedNone(true, Base(nodes), Heard());
      AllOffRing(nodes);
      OffRingExpanded(Heard(), nodes, rest, |nodes|);
      ExtendsBy([], rest, it.path);
      ExtendsKeeps(rest, rest, it.path);
      ghost var before := nodes;
      PopIsLighter(it, rest);
      TailGood(nodes, it, rest);
      PrefixGrown(nodes, nodes);
      PrefixLinks(nodes, nodes);
      ghost var sound := Plain() && Sound(truth, nodes, [it] + rest);
      if sound { TailSound(truth, nodes, it, rest); }
      var number := PortAt(nodes, it.port).number;
      r, queue := Ok(()), rest;
      if number == 0 || PortAt(nodes, it.port).remote.Some? { return; }
      var hopCnt := GetHopCount(it.path) + 1;
      ExtendPath(Base(nodes), it.path, number);
      if hopCnt >= 64 { return; }
      IsLonger(it.path, number, it.path[hopCnt := number]);
      var path := it.path[hopCnt := number];
      if sound { ItemThrough(it, path); }
      r, queue := ProbeNvlink(it.port, path, hopCnt, rest);
      GrownHas(before, nodes, it.port);
      ExtendsKeeps(queue, rest, path);
      if queue != rest {
        ghost var more :| queue == more + rest && AllAlong(more, path);
        ExpansionIsLighter(it, rest, more, path);
      }
    }

    lemma ItemThrough(it: Item, path: Path)
      requires Plain() && TrueItem(truth, nodes, it)
      requires PathHops(path) == PathHops(it.path) + [PortAt(nodes, it.port).number]
      ensures LeadsThrough(truth, nodes, it.port, path)
    {
      hide Heard, Peer, Home, PathHops, Resolve;
      NextHop(truth, nodes, it, path);
    }

    /** A node just met is expanded if it is a switch. */
    method ExpandIfNew(isNew: bool, i: nat, path: Path, hopCnt: byte, rest: seq<Item>) returns (queue: seq<Item>)
      requires Ready(rest) && i < |nodes| && PathOk(Base(nodes), path) && |PathHops(path)| >= 1 && Online()
      requires hopCnt == GetHopCount(path)
      modifies requester, this`nodes, this`nodeMap
      ensures Later() && Ready(queue) && Grown(old(nodes), nodes)
      ensures Extends(queue, rest, path) && (!isNew ==> queue == rest && nodes == old(nodes))
      // whoever answers: if it is new it has been expanded, and no node was met over a ring port
      ensures (isNew ==> Expanded(Heard(), nodes, queue, i, path)) && OffRing(nodes, |old(nodes)|)
      ensures Counted(true, Base(nodes), Heard(), |old(Heard())|) && nodes != [] && Base(nodes) == old(Base(nodes))
      ensures old(AllHeard(Heard(), nodes)) ==> AllHeard(Heard(), nodes)
      ensures HearsTruth() && old(TrueNodes(truth, nodes)) ==> TrueNodes(truth, nodes)
      ensures HearsPlainTruth() && old(Sound(truth, nodes, rest) && LeadsTo(truth, nodes, path, i)) ==>
        Sound(truth, nodes, queue) && LinksKept(old(nodes), nodes)
      ensures HearsAll() ==>
              old(Sound(truth, nodes, rest) && LeadsTo(truth, nodes, path, i) && ExactNodes(truth, nodes)) ==>
        && ExactNodes(truth, nodes)
        && (isNew && old(nodes)[i].nodeType == Switch && hopCnt < 63 ==> ProbesLinked(truth, old(nodes), nodes, i))
    {
      hide Heard, Tally, TrueNodes, Sound, Consistent, GoodQueue, PathOk, PathHops, LeadsTo, Grown, Symmetric;
      hide Truthful, Lossless, GuidsDistinct, LinksKept, GetHopCount, RingSeeds, ExactNodes, ProbesLinked, AllHeard;
      hide Counted, OffRing, Expanded, Extends;
      PrefixGrown(nodes, nodes);
      PrefixLinks(nodes, nodes);
      queue := rest;
      ExtendsBy([], rest, path);
      CountedNone(true, Base(nodes), Heard());
      AllOffRing(nodes);
      if nodes[i].nodeType != Switch { NoSwitchExpanded(Heard(), nodes, rest, i, path); }
      if isNew && nodes[i].nodeType == Switch {
        TablesAscend(rest);
        RingSeedsFew(nodes[i].ports, i, path);
        ExtendsBy(RingSeeds(nodes[i].ports, i, path), rest, path);
        queue := ExpandNvlink(i, path, hopCnt, rest);
      }
    }

    /** Asks who is behind a port, and expands that node if it is a switch just met. */
    method MeetNvlink(path: Path, hopCnt: byte, rest: seq<Item>, ghost local: PortRef)
      returns (r: Result<nat>, entered: byte, queue: seq<Item>)
      requires Ready(rest) && Has(nodes, local) && PathOk(Base(nodes), path) && |PathHops(path)| >= 1 && Online()
      requires hopCnt == GetHopCount(path)
      modifies requester, this`nodes, this`nodeMap
      ensures Later() && Ready(queue) && Grown(old(nodes), nodes) && (r.Ok? ==> r.value < |nodes|)
      ensures Extends(queue, rest, path)
      ensures AsksFirst(old(requester.history), requester.history, path)
      // whoever answers: it fails only over an answer, the port entered is the one some answer names, and a switch met
      // over a ring port has been expanded
      ensures r.Err? ==> Failed(Heard(), path)
      ensures r.Ok? ==> GuidTold(Heard(), path, nodes[r.value].guid) && EnteredBy(Heard(), path, entered)
      ensures RingExpanded(Heard(), nodes, queue, |old(nodes)|)
      ensures Counted(true, Base(nodes), Heard(), |old(Heard())|) && nodes != [] && Base(nodes) == old(Base(nodes))
      ensures old(AllHeard(Heard(), nodes)) ==> AllHeard(Heard(), nodes)
      ensures HearsTruth() && old(TrueNodes(truth, nodes)) ==> TrueNodes(truth, nodes)
      ensures HearsPlainTruth() && old(Sound(truth, nodes, rest) && LeadsThrough(truth, nodes, local, path)) ==>
        && Sound(truth, nodes, queue) && LinksKept(old(nodes), nodes)
        && (r.Ok? ==> LeadsThrough(truth, nodes, local, path) && Enters(truth, nodes, path, r.value, entered))
      ensures HearsAll() ==>
              old(Sound(truth, nodes, rest) && LeadsThrough(truth, nodes, local, path) && ExactNodes(truth, nodes)) ==>
        ExactNodes(truth, nodes) && (Ends(truth, PathHops(path)) ==> r.Ok?)
    {
      hide Heard, Tally, TrueNodes, Sound, Consistent, GoodQueue, PathOk, PathHops, LeadsTo, Grown, LeadsThrough;
      hide Enters, Symmetric, Truthful, Lossless, GuidsDistinct, LinksKept, DecodeNodeInfo, GetHopCount, ExactNodes;
      hide Resolve, ProbesLinked, Ends, AllHeard, Counted, OffRing, Expanded, Failed, GuidTold, EnteredBy;
      hide RingExpanded, HopsFor, MetAt, Along, AsksFirst, Extends, Online, Ready;
      assert nodes != [];
      ghost var sound := Plain() && Sound(truth, nodes, rest) && LeadsThrough(truth, nodes, local, path);
      ghost var before, heard := nodes, Heard();
      HopsDeeper(true, Base(nodes), path);
      ExtendsBy([], rest, path);
      ghost var a;
      ghost var began := requester.history;
      var isNew;
      r, entered, isNew, a := FindOrReach(path, hopCnt, rest);
      PrefixGrown(before, nodes);
      PrefixLinks(before, nodes);
      ghost var mid := requester.history;
      AlongCounted(true, Base(nodes), heard, Heard(), path, hopCnt);
      if r.Err? {
        AllOffRing(nodes);
        OffRingExpanded(Heard(), nodes, rest, |nodes|);
        return r, 0, rest;
      }
      ghost var asked := Heard();
      GrownRoot(before, nodes);
      ghost var met := nodes;
      if sound && HearsPlainTruth() { EntersLeadsTo(truth, nodes, path, r.value, entered); }
      queue := ExpandIfNew(isNew, r.value, path, hopCnt, rest);
      GrownCount(met, nodes);
      AsksStill(began, mid, requester.history, path);
      GrownTwice(before, met, nodes);
      MetTurn(heard, asked, Heard(), Base(nodes), |before|, met, nodes, queue, r.value, entered, path);
      if sound && HearsPlainTruth() {
        GrownThrough(truth, before, nodes, local, path);
        GrownEnters(truth, met, nodes, path, r.value, entered);
        LinksTwice(before, met, nodes);
      }
    }

    /** Asks who is behind a port, expands that node if it is a switch just met, and links the two ports. */
    method ProbeNvlink(local: PortRef, path: Path, hopCnt: byte, rest: seq<Item>)
      returns (r: Result<()>, queue: seq<Item>)
      requires Ready(rest) && Has(nodes, local) && PathOk(Base(nodes), path) && |PathHops(path)| >= 1 && Online()
      requires hopCnt == GetHopCount(path)
      modifies requester, this`nodes, this`nodeMap
      ensures Later() && Ready(queue) && Grown(old(nodes), nodes)
      ensures Extends(queue, rest, path)
      ensures r.Err? ==> r == Err(InvalidData)
      ensures AsksFirst(old(requester.history), requester.history, path)
      // whoever answers: the port is linked or the node behind it could not be recorded, it is an error only over an
      // answer, and a switch met over a ring port has been expanded
      ensures r.Ok? ==> IsLinked(nodes, local) || Failed(Heard(), path)
      ensures r.Err? ==> Misnamed(Heard(), nodes, path)
      ensures RingExpanded(Heard(), nodes, queue, |old(nodes)|)
      ensures Counted(true, Base(nodes), Heard(), |old(Heard())|) && nodes != [] && Base(nodes) == old(Base(nodes))
      ensures old(AllHeard(Heard(), nodes)) ==> AllHeard(Heard(), nodes)
      ensures HearsTruth() && old(TrueNodes(truth, nodes)) ==> TrueNodes(truth, nodes)
      ensures HearsPlainTruth() && old(Sound(truth, nodes, rest) && LeadsThrough(truth, nodes, local, path)) ==>
        Sound(truth, nodes, queue) && LinksKept(old(nodes), nodes)
      // with every query answered, the port is linked if its cable lands, and it is an error exactly if it strays
      ensures HearsAll() ==>
              old(Sound(truth, nodes, rest) && LeadsThrough(truth, nodes, local, path) && ExactNodes(truth, nodes)) ==>
        && ExactNodes(truth, nodes)
        && (Lands(truth, old(TrueEnd(truth, nodes, local))) ==> IsLinked(nodes, local))
        && (r.Err? <==> Strays(truth, old(TrueEnd(truth, nodes, local))))
    {
      hide Heard, Tally, TrueNodes, Sound, Consistent, GoodQueue, PathOk, PathHops, LeadsTo, Grown, LeadsThrough;
      hide Enters, Symmetric, Truthful, Lossless, GuidsDistinct, LinksKept, LinkedTo, GetHopCount, FindNumber;
      hide ExactNodes, Lands, Strays, TrueEnd, IsLinked, Resolve, Ends, AllHeard, Counted, Failed, GuidTold;
      hide EnteredBy, RingExpanded, Misnamed, AsksFirst, Extends;
      ghost var before := nodes;
      ghost var sound := Plain() && Sound(truth, nodes, rest) && LeadsThrough(truth, nodes, local, path);
      if sound { ThroughLands(path, local); }
      var got, entered;
      got, entered, queue := MeetNvlink(path, hopCnt, rest, local);
      if got.Err? { return Ok(()), queue; }
      GrownHas(before, nodes, local);
      ghost var met := nodes;
      if sound && HearsPlainTruth() {
        GrownTo(before, local);
        EntersLeadsTo(truth, nodes, path, got.value, entered);
      }
      if sound && HearsAll() && ExactNodes(truth, nodes) {
        LandsFound(truth, nodes, local, path, got.value, entered);
      }
      EntryMisnamed(Heard(), nodes, path, got.value, entered);
      LinkingHeard(Heard(), nodes, local, got.value, entered);
      var found := LinkNvlink(local, got.value, entered, path, queue);
      GrownRoot(met, nodes);
      RingExpandedStill(Heard(), Heard(), met, nodes, queue, |before|);
      if !found { NotLinked(met, local, got.value, entered); }
      GrownTwice(before, met, nodes);
      if sound && HearsPlainTruth() { LinksTwice(before, met, nodes); }
      r := if found then Ok(()) else Err(InvalidData);
    }

    lemma GrownTo(before: seq<Node>, local: PortRef)
      requires Plain() && Grown(before, nodes) && Has(before, local)
      ensures Has(nodes, local) && TrueEnd(truth, nodes, local) == TrueEnd(truth, before, local)
    {
      hide Heard, Grown;
      GrownEnd(truth, before, nodes, local);
    }

    /** `first_hop_discovery_nvlink`, whose set of visited GUIDs is never read. */
    method FirstHopDiscoveryNvlink() returns (r: Result<seq<Item>>)
      requires nodes == [] && nodeMap == map[] && Online()
      modifies requester, this`nodes, this`nodeMap
      ensures Later()
      ensures r.Err? ==> r == Err(InvalidData) && nodes == [] && nodeMap == map[]
      ensures r.Ok? ==> Ready(r.value)
      // whoever answers: it fails only over an answer about the agent's node, and otherwise what is behind each of its
      // ports is accounted for
      ensures r.Err? ==> Along(old(Heard()), Heard(), START_PATH, 0) && Failed(Heard(), START_PATH)
      ensures r.Ok? ==> AllHeard(Heard(), nodes) && Counted(true, Base(nodes), Heard(), |old(Heard())|)
      ensures r.Ok? ==> HopsServed(Heard(), nodes, r.value, |nodes[0].ports|)
      ensures r.Ok? ==> RingExpanded(Heard(), nodes, r.value, 0)
      ensures HearsTruth() && r.Ok? ==> TrueNodes(truth, nodes)
      ensures HearsPlainTruth() && r.Ok? ==> Sound(truth, nodes, r.value)
      ensures HearsAll() ==> (r.Ok? <==> Route(truth, [])) && (r.Ok? ==> ExactNodes(truth, nodes))
    {
      hide Heard, Tally, Sound, Consistent, GoodQueue, Grown, Closed, Routes, Fifo, Wired, ExactNodes, Truthful;
      hide Lossless, GuidsDistinct, Symmetric, TrueNodes, Route, AllHeard, Counted, HopsServed, OffRing, Failed;
      hide Along, HopServed, Passed, RingExpanded, Transaction.Requester.Tracked;
      ghost var start := Heard();
      var got := EnterRoot();
      if got.Err? { return Err(InvalidData); }
      ghost var root := nodes;
      RootCounted(true, Base(nodes), start, Heard());
      RootOffRing(nodes);
      NoneServed(Heard(), nodes);
      var ports := nodes[0].ports;
      var stack: seq<Item> := [];
      PrefixGrown(nodes, nodes);
      var k := 0;
      while k < |ports|
        invariant 0 <= k <= |ports|
        invariant Later() && Ready(stack) && Grown(root, nodes)
        invariant HopsServed(Heard(), nodes, stack, k) && OffRing(nodes, 0) && AllHeard(Heard(), nodes)
        invariant Counted(true, Base(nodes), Heard(), |start|) && |start| <= |Heard()| && Base(nodes) == Base(root)
        invariant HearsTruth() ==> TrueNodes(truth, nodes)
        invariant HearsPlainTruth() ==> Sound(truth, nodes, stack)
        invariant HearsAll() ==> Route(truth, []) && ExactNodes(truth, nodes)
      {
        ghost var now, heard, were := nodes, Heard(), stack;
        GrownRoot(root, nodes);
        SameRootPorts(root, nodes);
        GrownHas(root, nodes, PortRef(0, k));
        if ports[k].number != 0 {
          stack := FirstHopPortNvlink(k, stack);
          HopsServedMore(heard, Heard(), now, nodes, were, stack, k);
          GrownOffRing(now, nodes, 0);
          CountedJoin(true, Base(nodes), heard, Heard(), |start|);
        } else {
          PrefixGrown(now, now);
          HopZero(heard, nodes, stack, k);
        }
        GrownTwice(root, now, nodes);
        k := k + 1;
      }
      SameRootPorts(root, nodes);
      OffRingExpanded(Heard(), nodes, stack, 0);
      r := Ok(stack);
    }

    /** One turn of that loop. */
    method FirstHopPortNvlink(k: nat, stack: seq<Item>) returns (queue: seq<Item>)
      requires Ready(stack) && k < |nodes[0].ports| && nodes[0].ports[k].number != 0 && Online()
      modifies requester, this`nodes, this`nodeMap
      ensures Later() && Ready(queue) && Grown(old(nodes), nodes)
      // whoever answers: the node is known, and expanded if it is a switch, or it could not be recorded; the rest of
      // the list is kept, and no node was met over a ring port
      ensures HopServed(Heard(), nodes, queue, old(HopPath(nodes, nodes[0].ports[k].number)))
      ensures KeepsBehind(queue, stack) && OffRing(nodes, |old(nodes)|)
      ensures Counted(true, Base(nodes), Heard(), |old(Heard())|) && nodes != [] && Base(nodes) == old(Base(nodes))
      ensures old(AllHeard(Heard(), nodes)) ==> AllHeard(Heard(), nodes)
      ensures HearsTruth() && old(TrueNodes(truth, nodes)) ==> TrueNodes(truth, nodes)
      ensures HearsPlainTruth() && old(Sound(truth, nodes, stack)) ==>
        Sound(truth, nodes, queue) && LinksKept(old(nodes), nodes)
      ensures HearsAll() && old(Sound(truth, nodes, stack) && ExactNodes(truth, nodes)) ==> ExactNodes(truth, nodes)
    {
      hide Heard, Tally, TrueNodes, Sound, Consistent, GoodQueue, PathOk, PathHops, Grown, Registers, Resolve, Home;
      hide Symmetric, Truthful, Lossless, GuidsDistinct, GetHopCount, LinksKept, ExactNodes, ExactNode, ProbesLinked;
      hide RingSeeds, LeadsTo, Ends, AllHeard, Counted, OffRing, Expanded, Failed, GuidTold, HopsFor, Along, Online;
      hide KeepsBehind, Extends;
      ghost var before, map0, heard := nodes, nodeMap, Heard();
      AllOffRing(nodes);
      ExtendsBy([], stack, START_PATH);
      ExtendsKeeps(stack, stack, START_PATH);
      ghost var sound := Plain() && Sound(truth, nodes, stack);
      var number := nodes[0].ports[k].number;
      var base := if nodes[0].nodeType == Switch then 0 else 1;
      FirstHopOk(base, number);
      var path := START_PATH[base := number];
      FirstHopCount(base, number);
      var reached := Reach(path, base, stack);
      PrefixGrown(before, nodes);
      PrefixLinks(before, nodes);
      HopCounted(true, base, heard, Heard(), number);
      GrownRoot(before, nodes);
      if reached.Err? { return stack; }
      MetHere(before, map0, nodes, nodeMap, path, reached.value);
      MetOffRing(|before|, nodes, reached.value, path);
      ghost var asked := Heard();
      ghost var now := nodes;
      if sound && HearsTruth() { MetLeadsTo(truth, nodes, path, reached.value); }
      queue := ExpandIfNew(true, reached.value, path, base, stack);
      ExtendsKeeps(queue, stack, path);
      GrownTwice(before, now, nodes);
      GrownOffRing(now, nodes, |before|);
      CountedJoin(true, Base(nodes), asked, Heard(), |heard|);
      GuidNow(asked, Heard(), now, nodes, path, reached.value);
      if sound && HearsTruth() { LinksTwice(before, now, nodes); }
    }

    /** The main loop of `seq_discover_nvlink`. */
    method SearchRing(first: seq<Item>) returns (r: Result<()>)
      requires Ready(first) && Online()
      modifies requester, this`nodes, this`nodeMap
      ensures Later() && Ready([])
      ensures r.Err? ==> r == Err(InvalidData) && SomeMisnamed(Heard(), nodes)
      ensures old(RingAccounted(Heard(), nodes, first)) ==> RingHeard(Heard(), nodes)
      ensures r.Ok? && old(RingAccounted(Heard(), nodes, first)) ==> RingAccounted(Heard(), nodes, [])
      ensures HearsTruth() && old(TrueNodes(truth, nodes)) ==> TrueNodes(truth, nodes)
      ensures HearsPlainTruth() && old(Sound(truth, nodes, first)) ==> Sound(truth, nodes, [])
      ensures HearsAll() && old(Sound(truth, nodes, first) && ExactNodes(truth, nodes)) ==>
        ExactNodes(truth, nodes) && (r.Err? ==> SomeStrays(truth, nodes))
    {
      hide Heard, Tally, Sound, Consistent, GoodQueue, Weight, TrueNodes, TrueLinks, Symmetric, GuidsDistinct;
      hide Truthful, Lossless, Grown, LinksKept, ExactNodes, Lands, Strays, TrueEnd, GetHopCount, IsLinked;
      hide SomeStrays, Stuck, AllHeard, Counted, PortDone, MisnamedAt, RingExpanded, RingAccounted, RingHeard;
      hide SomeMisnamed, Transaction.Requester.Tracked;
      var stack := first;
      r := Ok(());
      if RingAccounted(Heard(), nodes, first) { RingAll(Heard(), nodes, first); }
      while stack != []
        invariant Later() && Ready(stack) && r.Ok?
        invariant old(RingAccounted(Heard(), nodes, first)) ==> RingHeard(Heard(), nodes)
        invariant old(RingAccounted(Heard(), nodes, first)) ==> RingAccounted(Heard(), nodes, stack)
        invariant HearsTruth() && old(TrueNodes(truth, nodes)) ==> TrueNodes(truth, nodes)
        invariant HearsPlainTruth() && old(Sound(truth, nodes, first)) ==> Sound(truth, nodes, stack)
        invariant HearsAll() && old(Sound(truth, nodes, first) && ExactNodes(truth, nodes)) ==> ExactNodes(truth, nodes)
        decreases Weight(stack)
      {
        var it, rest := stack[0], stack[1..];
        assert stack == [it] + rest;
        ghost var before, heard := nodes, Heard();
        ghost var exact := Plain() && Sound(truth, nodes, stack) && ExactNodes(truth, nodes);
        r, stack := VisitNvlink(it, rest);
        if RingAccounted(heard, before, [it] + rest) { RingTurn(heard, Heard(), before, nodes, [it] + rest); }
        if r.Err? {
          if exact && HearsAll() { StillStrays(truth, before, nodes, it); }
          SomeMisnamedAt(Heard(), nodes, it);
          NoQueueReady(stack);
          if HearsPlainTruth() && Sound(truth, nodes, stack) { SoundNoQueue(stack); }
          return;
        }
        if RingAccounted(heard, before, [it] + rest) { RingNext(heard, Heard(), before, nodes, it, rest, stack); }
      }
    }

    lemma SoundNoQueue(queue: seq<Item>)
      requires Plain() && Sound(truth, nodes, queue)
      ensures Sound(truth, nodes, [])
    {
      hide Heard, TrueNodes, TrueLinks;
    }

    /** `seq_discover_nvlink`: discovery along ring ports, with the other ports of each switch met probed once. */
    method SeqDiscoverNvlink() returns (r: Result<()>)
      requires Online()
      modifies this, requester
      ensures Afterwards() && since == |old(requester.history)|
      // Whoever answers: it ends, and the registry is empty or consistent.
      ensures nodes == [] || Ready([])
      ensures r.Ok? ==> Ready([]) && Categorised()
      ensures r.Err? ==> r == Err(InvalidData)
      // Whoever answers: it gives up only over an answer, about the agent's node or one that names a port its node does
      // not tell of. Otherwise every record is made of answers, and around each switch one hop out, or first met over
      // a ring port, every live port is linked, or has no room in its path, or the node behind it could not be recorded
      // or misnamed its port; and every query carried the hop count of its path.
      ensures r.Err? ==> Failed(Heard(), START_PATH) || SomeMisnamed(Heard(), nodes)
      ensures r.Ok? ==> RingAccounted(Heard(), nodes, [])
      ensures nodes != [] ==> RingHeard(Heard(), nodes)
      // Whoever answers: what it counts. Requests that went out were answered, or met a receive with nothing to give,
      // or are counted as timed out, those about ports twice; errors are faults and refused queries about ports.
      ensures requester.madTimeouts == requester.Out() - old(requester.Out()) - Gain(Heard())
      ensures requester.madErrors == requester.Faulted() - old(requester.Faulted()) + Refusals(Heard())
      // With true or missing answers, as genuine replies give: every record is true, and in a plain fabric every link,
      // even when it gives up.
      ensures HearsTruth() ==> TrueNodes(truth, nodes)
      ensures HearsPlainTruth() ==> TrueLinks(truth, nodes)
      ensures requester.genuine ==> TrueNodes(truth, nodes) && (Plain() ==> TrueLinks(truth, nodes))
      // With every query answered: every record is complete, it gives up only over the agent's node or a cable that
      // strays, and otherwise every live port around the switches it expands is linked whose cable lands.
      ensures HearsAll() ==> ExactNodes(truth, nodes)
      ensures HearsAll() && r.Err? ==> !Route(truth, []) || SomeStrays(truth, nodes)
      ensures HearsAll() && r.Ok? ==> LinkedAround(truth, nodes)
      ensures requester.genuine && requester.prompt && Plain() ==>
        ExactNodes(truth, nodes) && (r.Ok? ==> LinkedAround(truth, nodes))
    {
      hide Heard, Tally, Sound, Consistent, GoodQueue, Weight, TrueNodes, TrueLinks, Symmetric, GuidsDistinct;
      hide Truthful, Lossless, Route, Grown, LinksKept, ExactNodes, Lands, Strays, TrueEnd, GetHopCount, IsLinked;
      hide SomeStrays, Stuck, AllHeard, Counted, HopsServed, RingExpanded, Failed, Along, RingAccounted, RingHeard;
      hide SomeMisnamed, LinkedAround, Transaction.Requester.Out, Transaction.Requester.Faulted, Gain, Refusals;
      Clear();
      NothingKnown();
      var first := FirstHopDiscoveryNvlink();
      if first.Err? {
        NothingKnown();
        Reckon(old(requester.history), old(requester.Out()), old(requester.Faulted()));
        return Err(first.error);
      }
      RingStart(Heard(), nodes, first.value);
      r := SearchRing(first.value);
      Reckon(old(requester.history), old(requester.Out()), old(requester.Faulted()));
      if HearsPlainTruth() { SoundParts([]); }
      if r.Err? { return; }
      if HearsAll() { AroundLinked(); }
      Categorise();
    }

    lemma AroundLinked()
      requires HearsAll() && Online() && Ready([]) && TrueNodes(truth, nodes) && ExactNodes(truth, nodes)
      requires RingAccounted(Heard(), nodes, [])
      ensures LinkedAround(truth, nodes)
    {
      hide LinkedAround, RingAccounted, Truthful, Lossless, TrueNodes, ExactNodes, Consistent, Symmetric;
      hide GuidsDistinct;
      var before := requester.history[..since];
      assert requester.history == before + Heard();
      TruthOfParts(before, Heard(), truth);
      AllLinkedAround(truth, Heard(), nodes, nodeMap);
    }

    lemma NothingKnown()
      requires nodes == []
      ensures truth.Valid() ==> TrueNodes(truth, nodes) && TrueLinks(truth, nodes) && ExactNodes(truth, nodes)
    {
    }

    lemma NoQueueReady(queue: seq<Item>)
      requires Ready(queue)
      ensures Ready([])
    {
    }

    lemma SoundConcat(stack: seq<Item>, more: seq<Item>)
      requires Plain() && Sound(truth, nodes, stack) && TrueItems(truth, nodes, more)
      ensures Sound(truth, nodes, more + stack)
    {
      hide Heard, TrueNodes, TrueLinks, TrueItems;
      TrueItemsOf(stack);
      TrueConcat(truth, nodes, more, stack);
    }

    lemma TrueItemsOf(stack: seq<Item>)
      requires Plain() && Sound(truth, nodes, stack)
      ensures TrueItems(truth, nodes, stack)
    {
    }
  }

  /** The indices of the switches, or of the other nodes, in registry order. */
  function IndicesOf(nodes: seq<Node>, switch: bool): seq<nat> {
    if nodes == [] then []
    else
      var n := |nodes| - 1;
      IndicesOf(nodes[..n], switch) + if (nodes[n].nodeType == Switch) == switch then [n] else []
  }

  /** The two lists of the categorisation partition the registry. */
  lemma {:induction false} Partition(nodes: seq<Node>, i: nat)
    ensures i in IndicesOf(nodes, true) <==> i < |nodes| && nodes[i].nodeType == Switch
    ensures i in IndicesOf(nodes, false) <==> i < |nodes| && nodes[i].nodeType != Switch
    ensures |IndicesOf(nodes, true)| + |IndicesOf(nodes, false)| == |nodes|
  {
    if nodes != [] { Partition(nodes[..|nodes| - 1], i); }
  }
}
