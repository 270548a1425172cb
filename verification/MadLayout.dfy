/**
 The packed wire structures of src/mad/types.rs, src/mad/dr_smp.rs and src/mad/node.rs on a
 little-endian host, and the requests src/discovery/lib.rs builds with them.
 */
module MadLayout {
  import opened Prelude
  import Bitfield

  // ---- Integers in memory ----

  /** The memory image of an `n`-byte integer on a little-endian host. */
  function LE(v: nat, n: nat): (s: seq<byte>)
    ensures |s| == n
  {
    if n == 0 then [] else [v % 0x100] + LE(v / 0x100, n - 1)
  }

  /** The integer with memory image `s`. */
  function FromLE(s: seq<byte>): nat {
    if s == [] then 0 else s[0] + 0x100 * FromLE(s[1..])
  }

  lemma {:induction false} FromLEBound(s: seq<byte>)
    ensures FromLE(s) < Pow2(8 * |s|)
  {
    if s != [] {
      FromLEBound(s[1..]);
      Pow2Add(8, 8 * (|s| - 1));
      Pow2Values();
    }
  }

  lemma {:induction false} LEFromLE(s: seq<byte>)
    ensures LE(FromLE(s), |s|) == s
  {
    if s != [] {
      LEFromLE(s[1..]);
      LowByteFirst(s[0], FromLE(s[1..]));
    }
  }

  lemma LowByteFirst(b: byte, rest: nat)
    ensures (b + 0x100 * rest) % 0x100 == b && (b + 0x100 * rest) / 0x100 == rest
  {
    DivModUnique(rest, 0x100, b);
  }

  lemma {:induction false} FromLELE(v: nat, n: nat)
    requires v < Pow2(8 * n)
    ensures FromLE(LE(v, n)) == v
  {
    if n > 0 {
      Pow2Add(8, 8 * (n - 1));
      Pow2Values();
      assert v / 0x100 < Pow2(8 * (n - 1));
      FromLELE(v / 0x100, n - 1);
      assert LE(v, n)[1..] == LE(v / 0x100, n - 1);
    }
  }

  /** The powers that bound the integer types. */
  lemma Widths()
    ensures Pow2(8 * 1) == 0x100 && Pow2(8 * 2) == 0x1_0000
    ensures Pow2(8 * 4) == 0x1_0000_0000 && Pow2(8 * 8) == 0x1_0000_0000_0000_0000
  {
    Pow2Values();
  }

  function U16(s: seq<byte>): (v: u16)
    requires |s| == 2
  {
    FromLEBound(s); Widths(); FromLE(s)
  }

  function U32(s: seq<byte>): (v: u32)
    requires |s| == 4
  {
    FromLEBound(s); Widths(); FromLE(s)
  }

  function U64(s: seq<byte>): (v: u64)
    requires |s| == 8
  {
    FromLEBound(s); Widths(); FromLE(s)
  }

  lemma U16Back(s: seq<byte>) requires |s| == 2 ensures LE(U16(s), 2) == s { LEFromLE(s); }
  lemma U32Back(s: seq<byte>) requires |s| == 4 ensures LE(U32(s), 4) == s { LEFromLE(s); }
  lemma U64Back(s: seq<byte>) requires |s| == 8 ensures LE(U64(s), 8) == s { LEFromLE(s); }
  lemma U16OfLE(v: u16) ensures U16(LE(v, 2)) == v { Widths(); FromLELE(v, 2); }
  lemma U32OfLE(v: u32) ensures U32(LE(v, 4)) == v { Widths(); FromLELE(v, 4); }
  lemma U64OfLE(v: u64) ensures U64(LE(v, 8)) == v { Widths(); FromLELE(v, 8); }

  /** `to_be` on a little-endian host: the integer whose memory image is `v` big-endian. */
  function ToBe16(v: u16): u16 { U16(Bitfield.BytesOf(v, 2)) }
  function ToBe32(v: u32): u32 { U32(Bitfield.BytesOf(v, 4)) }
  function ToBe64(v: u64): u64 { U64(Bitfield.BytesOf(v, 8)) }

  // ---- Structures ----

  datatype NodeInfo = NodeInfo(
    baseVersion: byte, classVersion: byte, nodeType: byte, nports: byte,
    systemGuid: u64, nodeGuid: u64, portGuid: u64,
    partitionCap: u16, deviceId: u16, revision: u32,
    localPort: byte, vendorId: seq<byte>, reserved: seq<byte>)
  {
    predicate Valid() { |vendorId| == 3 && |reserved| == 24 }

    function ToBytes(): (s: seq<byte>)
      requires Valid()
      ensures |s| == 64
    {
      [baseVersion, classVersion, nodeType, nports]
      + LE(systemGuid, 8) + LE(nodeGuid, 8) + LE(portGuid, 8)
      + LE(partitionCap, 2) + LE(deviceId, 2) + LE(revision, 4)
      + [localPort] + vendorId + reserved
    }
  }

  function NodeInfoFromBytes(b: seq<byte>): (r: Option<NodeInfo>)
    ensures r.Some? <==> |b| >= 64
    ensures r.Some? ==> r.value.Valid()
  {
    if |b| < 64 then None
    else Some(NodeInfo(b[0], b[1], b[2], b[3], U64(b[4..12]), U64(b[12..20]), U64(b[20..28]),
                       U16(b[28..30]), U16(b[30..32]), U32(b[32..36]), b[36], b[37..40], b[40..64]))
  }

  lemma NodeInfoRoundTrip(ni: NodeInfo)
    requires ni.Valid()
    ensures NodeInfoFromBytes(ni.ToBytes()) == Some(ni)
  {
    U64OfLE(ni.systemGuid);
    U64OfLE(ni.nodeGuid);
    U64OfLE(ni.portGuid);
    U16OfLE(ni.partitionCap);
    U16OfLE(ni.deviceId);
    U32OfLE(ni.revision);
    NodeInfoSlices(ni);
  }

  /** Parsing takes the first 64 bytes, and serialising gives them back. */
  lemma NodeInfoWriteBack(b: seq<byte>)
    requires |b| >= 64
    ensures NodeInfoFromBytes(b).value.ToBytes() == b[..64]
  {
    hide LE, U16, U32, U64;
    U64Back(b[4..12]);
    U64Back(b[12..20]);
    U64Back(b[20..28]);
    U16Back(b[28..30]);
    U16Back(b[30..32]);
    U32Back(b[32..36]);
    assert b[..64] == [b[0], b[1], b[2], b[3]] + b[4..12] + b[12..20] + b[20..28] + b[28..30] + b[30..32]
             + b[32..36] + [b[36]] + b[37..40] + b[40..64];
  }

  lemma NodeInfoSlices(ni: NodeInfo)
    requires ni.Valid()
    ensures var b := ni.ToBytes();
            && b[0] == ni.baseVersion && b[1] == ni.classVersion && b[2] == ni.nodeType && b[3] == ni.nports
            && b[4..12] == LE(ni.systemGuid, 8) && b[12..20] == LE(ni.nodeGuid, 8)
            && b[20..28] == LE(ni.portGuid, 8) && b[28..30] == LE(ni.partitionCap, 2)
            && b[30..32] == LE(ni.deviceId, 2) && b[32..36] == LE(ni.revision, 4)
            && b[36] == ni.localPort && b[37..40] == ni.vendorId && b[40..64] == ni.reserved
  {
    hide LE;
    var versions := [ni.baseVersion, ni.classVersion, ni.nodeType, ni.nports];
    var guids := LE(ni.systemGuid, 8) + LE(ni.nodeGuid, 8) + LE(ni.portGuid, 8);
    var ids := LE(ni.partitionCap, 2) + LE(ni.deviceId, 2) + LE(ni.revision, 4);
    var tail := [ni.localPort] + ni.vendorId + ni.reserved;
    var b := ni.ToBytes();
    assert b == versions + guids + ids + tail;
    assert b[4..28] == guids && b[28..36] == ids && b[36..64] == tail;
    assert b[4..12] == guids[0..8] && b[12..20] == guids[8..16] && b[20..28] == guids[16..24];
    assert b[28..30] == ids[0..2] && b[30..32] == ids[2..4] && b[32..36] == ids[4..8];
    assert b[37..40] == tail[1..4] && b[40..64] == tail[4..28];
  }

  /** A 64-byte directed-route path: the hops, from index 0 or 1, then zeros. */
  type Path = p: seq<byte> | |p| == 64 witness Zeros(64)

  datatype DrSmpMad = DrSmpMad(
    mKey: u64, drslid: u16, drdlid: u16, reserved: seq<byte>,
    attrLayout: seq<byte>, initialPath: Path, returnPath: Path)
  {
    predicate Valid() { |reserved| == 28 && |attrLayout| == 64 }

    function ToBytes(): (s: seq<byte>)
      requires Valid()
      ensures |s| == 232
    {
      LE(mKey, 8) + LE(drslid, 2) + LE(drdlid, 2) + reserved + attrLayout + initialPath + returnPath
    }
  }

  function DrSmpFromBytes(b: seq<byte>): (r: Option<DrSmpMad>)
    ensures r.Some? <==> |b| >= 232
    ensures r.Some? ==> r.value.Valid()
  {
    if |b| < 232 then None
    else Some(DrSmpMad(U64(b[0..8]), U16(b[8..10]), U16(b[10..12]), b[12..40],
                       b[40..104], b[104..168], b[168..232]))
  }

  datatype IbMad = IbMad(
    baseVersion: byte, mgmtClass: byte, classVersion: byte, method_: byte, status: u16,
    hopPtr: byte, hopCnt: byte, tid: u64, attrId: u16, additionalStatus: u16, attrMod: u32,
    data: seq<byte>)
  {
    predicate Valid() { |data| == 232 }

    function ToBytes(): (s: seq<byte>)
      requires Valid()
      ensures |s| == 256
    {
      [baseVersion, mgmtClass, classVersion, method_] + LE(status, 2) + [hopPtr, hopCnt]
      + LE(tid, 8) + LE(attrId, 2) + LE(additionalStatus, 2) + LE(attrMod, 4) + data
    }
  }

  function IbMadFromBytes(b: seq<byte>): (r: Option<IbMad>)
    ensures r.Some? <==> |b| >= 256
    ensures r.Some? ==> r.value.Valid()
  {
    if |b| < 256 then None
    else Some(IbMad(b[0], b[1], b[2], b[3], U16(b[4..6]), b[6], b[7], U64(b[8..16]),
                    U16(b[16..18]), U16(b[18..20]), U32(b[20..24]), b[24..256]))
  }

  /** `addr` is the 44-byte `ib_mad_addr` block, which no modelled code looks into. */
  datatype IbUserMad = IbUserMad(
    agentId: u32, status: u32, timeoutMs: u32, retries: u32, length: u32, addr: seq<byte>, data: seq<byte>)
  {
    predicate Valid() { |addr| == 44 && |data| == 256 }

    function ToBytes(): (s: seq<byte>)
      requires Valid()
      ensures |s| == 320
    {
      LE(agentId, 4) + LE(status, 4) + LE(timeoutMs, 4) + LE(retries, 4) + LE(length, 4) + addr + data
    }
  }

  function IbUserMadFromBytes(b: seq<byte>): (r: Option<IbUserMad>)
    ensures r.Some? <==> |b| >= 320
    ensures r.Some? ==> r.value.Valid()
  {
    if |b| < 320 then None
    else Some(IbUserMad(U32(b[0..4]), U32(b[4..8]), U32(b[8..12]), U32(b[12..16]), U32(b[16..20]),
                        b[20..64], b[64..320]))
  }

  // ---- Parsing then writing back gives the bytes parsed ----

  lemma DrSmpWriteBack(b: seq<byte>)
    requires |b| >= 232
    ensures DrSmpFromBytes(b).value.ToBytes() == b[..232]
  {
    hide LE, U16, U32, U64;
    U64Back(b[0..8]);
    U16Back(b[8..10]);
    U16Back(b[10..12]);
    assert b[..232] == b[0..8] + b[8..10] + b[10..12] + b[12..40] + b[40..104] + b[104..168] + b[168..232];
  }

  lemma IbMadWriteBack(b: seq<byte>)
    requires |b| >= 256
    ensures IbMadFromBytes(b).value.ToBytes() == b[..256]
  {
    hide LE, U16, U32, U64;
    U16Back(b[4..6]);
    U64Back(b[8..16]);
    U16Back(b[16..18]);
    U16Back(b[18..20]);
    U32Back(b[20..24]);
    assert b[..256] == [b[0], b[1], b[2], b[3]] + b[4..6] + [b[6], b[7]] + b[8..16] + b[16..18]
             + b[18..20] + b[20..24] + b[24..256];
  }

  lemma IbUserMadWriteBack(b: seq<byte>)
    requires |b| >= 320
    ensures IbUserMadFromBytes(b).value.ToBytes() == b[..320]
  {
    hide LE, U16, U32, U64;
    U32Back(b[0..4]);
    U32Back(b[4..8]);
    U32Back(b[8..12]);
    U32Back(b[12..16]);
    U32Back(b[16..20]);
    assert b[..320] == b[0..4] + b[4..8] + b[8..12] + b[12..16] + b[16..20] + b[20..64] + b[64..320];
  }

  /** Where the parts of a MAD are. */
  lemma IbMadSlices(m: IbMad)
    requires m.Valid()
    ensures var b := m.ToBytes();
            && b[0] == m.baseVersion && b[1] == m.mgmtClass && b[2] == m.classVersion && b[3] == m.method_
            && b[4..6] == LE(m.status, 2) && b[6] == m.hopPtr && b[7] == m.hopCnt && b[8..16] == LE(m.tid, 8)
            && b[16..18] == LE(m.attrId, 2) && b[18..20] == LE(m.additionalStatus, 2) && b[20..24] == LE(m.attrMod, 4)
            && b[24..256] == m.data
  {
    hide LE;
    var head := [m.baseVersion, m.mgmtClass, m.classVersion, m.method_] + LE(m.status, 2) + [m.hopPtr, m.hopCnt];
    var attr := LE(m.attrId, 2) + LE(m.additionalStatus, 2) + LE(m.attrMod, 4);
    var b := m.ToBytes();
    assert b == head + LE(m.tid, 8) + attr + m.data;
    assert b[..8] == head && b[16..24] == attr;
    assert b[4..6] == head[4..6] && head[6] == m.hopPtr && head[7] == m.hopCnt;
    assert b[16..18] == attr[0..2] && b[18..20] == attr[2..4] && b[20..24] == attr[4..8];
  }

  /** Where the parts of a user MAD are. */
  lemma IbUserMadSlices(u: IbUserMad)
    requires u.Valid()
    ensures var b := u.ToBytes();
            && b[0..4] == LE(u.agentId, 4) && b[4..8] == LE(u.status, 4) && b[8..12] == LE(u.timeoutMs, 4)
            && b[12..16] == LE(u.retries, 4) && b[16..20] == LE(u.length, 4) && b[20..64] == u.addr
            && b[64..320] == u.data
  {
    hide LE;
  }

  // ---- Requests ----

  datatype SmiAttr = NodeDesc | NodeInfoAttr | PortInfoAttr

  function AttrId(a: SmiAttr): u16 {
    match a
    case NodeDesc => 0x10
    case NodeInfoAttr => 0x11
    case PortInfoAttr => 0x15
  }

  /** What one directed-route Get asks: which attribute of the node a path leads to. */
  datatype Query = Query(path: Path, attr: SmiAttr, modifier: u32)

  const IB_DEFAULT_QKEY: u32 := 0x80010000

  function BuildUmad(agentId: u32, timeout: u32, retries: u32): (u: IbUserMad)
    ensures u.Valid()
  {
    // qpn, qkey, lid, four zero bytes, hop_limit, and the rest of the address block
    var addr := Zeros(4) + Bitfield.BytesOf(IB_DEFAULT_QKEY, 4) + [0xff, 0xff] + Zeros(4) + [63] + Zeros(29);
    IbUserMad(agentId, 0, timeout, retries, 0, addr, Zeros(256))
  }

  function BuildMad(mgmtClass: byte, method_: byte, attr: SmiAttr, attrMod: u32, hopCnt: byte, tid: u64): (m: IbMad)
    ensures m.Valid()
  {
    IbMad(0x1, mgmtClass, 0x1, method_, 0, 0, hopCnt, ToBe64(tid % 0x1_0000_0000), ToBe16(AttrId(attr)), 0,
          ToBe32(attrMod), Zeros(232))
  }

  function BuildDrSmp(path: Path): (d: DrSmpMad)
    ensures d.Valid()
  {
    DrSmpMad(0, 0xffff, 0xffff, Zeros(28), Zeros(64), path, Zeros(64))
  }

  const DIRECTED_ROUTE: byte := 0x81
  const METHOD_GET: byte := 0x1

  function BuildDrSmpUmad(q: Query, hopCnt: byte, tid: u64, agentId: u32, timeout: u32, retries: u32): (u: IbUserMad)
    ensures u.Valid()
  {
    var drBytes := BuildDrSmp(q.path).ToBytes();
    var mad := BuildMad(DIRECTED_ROUTE, METHOD_GET, q.attr, q.modifier, hopCnt, tid);
    var madBytes := mad.(data := drBytes + mad.data[|drBytes|..]).ToBytes();
    var umad := BuildUmad(agentId, timeout, retries);
    umad.(data := madBytes + umad.data[|madBytes|..])
  }

  /** `get_tid`: the transaction id, big-endian at bytes 8..16 of the MAD. */
  function GetTid(u: IbUserMad): nat
    requires u.Valid()
  {
    Bitfield.BigEndian(u.data[8..16])
  }

  /** `is_tid_equal`: the kernel owns the upper half of the id, so only the lower half is compared. */
  predicate IsTidEqual(a: IbUserMad, b: IbUserMad)
    requires a.Valid() && b.Valid()
  {
    GetTid(a) % 0x1_0000_0000 == GetTid(b) % 0x1_0000_0000
  }

  /** The attribute area of the directed-route MAD: bytes 64..128 of the user MAD's data. */
  function AttrArea(u: IbUserMad): seq<byte>
    requires u.Valid()
  {
    u.data[64..128]
  }

  // ---- What a receiver parses from a request ----

  lemma {:induction false} BigEndianOfBytesOf(v: nat, n: nat)
    requires v < Pow2(8 * n)
    ensures Bitfield.BigEndian(Bitfield.BytesOf(v, n)) == v
  {
    if n > 0 {
      Pow2Add(8, 8 * (n - 1));
      Pow2Values();
      assert v / 0x100 < Pow2(8 * (n - 1));
      BigEndianOfBytesOf(v / 0x100, n - 1);
    }
  }

  /** The two memory images of an integer are each other's reverse. */
  lemma {:induction false} ImagesReversed(v: nat, n: nat, k: nat)
    requires k < n
    ensures LE(v, n)[k] == Bitfield.BytesOf(v, n)[n - 1 - k]
  {
    if k > 0 { ImagesReversed(v / 0x100, n - 1, k - 1); }
  }

  /** `to_be` undoes itself. */
  lemma SwapTwice(v: u32)
    ensures ToBe32(ToBe32(v)) == v
  {
    var w := ToBe32(v);
    LEFromLE(Bitfield.BytesOf(v, 4));
    forall k | 0 <= k < 4 ensures Bitfield.BytesOf(w, 4)[k] == LE(v, 4)[k] {
      ImagesReversed(w, 4, 3 - k);
      ImagesReversed(v, 4, k);
    }
    assert Bitfield.BytesOf(w, 4) == LE(v, 4);
    U32OfLE(v);
  }

  lemma WireAttrIds()
    ensures ToBe16(0x10) == 0x1000 && ToBe16(0x11) == 0x1100 && ToBe16(0x15) == 0x1500
  {
    assert Bitfield.BytesOf(0x10, 2) == [0, 0x10];
    assert Bitfield.BytesOf(0x11, 2) == [0, 0x11];
    assert Bitfield.BytesOf(0x15, 2) == [0, 0x15];
  }

  /** The wire image of a swapped value is the value big-endian. */
  lemma WireImages(attr: u16, mod: u32, tid: u64)
    ensures LE(ToBe16(attr), 2) == Bitfield.BytesOf(attr, 2)
    ensures LE(ToBe32(mod), 4) == Bitfield.BytesOf(mod, 4)
    ensures LE(ToBe64(tid), 8) == Bitfield.BytesOf(tid, 8)
  {
    LEFromLE(Bitfield.BytesOf(attr, 2));
    LEFromLE(Bitfield.BytesOf(mod, 4));
    LEFromLE(Bitfield.BytesOf(tid, 8));
  }
}
