/**
 A query end to end: `build_dr_smp_umad` in src/discovery/lib.rs, the simulator's parsing and
 `send_dr_response` in src/sim/mod.rs, and the client's decoding of the reply.
 */
module RoundTrip {
  import opened Prelude
  import opened MadLayout
  import opened Simulator
  import Bitfield

  // ---- The reply is the request with the attribute written over its attribute area ----

  function Overwrite(s: seq<byte>, at: nat, x: seq<byte>): (r: seq<byte>)
    requires at + |x| <= |s|
    ensures |r| == |s|
  {
    s[..at] + x + s[at + |x|..]
  }

  lemma DrOverwrite(b: seq<byte>, attr: seq<byte>)
    requires |b| == 232 && |attr| <= 64
    ensures var dr := DrSmpFromBytes(b).value;
            dr.(attrLayout := attr + dr.attrLayout[|attr|..]).ToBytes() == Overwrite(b, 40, attr)
  {
    DrSmpWriteBack(b);
    assert b[..232] == b;
    LEFromLE(b[0..8]);
    LEFromLE(b[8..10]);
    LEFromLE(b[10..12]);
    assert b[..40] == b[0..8] + b[8..10] + b[10..12] + b[12..40];
    assert b[40 + |attr|..] == b[40..104][|attr|..] + b[104..168] + b[168..232];
  }

  lemma MadOverwrite(b: seq<byte>, data: seq<byte>)
    requires |b| == 256 && |data| == 232
    ensures IbMadFromBytes(b).value.(data := data).ToBytes() == b[..24] + data
  {
    IbMadWriteBack(b);
    assert b[..256] == b;
    var m := IbMadFromBytes(b).value;
    SameHeader(m, m.(data := data));
  }

  lemma SameHeader(m: IbMad, n: IbMad)
    requires m.Valid() && n.Valid() && n == m.(data := n.data)
    ensures n.ToBytes() == m.ToBytes()[..24] + n.data
  {
  }

  lemma DataOfUmadBytes(u: IbUserMad)
    requires u.Valid()
    ensures IbUserMadFromBytes(u.ToBytes()).value.data == u.data
  {
  }

  /** Whatever the request, the reply differs from it only in the attribute area. */
  lemma ReplyData(request: seq<byte>, attr: seq<byte>)
    requires |request| == 320 && |attr| <= 64
    ensures var umad := IbUserMadFromBytes(request).value;
            var mad := IbMadFromBytes(umad.data).value;
            var reply := SendDrResponse(umad, mad, DrSmpFromBytes(mad.data).value, attr);
            IbUserMadFromBytes(reply).value.data == Overwrite(umad.data, 64, attr)
  {
    var umad := IbUserMadFromBytes(request).value;
    var b := umad.data;
    var mad := IbMadFromBytes(b).value;
    var dr := DrSmpFromBytes(mad.data).value;
    DrOverwrite(mad.data, attr);
    var drBytes := dr.(attrLayout := attr + dr.attrLayout[|attr|..]).ToBytes();
    assert drBytes + mad.data[|drBytes|..] == drBytes;
    MadOverwrite(b, drBytes);
    var madBytes := mad.(data := drBytes).ToBytes();
    assert madBytes + b[|madBytes|..] == madBytes;
    DataOfUmadBytes(umad.(data := madBytes));
    OverwriteInside(b, attr);
  }

  lemma OverwriteInside(b: seq<byte>, attr: seq<byte>)
    requires |b| == 256 && |attr| <= 64
    ensures b[..24] + Overwrite(b[24..256], 40, attr) == Overwrite(b, 64, attr)
  {
  }

  // ---- What the simulator parses from a built request ----

  lemma BuiltDr(path: Path)
    ensures var b := BuildDrSmp(path).ToBytes();
            DrSmpFromBytes(b).value.initialPath == path && b[40..104] == Zeros(64)
  {
  }

  lemma BuiltUmad(q: Query, hopCnt: byte, tid: u64, agentId: u32, timeout: u32, retries: u32)
    ensures var u := BuildDrSmpUmad(q, hopCnt, tid, agentId, timeout, retries);
            var m := BuildMad(DIRECTED_ROUTE, METHOD_GET, q.attr, q.modifier, hopCnt, tid);
            u.data == m.(data := BuildDrSmp(q.path).ToBytes()).ToBytes()
  {
    var m := BuildMad(DIRECTED_ROUTE, METHOD_GET, q.attr, q.modifier, hopCnt, tid);
    var drBytes := BuildDrSmp(q.path).ToBytes();
    assert drBytes + m.data[|drBytes|..] == drBytes;
    var madBytes := m.(data := drBytes).ToBytes();
    assert madBytes + BuildUmad(agentId, timeout, retries).data[|madBytes|..] == madBytes;
  }

  /** The fields the simulator reads from a built request. */
  lemma ParsedRequest(q: Query, hopCnt: byte, tid: u64, agentId: u32, timeout: u32, retries: u32)
    ensures var data := BuildDrSmpUmad(q, hopCnt, tid, agentId, timeout, retries).data;
            var mad := IbMadFromBytes(data).value;
            var dr := DrSmpFromBytes(mad.data).value;
            && mad.mgmtClass == DIRECTED_ROUTE && dr.initialPath == q.path
            && mad.attrId == ToBe16(AttrId(q.attr)) && mad.attrMod == ToBe32(q.modifier)
            && data[0] == 1 && data[2] == 1 && data[3] == 1 && data[6] == 0 && data[7] == hopCnt
            && data[64..128] == Zeros(64) && data[128..192] == q.path
            && data[8..16] == Bitfield.BytesOf(tid % 0x1_0000_0000, 8)
  {
    var m := BuildMad(DIRECTED_ROUTE, METHOD_GET, q.attr, q.modifier, hopCnt, tid)
      .(data := BuildDrSmp(q.path).ToBytes());
    var b := m.ToBytes();
    BuiltUmad(q, hopCnt, tid, agentId, timeout, retries);
    IbMadSlices(m);
    BuiltDr(q.path);
    U16OfLE(m.attrId);
    U32OfLE(m.attrMod);
    WireImages(AttrId(q.attr), q.modifier, tid % 0x1_0000_0000);
    AreaOfMad(b, m.data);
  }

  /**
   Every other byte of a request: no status, no key, permissive source and destination LIDs, zeros where a
   reply will be; and around it the agent, the timeout and the retries, and the address block.
   */
  lemma RequestBytes(q: Query, hopCnt: byte, tid: u64, agentId: u32, timeout: u32, retries: u32)
    ensures var u := BuildDrSmpUmad(q, hopCnt, tid, agentId, timeout, retries);
            && u.data[4..6] == [0, 0] && u.data[16..18] == Bitfield.BytesOf(AttrId(q.attr), 2)
            && u.data[18..20] == [0, 0]
            && u.data[20..24] == Bitfield.BytesOf(q.modifier, 4) && u.data[24..32] == Zeros(8)
            && u.data[32..36] == [0xff, 0xff, 0xff, 0xff] && u.data[36..64] == Zeros(28)
            && u.data[192..256] == Zeros(64)
            && u.agentId == agentId && u.status == 0 && u.timeoutMs == timeout && u.retries == retries && u.length == 0
            && u.addr == Zeros(4) + [0x80, 0x01, 0, 0] + [0xff, 0xff] + Zeros(4) + [63] + Zeros(29)
  {
    var m := BuildMad(DIRECTED_ROUTE, METHOD_GET, q.attr, q.modifier, hopCnt, tid)
      .(data := BuildDrSmp(q.path).ToBytes());
    BuiltUmad(q, hopCnt, tid, agentId, timeout, retries);
    IbMadSlices(m);
    BuiltHead(q.path);
    SmallImages();
    WireImages(AttrId(q.attr), q.modifier, tid % 0x1_0000_0000);
    var b, dr := m.ToBytes(), m.data;
    assert b[24..256] == dr;
    assert b[24..32] == dr[0..8] && b[32..36] == dr[8..12] && b[36..64] == dr[12..40] && b[192..256] == dr[168..232];
  }

  lemma BuiltHead(path: Path)
    ensures var b := BuildDrSmp(path).ToBytes();
            && b[0..8] == LE(0, 8) && b[8..12] == LE(0xffff, 2) + LE(0xffff, 2)
            && b[12..40] == Zeros(28) && b[168..232] == Zeros(64)
  {
  }

  lemma SmallImages()
    ensures LE(0, 2) == [0, 0] && LE(0, 8) == Zeros(8) && LE(0xffff, 2) == [0xff, 0xff]
    ensures Bitfield.BytesOf(IB_DEFAULT_QKEY, 4) == [0x80, 0x01, 0, 0]
  {
    assert LE(0, 8) == [0] + LE(0, 7) && LE(0, 7) == [0] + LE(0, 6) && LE(0, 6) == [0] + LE(0, 5);
    assert LE(0, 5) == [0] + LE(0, 4) && LE(0, 4) == [0] + LE(0, 3) && LE(0, 3) == [0] + LE(0, 2);
  }

  lemma AreaOfMad(b: seq<byte>, dr: seq<byte>)
    requires |b| == 256 && |dr| == 232 && b[24..256] == dr
    ensures b[64..128] == dr[40..104] && b[128..192] == dr[104..168]
  {
    assert forall k :: 0 <= k < 232 ==> dr[k] == b[24..256][k] == b[24 + k];
  }

  // ---- The round trip ----

  /**
   A built query put to the simulator comes back as the true answer, in the attribute area and
   padded with zeros, with its path and transaction id kept; or it comes back not at all, exactly
   when there is no true answer.
   */
  lemma QueryRoundTrip(f: Image, q: Query, hopCnt: byte, tid: u64, agentId: u32, timeout: u32, retries: u32)
    requires f.Valid()
    ensures var u := BuildDrSmpUmad(q, hopCnt, tid, agentId, timeout, retries);
            var answer := Answer(f, q);
            var reply := Respond(f, u.ToBytes());
            && (reply.Some? <==> answer.Ok?)
            && (reply.Some? ==>
                  var r := IbUserMadFromBytes(reply.value).value;
                  AttrArea(r) == answer.value && r.data[128..192] == q.path && r.data[16..18] == u.data[16..18]
                  && GetTid(r) == GetTid(u) == tid % 0x1_0000_0000)
  {
    var u := BuildDrSmpUmad(q, hopCnt, tid, agentId, timeout, retries);
    hide Resolve, PathHops, AttrBytes, AnswerAt, SendDrResponse, Overwrite, ToBe16, ToBe32, AttrId, PadTo64;
    var umad := IbUserMadFromBytes(u.ToBytes()).value;
    DataOfUmadBytes(u);
    ParsedRequest(q, hopCnt, tid, agentId, timeout, retries);
    var at := Resolve(f, PathHops(q.path));
    if at.Some? {
      AttrOfQuery(f, at.value, q);
      AttrFits(f, at.value, ToBe16(AttrId(q.attr)), ToBe32(q.modifier));
      var attr := AttrBytes(f, at.value, ToBe16(AttrId(q.attr)), ToBe32(q.modifier));
      if attr.Some? {
        ReplyData(u.ToBytes(), attr.value);
        OverwriteAreas(umad.data, attr.value);
        TidOnWire(tid % 0x1_0000_0000);
      }
    }
  }

  lemma AttrOfQuery(f: Image, e: End, q: Query)
    requires f.Valid() && e.node < |f.nodes|
    ensures var attr := AttrBytes(f, e, ToBe16(AttrId(q.attr)), ToBe32(q.modifier));
            var answer := AnswerAt(f, e, q.attr, q.modifier);
            && (attr.Some? <==> answer.Ok?)
            && (attr.Some? ==> |attr.value| <= 64 && PadTo64(attr.value) == answer.value)
  {
    WireAttrIds();
    SwapTwice(q.modifier);
    AttrFits(f, e, ToBe16(AttrId(q.attr)), ToBe32(q.modifier));
    assert forall s: seq<byte> {:trigger PadTo64(s)} :: |s| == 64 ==> PadTo64(s) == s;
  }

  lemma OverwriteAreas(data: seq<byte>, attr: seq<byte>)
    requires |data| == 256 && |attr| <= 64 && data[64..128] == Zeros(64)
    ensures var r := Overwrite(data, 64, attr);
            && r[64..128] == PadTo64(attr) && r[128..192] == data[128..192]
            && r[8..16] == data[8..16] && r[16..18] == data[16..18]
  {
    var r := Overwrite(data, 64, attr);
    var rest := data[64 + |attr|..128];
    assert rest == data[64..128][|attr|..];
    assert Zeros(64)[|attr|..] == Zeros(64 - |attr|);
    assert r == data[..64] + (attr + rest) + data[128..];
    assert r[64..128] == attr + rest;
    assert r[128..192] == data[128..192];
    HeaderKept(data, attr);
  }

  lemma HeaderKept(data: seq<byte>, attr: seq<byte>)
    requires |data| == 256 && |attr| <= 64
    ensures var r := Overwrite(data, 64, attr);
            r[8..16] == data[8..16] && r[16..18] == data[16..18]
  {
    var r := Overwrite(data, 64, attr);
    assert forall k :: 0 <= k < 64 ==> r[k] == data[k];
  }

  lemma TidOnWire(tid: u32)
    ensures Bitfield.BigEndian(Bitfield.BytesOf(tid, 8)) == tid
  {
    Widths();
    BigEndianOfBytesOf(tid, 8);
  }

  // ---- Node descriptions ----

  /** Drops the NUL bytes a text ends with. */
  function TrimNuls(s: seq<byte>): seq<byte> {
    if s != [] && s[|s| - 1] == 0 then TrimNuls(s[..|s| - 1]) else s
  }

  /** The text before the first NUL byte. */
  function UpToNul(s: seq<byte>): seq<byte> {
    if s == [] || s[0] == 0 then [] else [s[0]] + UpToNul(s[1..])
  }

  /** The decoding in `fetch_node_desc`, on the bytes of the text. */
  function DecodeDesc(area: seq<byte>): seq<byte> {
    UpToNul(TrimNuls(area))
  }

  lemma {:induction false} TrimPadding(s: seq<byte>, n: nat)
    requires 0 !in s
    ensures TrimNuls(s + Zeros(n)) == s
  {
    var t := s + Zeros(n);
    if n == 0 {
      assert t == s;
    } else {
      assert t[..|t| - 1] == s + Zeros(n - 1);
      TrimPadding(s, n - 1);
    }
  }

  lemma {:induction false} UpToNulWhole(s: seq<byte>)
    requires 0 !in s
    ensures UpToNul(s) == s
  {
    if s != [] { UpToNulWhole(s[1..]); }
  }

  /** Any NUL-free description that fits is recovered exactly. */
  lemma DescriptionRecovered(f: Image, q: Query, e: End)
    requires f.Valid() && q.attr == NodeDesc && Resolve(f, PathHops(q.path)) == Some(e)
    requires 0 !in f.nodes[e.node].description
    ensures Answer(f, q).Ok? && DecodeDesc(Answer(f, q).value) == f.nodes[e.node].description
  {
    hide Resolve, PathHops, AttrBytes;
    var d := f.nodes[e.node].description;
    TrimPadding(d, 64 - |d|);
    UpToNulWhole(d);
  }

  /** Of any 64 bytes the description read is what comes before the first NUL, or all of them if there is none. */
  lemma DescToFirstNul(area: seq<byte>)
    ensures var d := DecodeDesc(area); d <= area && 0 !in d && (|d| < |area| ==> area[|d|] == 0)
  {
    TrimmedBefore(area);
    BeforeNul(TrimNuls(area));
  }

  lemma {:induction false} TrimmedBefore(s: seq<byte>)
    ensures TrimNuls(s) <= s && (|TrimNuls(s)| < |s| ==> s[|TrimNuls(s)|] == 0)
  {
    if s != [] && s[|s| - 1] == 0 { TrimmedBefore(s[..|s| - 1]); }
  }

  lemma {:induction false} BeforeNul(s: seq<byte>)
    ensures UpToNul(s) <= s && 0 !in UpToNul(s) && (|UpToNul(s)| < |s| ==> s[|UpToNul(s)|] == 0)
  {
    if s != [] && s[0] != 0 { BeforeNul(s[1..]); }
  }
}
