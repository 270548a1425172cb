/**
 The PortInfo attribute of src/mad/port.rs: 64 bytes read and written through a table of bitfields.
 */
module PortInfo {
  import opened Prelude
  import opened Bitfield

  datatype PortField =
    | MKey
    | GidPrefix
    | Lid
    | MasterSmLid
    | CapabilityMask
    | DiagCode
    | MKeyLeasePeriod
    | LocalPortnum
    | LinkWidthEnabled
    | LinkWidthSupported
    | LinkWidthActive
    | LinkSpeedSupported
    | PortState
    | PortPhysicalState
    | LinkDownDefaultState
    | MKeyProtectBits
    | MKeyProtectBitsExt
    | Lmc
    | LinkSpeedActive
    | LinkSpeedEnabled
    | NeighborMtu
    | MasterSmSl
    | VlCap
    | InitType
    | VlHighLimit
    | VlArbitrationHighCap
    | VlArbitrationLowCap
    | InitTypeReply
    | MtuCap
    | VlStallCount
    | HoqLife
    | OperationalVls
    | PartitionEnforcementInbound
    | PartitionEnforcementOutbound
    | FilterRawInbound
    | FilterRawOutbound
    | MKeyViolations
    | PKeyViolations
    | QKeyViolations
    | GuidCap
    | ClientRegister
    | MulticastPkeyTrapSuppression
    | SubnetTimeout
    | PartitionTop
    | EnhancedQosArbiterEnabled
    | RespTimeValue
    | LocalPhyErrors
    | OverrunErrors
    | MaxCreditHint
    | LinkRoundTripLatency
    | CapabilityMask2
    | LinkSpeedExtActive
    | LinkSpeedExtSupported
    | LinkSpeedExtEnabled

  /** Bit offset of each field. */
  function Offset(f: PortField): nat {
    match f
    case MKey => 0
    case GidPrefix => 64
    case Lid => 128
    case MasterSmLid => 144
    case CapabilityMask => 160
    case DiagCode => 192
    case MKeyLeasePeriod => 208
    case LocalPortnum => 224
    case LinkWidthEnabled => 232
    case LinkWidthSupported => 240
    case LinkWidthActive => 248
    case LinkSpeedSupported => 256
    case PortState => 260
    case PortPhysicalState => 264
    case LinkDownDefaultState => 268
    case MKeyProtectBits => 272
    case MKeyProtectBitsExt => 274
    case Lmc => 277
    case LinkSpeedActive => 280
    case LinkSpeedEnabled => 284
    case NeighborMtu => 288
    case MasterSmSl => 292
    case VlCap => 296
    case InitType => 300
    case VlHighLimit => 304
    case VlArbitrationHighCap => 312
    case VlArbitrationLowCap => 320
    case InitTypeReply => 328
    case MtuCap => 332
    case VlStallCount => 336
    case HoqLife => 339
    case OperationalVls => 344
    case PartitionEnforcementInbound => 348
    case PartitionEnforcementOutbound => 349
    case FilterRawInbound => 350
    case FilterRawOutbound => 351
    case MKeyViolations => 352
    case PKeyViolations => 368
    case QKeyViolations => 384
    case GuidCap => 400
    case ClientRegister => 408
    case MulticastPkeyTrapSuppression => 409
    case SubnetTimeout => 411
    case PartitionTop => 416
    case EnhancedQosArbiterEnabled => 417
    case RespTimeValue => 419
    case LocalPhyErrors => 424
    case OverrunErrors => 428
    case MaxCreditHint => 432
    case LinkRoundTripLatency => 456
    case CapabilityMask2 => 480
    case LinkSpeedExtActive => 496
    case LinkSpeedExtSupported => 500
    case LinkSpeedExtEnabled => 504
  }

  /** Width of each field in bits. */
  function Width(f: PortField): (w: nat)
    ensures 1 <= w <= 64
  {
    match f
    case MKey => 64
    case GidPrefix => 64
    case Lid => 16
    case MasterSmLid => 16
    case CapabilityMask => 32
    case DiagCode => 16
    case MKeyLeasePeriod => 16
    case LocalPortnum => 8
    case LinkWidthEnabled => 8
    case LinkWidthSupported => 8
    case LinkWidthActive => 8
    case LinkSpeedSupported => 4
    case PortState => 4
    case PortPhysicalState => 4
    case LinkDownDefaultState => 4
    case MKeyProtectBits => 2
    case MKeyProtectBitsExt => 3
    case Lmc => 3
    case LinkSpeedActive => 4
    case LinkSpeedEnabled => 4
    case NeighborMtu => 4
    case MasterSmSl => 4
    case VlCap => 4
    case InitType => 4
    case VlHighLimit => 8
    case VlArbitrationHighCap => 8
    case VlArbitrationLowCap => 8
    case InitTypeReply => 4
    case MtuCap => 4
    case VlStallCount => 3
    case HoqLife => 5
    case OperationalVls => 4
    case PartitionEnforcementInbound => 1
    case PartitionEnforcementOutbound => 1
    case FilterRawInbound => 1
    case FilterRawOutbound => 1
    case MKeyViolations => 16
    case PKeyViolations => 16
    case QKeyViolations => 16
    case GuidCap => 8
    case ClientRegister => 1
    case MulticastPkeyTrapSuppression => 2
    case SubnetTimeout => 5
    case PartitionTop => 2
    case EnhancedQosArbiterEnabled => 1
    case RespTimeValue => 5
    case LocalPhyErrors => 4
    case OverrunErrors => 4
    case MaxCreditHint => 16
    case LinkRoundTripLatency => 24
    case CapabilityMask2 => 16
    case LinkSpeedExtActive => 4
    case LinkSpeedExtSupported => 4
    case LinkSpeedExtEnabled => 5
  }

  /** Width of the Rust integer type its accessors use. */
  function TypeWidth(f: PortField): nat {
    match f
    case MKey | GidPrefix => 64
    case CapabilityMask | LinkRoundTripLatency => 32
    case Lid | MasterSmLid | DiagCode | MKeyLeasePeriod | MKeyViolations => 16
    case PKeyViolations | QKeyViolations | MaxCreditHint | CapabilityMask2 => 16
    case _ => 8
  }

  /** The field a bit of the attribute belongs to, where there is one; of the two at bit 417, the wider. */
  function Owner(bit: nat): PortField {
    if bit < 320 then
      if bit < 264 then
        if bit < 208 then
          if bit < 144 then
            if bit < 64 then
              MKey
            else
              if bit < 128 then GidPrefix else Lid
          else
            if bit < 160 then
              MasterSmLid
            else
              if bit < 192 then CapabilityMask else DiagCode
        else
          if bit < 240 then
            if bit < 224 then
              MKeyLeasePeriod
            else
              if bit < 232 then LocalPortnum else LinkWidthEnabled
          else
            if bit < 256 then
              if bit < 248 then LinkWidthSupported else LinkWidthActive
            else
              if bit < 260 then LinkSpeedSupported else PortState
      else
        if bit < 284 then
          if bit < 274 then
            if bit < 268 then
              PortPhysicalState
            else
              if bit < 272 then LinkDownDefaultState else MKeyProtectBits
          else
            if bit < 277 then
              MKeyProtectBitsExt
            else
              if bit < 280 then Lmc else LinkSpeedActive
        else
          if bit < 296 then
            if bit < 288 then
              LinkSpeedEnabled
            else
              if bit < 292 then NeighborMtu else MasterSmSl
          else
            if bit < 304 then
              if bit < 300 then VlCap else InitType
            else
              if bit < 312 then VlHighLimit else VlArbitrationHighCap
    else
      if bit < 400 then
        if bit < 348 then
          if bit < 336 then
            if bit < 328 then
              VlArbitrationLowCap
            else
              if bit < 332 then InitTypeReply else MtuCap
          else
            if bit < 339 then
              VlStallCount
            else
              if bit < 344 then HoqLife else OperationalVls
        else
          if bit < 351 then
            if bit < 349 then
              PartitionEnforcementInbound
            else
              if bit < 350 then PartitionEnforcementOutbound else FilterRawInbound
          else
            if bit < 368 then
              if bit < 352 then FilterRawOutbound else MKeyViolations
            else
              if bit < 384 then PKeyViolations else QKeyViolations
      else
        if bit < 428 then
          if bit < 411 then
            if bit < 408 then
              GuidCap
            else
              if bit < 409 then ClientRegister else MulticastPkeyTrapSuppression
          else
            if bit < 419 then
              if bit < 416 then SubnetTimeout else PartitionTop
            else
              if bit < 424 then RespTimeValue else LocalPhyErrors
        else
          if bit < 480 then
            if bit < 432 then
              OverrunErrors
            else
              if bit < 456 then MaxCreditHint else LinkRoundTripLatency
          else
            if bit < 500 then
              if bit < 496 then CapabilityMask2 else LinkSpeedExtActive
            else
              if bit < 504 then LinkSpeedExtSupported else LinkSpeedExtEnabled
  }

  const PORT_INFO_BYTES: nat := 64

  type Attribute = s: seq<byte> | |s| == PORT_INFO_BYTES witness Zeros(64)

  lemma FieldInRange(data: Attribute, f: PortField)
    ensures InRange(data, Offset(f), Width(f))
  {
  }

  /** What getter `f` returns on the 64 bytes. */
  function Get(data: Attribute, f: PortField): nat {
    FieldInRange(data, f);
    Field(data, Offset(f), Width(f))
  }

  /** The 64 bytes after setter `f` was called with `v`. */
  function Set(data: Attribute, f: PortField, v: u64): Attribute {
    FieldInRange(data, f);
    WithField(data, Offset(f), Width(f), v)
  }

  /** What a discovering client reads of the 64 bytes: the LID, the port number and the two states. */
  lemma ClientFields(data: Attribute)
    ensures Get(data, Lid) == 0x100 * data[16] as int + data[17] && Get(data, LocalPortnum) == data[28]
    ensures Get(data, PortState) == data[32] % 16 && Get(data, PortPhysicalState) == data[33] / 16
  {
    hide Field, Bits;
    WholeBytes(data, 16, 2);
    assert data[16..18] == [data[16]] + [data[17]] && [data[16], data[17]][..1] == [data[16]];
    WholeBytes(data, 28, 1);
    Nibbles(data, 32);
    Nibbles(data, 33);
  }

  /** A field of whole bytes is big-endian. */
  lemma WholeBytes(data: Attribute, i: nat, n: nat)
    requires i + n <= 64 && 1 <= n <= 8
    ensures Field(data, 8 * i, 8 * n) == BigEndian(data[i..i + n])
  {
    BitsOfStretch(data, i, i + n);
    assert Bits(data)[8 * i..8 * i + 8 * n] == Bits(data[i..i + n]);
    ValBits(data[i..i + n]);
  }

  /** The upper and the lower half of a byte. */
  lemma Nibbles(data: Attribute, i: nat)
    requires i < 64
    ensures Field(data, 8 * i, 4) == data[i] / 16 && Field(data, 8 * i + 4, 4) == data[i] % 16
  {
    hide Bits, BitsOf, Val;
    BitsOfStretch(data, i, i + 1);
    OneByte(data[i]);
    assert data[i..i + 1] == [data[i]];
    var b := Bits(data)[8 * i..8 * i + 8];
    assert b == BitsOf(data[i], 8);
    BitsOfSplit(data[i], 4, 4);
    assert Bits(data)[8 * i..8 * i + 4] == b[..4] == BitsOf(Shr(data[i], 4), 4);
    assert Bits(data)[8 * i + 4..8 * i + 8] == b[4..] == BitsOf(data[i], 4);
    ValBitsOf(Shr(data[i], 4), 4);
    ValBitsOf(data[i], 4);
    LowIsMod(data[i], 4);
    LowIsMod(Shr(data[i], 4), 4);
    HalfByte(data[i]);
  }

  lemma OneByte(b: byte)
    ensures Bits([b]) == BitsOf(b, 8)
  {
    assert [b][..0] == [];
  }

  lemma HalfByte(b: byte)
    ensures Pow2(4) == 16 && Shr(b, 4) == b / 16 && b / 16 % 16 == b / 16
  {
    assert Shr(b, 4) == Shr(b / 2, 3) == Shr(b / 2 / 2, 2) == Shr(b / 2 / 2 / 2, 1) == b / 2 / 2 / 2 / 2;
  }

  /** The one pair of fields that share a bit: bit 417. */
  predicate Aliased(f: PortField, g: PortField) {
    || (f == PartitionTop && g == EnhancedQosArbiterEnabled)
    || (g == PartitionTop && f == EnhancedQosArbiterEnabled)
  }

  lemma OwnsItsBits(f: PortField, bit: nat)
    requires f != EnhancedQosArbiterEnabled && Offset(f) <= bit < Offset(f) + Width(f)
    ensures Owner(bit) == f
  {
    if bit < 296 {
      OwnsLowBits(f, bit);
    } else if bit < 328 {
      OwnsCentreBits(f, bit);
    } else if bit < 349 {
      OwnsMiddleBits(f, bit);
    } else if bit < 408 {
      OwnsUpperBits(f, bit);
    } else {
      OwnsHighBits(f, bit);
    }
  }

  lemma OwnsLowBits(f: PortField, bit: nat)
    requires f != EnhancedQosArbiterEnabled && Offset(f) <= bit < Offset(f) + Width(f) && bit < 296
    ensures Owner(bit) == f
  {
  }

  lemma OwnsCentreBits(f: PortField, bit: nat)
    requires f != EnhancedQosArbiterEnabled && Offset(f) <= bit < Offset(f) + Width(f) && 296 <= bit < 328
    ensures Owner(bit) == f
  {
  }

  lemma OwnsMiddleBits(f: PortField, bit: nat)
    requires f != EnhancedQosArbiterEnabled && Offset(f) <= bit < Offset(f) + Width(f) && 328 <= bit < 349
    ensures Owner(bit) == f
  {
  }

  lemma OwnsUpperBits(f: PortField, bit: nat)
    requires f != EnhancedQosArbiterEnabled && Offset(f) <= bit < Offset(f) + Width(f) && 349 <= bit < 408
    ensures Owner(bit) == f
  {
  }

  lemma OwnsHighBits(f: PortField, bit: nat)
    requires f != EnhancedQosArbiterEnabled && Offset(f) <= bit < Offset(f) + Width(f) && 408 <= bit
    ensures Owner(bit) == f
  {
  }

  lemma SharedBit(f: PortField, g: PortField, bit: nat)
    requires Offset(f) <= bit < Offset(f) + Width(f) && Offset(g) <= bit < Offset(g) + Width(g)
    ensures f == g || Aliased(f, g)
  {
    if f != EnhancedQosArbiterEnabled { OwnsItsBits(f, bit); }
    if g != EnhancedQosArbiterEnabled { OwnsItsBits(g, bit); }
  }

  /** Fields share a bit only when they are one field or the aliased pair. */
  lemma FieldsDisjoint(f: PortField, g: PortField)
    requires f != g && !Aliased(f, g)
    ensures Disjoint(Offset(f), Width(f), Offset(g), Width(g))
  {
    hide Offset, Width;
    if !Disjoint(Offset(f), Width(f), Offset(g), Width(g)) {
      SharedBit(f, g, if Offset(f) <= Offset(g) then Offset(g) else Offset(f));
    }
  }

  // ---- The 64 bytes as a store of field values ----

  type Store = PortField -> nat

  /** The values all getters return. */
  function View(data: Attribute): Store {
    f => Get(data, f)
  }

  /**
   Assignment to one field of a store. Fields are independent, except that
   EnhancedQosArbiterEnabled is the low bit of PartitionTop.
   */
  function Assign(s: Store, f: PortField, v: u64, g: PortField): nat {
    if g == f then v % Pow2(Width(f))
    else if f == PartitionTop && g == EnhancedQosArbiterEnabled then v % 2
    else if f == EnhancedQosArbiterEnabled && g == PartitionTop then s(PartitionTop) / 2 * 2 + v % 2
    else s(g)
  }

  /** One setter call is one assignment, for every field. */
  lemma SetIsAssign(data: Attribute, f: PortField, v: u64, g: PortField)
    ensures Get(Set(data, f, v), g) == Assign(View(data), f, v, g)
  {
    if f == g {
      SetGets(data, f, v);
    } else if Aliased(f, g) {
      SetAliased(data, f, v, g);
    } else {
      SetUnaliased(data, f, v, g);
    }
  }

  lemma SetGets(data: Attribute, f: PortField, v: u64)
    ensures Get(Set(data, f, v), f) == Assign(View(data), f, v, f)
  {
    FieldInRange(data, f);
    GetSet(data, Offset(f), Width(f), v);
  }

  lemma SetGetsSmall(data: Attribute, f: PortField, v: u64)
    requires v < Pow2(Width(f))
    ensures Get(Set(data, f, v), f) == v
  {
    SetGets(data, f, v);
    SmallMod(v, Pow2(Width(f)));
  }

  lemma SetUnaliased(data: Attribute, f: PortField, v: u64, g: PortField)
    requires f != g && !Aliased(f, g)
    ensures Get(Set(data, f, v), g) == Assign(View(data), f, v, g)
  {
    SetKeeps(data, f, v, g);
  }

  /** A setter leaves every other field alone, but for the aliased pair. */
  lemma SetKeeps(data: Attribute, f: PortField, v: u64, g: PortField)
    requires f != g && !Aliased(f, g)
    ensures Get(Set(data, f, v), g) == Get(data, g)
  {
    hide Field, WithField, Offset, Width;
    FieldInRange(data, f);
    FieldInRange(data, g);
    FieldsDisjoint(f, g);
    GetOther(data, Offset(f), Width(f), v, Offset(g), Width(g));
  }

  lemma PairPlace()
    ensures Offset(EnhancedQosArbiterEnabled) == Offset(PartitionTop) + 1
    ensures Width(PartitionTop) == 2 && Width(EnhancedQosArbiterEnabled) == 1
  {
    hide Owner;
  }

  lemma SetAliased(data: Attribute, f: PortField, v: u64, g: PortField)
    requires Aliased(f, g)
    ensures Get(Set(data, f, v), g) == Assign(View(data), f, v, g)
  {
    hide Field, WithField, Pow2, Offset, Width;
    PairPlace();
    FieldInRange(data, f);
    FieldInRange(data, g);
    if f == PartitionTop {
      SetTwoBits(data, Offset(PartitionTop), v);
    } else {
      SetSecondBit(data, Offset(PartitionTop), v);
    }
  }

  /** EnhancedQosArbiterEnabled is the low bit of PartitionTop. */
  lemma LowBitOfTop(data: Attribute)
    ensures Get(data, PartitionTop) % 2 == Get(data, EnhancedQosArbiterEnabled) < 2
  {
    TwoBits(data, Offset(PartitionTop));
  }

  datatype Write = Write(field: PortField, value: u64)

  /** The bytes after a sequence of setter calls. */
  function Run(data: Attribute, log: seq<Write>): Attribute {
    if log == [] then data
    else Set(Run(data, log[..|log| - 1]), log[|log| - 1].field, log[|log| - 1].value)
  }

  /** The store after a sequence of assignments. */
  function RunStore(s: Store, log: seq<Write>, g: PortField): nat {
    if log == [] then s(g)
    else
      var w := log[|log| - 1];
      Assign(h => RunStore(s, log[..|log| - 1], h), w.field, w.value, g)
  }

  /** The value of the last assignment to `f`, or what was there before. */
  function LastWritten(initial: nat, log: seq<Write>, f: PortField): nat {
    if log == [] then initial
    else if log[|log| - 1].field == f then log[|log| - 1].value % Pow2(Width(f))
    else LastWritten(initial, log[..|log| - 1], f)
  }

  /** The bytes refine the store over every sequence of setter calls. */
  lemma {:induction false} BytesRefineStore(data: Attribute, log: seq<Write>, g: PortField)
    ensures Get(Run(data, log), g) == RunStore(View(data), log, g)
  {
    if log != [] {
      var before, w := log[..|log| - 1], log[|log| - 1];
      SetIsAssign(Run(data, before), w.field, w.value, g);
      BytesRefineStore(data, before, g);
      BytesRefineStore(data, before, PartitionTop);
    }
  }

  /** After any sequence of setter calls a getter returns its field's last value cut to its width. */
  lemma {:induction false} GetLastWritten(data: Attribute, log: seq<Write>, f: PortField)
    requires f != PartitionTop && f != EnhancedQosArbiterEnabled
    ensures Get(Run(data, log), f) == LastWritten(Get(data, f), log, f)
  {
    if log != [] {
      var before, w := log[..|log| - 1], log[|log| - 1];
      SetIsAssign(Run(data, before), w.field, w.value, f);
      GetLastWritten(data, before, f);
    }
  }

  /** The bit the aliased pair shares: what the last write to either of the two put there. */
  function LastShared(initial: nat, log: seq<Write>): nat {
    if log == [] then initial
    else
      var w := log[|log| - 1];
      if w.field == PartitionTop || w.field == EnhancedQosArbiterEnabled then w.value % 2
      else LastShared(initial, log[..|log| - 1])
  }

  /** After any sequence of setter calls the pair holds the last PartitionTop but for the shared bit. */
  lemma {:induction false} PairAfter(data: Attribute, log: seq<Write>)
    ensures var bit := LastShared(Get(data, EnhancedQosArbiterEnabled), log);
            && 0 <= bit < 2 && Get(Run(data, log), EnhancedQosArbiterEnabled) == bit
            && Get(Run(data, log), PartitionTop)
            == LastWritten(Get(data, PartitionTop), log, PartitionTop) / 2 * 2 + bit
  {
    hide Get, Set;
    if log == [] {
      LowBitOfTop(data);
    } else {
      var before, w := log[..|log| - 1], log[|log| - 1];
      PairAfter(data, before);
      PairStep(Run(data, before), w);
    }
  }

  /** One setter call, on the pair. */
  lemma PairStep(data: Attribute, w: Write)
    ensures var after := Set(data, w.field, w.value);
            match w.field
            case PartitionTop =>
              && Get(after, EnhancedQosArbiterEnabled) == w.value % 2
              && Get(after, PartitionTop) == w.value % 4 == w.value % Pow2(Width(PartitionTop))
              && w.value % 4 == w.value % 4 / 2 * 2 + w.value % 2
            case EnhancedQosArbiterEnabled =>
              && Get(after, EnhancedQosArbiterEnabled) == w.value % 2
              && Get(after, PartitionTop) == Get(data, PartitionTop) / 2 * 2 + w.value % 2
            case _ =>
              && Get(after, EnhancedQosArbiterEnabled) == Get(data, EnhancedQosArbiterEnabled)
              && Get(after, PartitionTop) == Get(data, PartitionTop)
  {
    hide Get, Set, Offset, Width, Pow2;
    PairWidths();
    LowBits(w.value);
    SetIsAssign(data, w.field, w.value, EnhancedQosArbiterEnabled);
    SetIsAssign(data, w.field, w.value, PartitionTop);
  }

  lemma PairWidths()
    ensures Pow2(Width(PartitionTop)) == 4 && Pow2(Width(EnhancedQosArbiterEnabled)) == 2
  {
    hide Pow2, Offset, Owner;
    Pow2Small();
  }

  lemma LowBits(v: nat)
    ensures v % 4 == v % 4 / 2 * 2 + v % 2
  {
    var low := v % 4;
    DivModUnique(2 * (v / 4) + low / 2, 2, low % 2);
  }

  /**
   So after a sequence of setter calls a getter of the pair returns the last value written to its field
   exactly when the last write to either of the two agrees with that value in the shared bit.
   */
  lemma PairLastWritten(data: Attribute, log: seq<Write>, f: PortField)
    requires f == PartitionTop || f == EnhancedQosArbiterEnabled
    ensures Get(Run(data, log), f) == LastWritten(Get(data, f), log, f)
       <==> LastShared(Get(data, EnhancedQosArbiterEnabled), log) == LastWritten(Get(data, f), log, f) % 2
  {
    hide Get, Run;
    PairAfter(data, log);
    if f == EnhancedQosArbiterEnabled { LastIsABit(data, log); }
  }

  lemma OneBit()
    ensures Pow2(Width(EnhancedQosArbiterEnabled)) == 2
  {
    hide Pow2, Offset, Owner;
    Pow2Small();
    assert Width(EnhancedQosArbiterEnabled) == 1;
  }

  lemma {:induction false} LastIsABit(data: Attribute, log: seq<Write>)
    ensures LastWritten(Get(data, EnhancedQosArbiterEnabled), log, EnhancedQosArbiterEnabled) < 2
  {
    hide Get, Width, Pow2;
    LowBitOfTop(data);
    OneBit();
    if log != [] { LastIsABit(data, log[..|log| - 1]); }
  }

  /** For example, clearing PartitionTop clears EnhancedQosArbiterEnabled. */
  lemma AliasedPairLosesWrite(data: Attribute)
    requires Get(data, EnhancedQosArbiterEnabled) == 1
    ensures Get(Set(data, PartitionTop, 0), EnhancedQosArbiterEnabled) == 0
  {
    SetAliased(data, PartitionTop, 0, EnhancedQosArbiterEnabled);
  }

  /** A write to `f` keeps the value of another field `g` exactly when it changes no bit they share. */
  lemma KeepsOther(data: Attribute, f: PortField, v: u64, g: PortField)
    requires f != g
    ensures Get(Set(data, f, v), g) == Get(data, g)
       <==> (Aliased(f, g) ==> v % 2 == Get(data, EnhancedQosArbiterEnabled))
  {
    if Aliased(f, g) {
      SetAliased(data, f, v, g);
      LowBitOfTop(data);
    } else {
      SetKeeps(data, f, v, g);
    }
  }

  // ---- The accessors themselves ----

  /** `port_info`: the buffer the setters update in place. */
  class PortInfoBuffer {
    const data: array<byte>

    constructor (bytes: Attribute)
      ensures data[..] == bytes && fresh(data)
    {
      data := new byte[64](i requires 0 <= i < 64 => bytes[i]);
    }

    /** `from_bytes` */
    static method FromBytes(bytes: seq<byte>) returns (r: Option<PortInfoBuffer>)
      ensures r.Some? <==> |bytes| >= 64
      ensures r.Some? ==> fresh(r.value) && fresh(r.value.data) && r.value.data[..] == bytes[..64]
    {
      if |bytes| < 64 { return None; }
      var buffer := new PortInfoBuffer(bytes[..64]);
      r := Some(buffer);
    }

    method Setter(f: PortField, val: u64)
      requires data.Length == 64 && val < Pow2(TypeWidth(f))
      modifies data
      ensures data[..] == Set(old(data[..]), f, val)
    {
      FieldInRange(data[..], f);
      SetBitfield(data, Offset(f), Width(f), val);
    }

    method Getter(f: PortField) returns (val: u64)
      requires data.Length == 64
      ensures val == Get(data[..], f) && val < Pow2(TypeWidth(f))
    {
      FieldInRange(data[..], f);
      val := GetBitfield(data[..], Offset(f), Width(f));
      GetFits(data[..], f);
    }
  }

  /** The cast to the accessor's integer type drops nothing. */
  lemma GetFits(data: Attribute, f: PortField)
    ensures Get(data, f) < Pow2(Width(f)) <= Pow2(TypeWidth(f))
  {
    hide Offset, Width, TypeWidth, Bits, Val, Pow2;
    FieldInRange(data, f);
    ValBound(Bits(data)[Offset(f)..Offset(f) + Width(f)]);
    WidthFits(f);
    Pow2Monotone(Width(f), TypeWidth(f));
  }

  lemma WidthFits(f: PortField)
    ensures Width(f) <= TypeWidth(f)
  {
  }
}
