/**
 * The integer-only sync structures: each has a Write that appends bits to
 * the stream and a Read that takes them back, and each Read after Write at
 * the same place gives back what was written, up to the truncation or
 * clamping the encoding performs.
 */
module SyncStructures {
  import opened Common
  import opened BitStream

  // ----- SIntegerSync -----

  /** SIntegerSync<type, bits>::Write for an unsigned `type`: the value kept by the `bits`-wide field. */
  function WriteInteger(value: nat, bits: nat): (bs: Bits)
    ensures |bs| == bits
  {
    WriteBits(Low(value, bits), bits)
  }

  function ReadInteger(r: Reader, bits: nat): (res: Option<(nat, Reader)>)
    ensures res.None? <==> r.pos + bits > |r.bits|
    ensures res.Some? ==> res.value.0 < Pow2(bits)
  {
    ReadBits(r, bits)
  }

  /** An integer comes back as its low `bits` bits, so unchanged when it fits. */
  lemma IntegerRoundTrip(r: Reader, value: nat, bits: nat)
    requires Holds(r, WriteInteger(value, bits))
    ensures ReadInteger(r, bits) == Some((Low(value, bits), Skip(r, bits)))
    ensures value < Pow2(bits) ==> ReadInteger(r, bits).value.0 == value
  {
    LowFits(Low(value, bits), bits);
    ReadWriteBits(r, Low(value, bits), bits);
    if value < Pow2(bits) {
      LowFits(value, bits);
    }
  }

  // ----- SBodypartSync -----

  /** Bodyparts run from 3 to 9; the three bits carry the bodypart minus 3, in unsigned arithmetic. */
  function WriteBodypart(bodypart: uint32): (bs: Bits)
    ensures |bs| == 3
  {
    WriteBits(ToUInt32(bodypart - 3), 3)
  }

  /**
   * SBodypartSync::Read: the three bits plus 3, or 0 with failure when the
   * stream runs out. The bits land in the low byte of the 32-bit field,
   * whose other bytes are taken to be zero.
   */
  function ReadBodypart(r: Reader): (res: (bool, uint32, Reader))
    ensures res.0 ==> 3 <= res.1 <= 10 && res.2 == Skip(r, 3)
    ensures !res.0 <==> r.pos + 3 > |r.bits|
    ensures !res.0 ==> res.1 == 0 && res.2 == r
  {
    match ReadBits(r, 3)
    case None => (false, 0, r)
    case Some((v, r')) => (true, v + 3, r')
  }

  lemma Low3(x: nat)
    ensures Low(x, 3) == x % 8
  {
    assert Low(x, 3) == x % 2 + 2 * ((x / 2) % 2) + 4 * ((x / 4) % 2) by {
      assert Low(x / 2, 2) == (x / 2) % 2 + 2 * Low(x / 4, 1);
      assert Low(x / 4, 1) == (x / 4) % 2 + 2 * Low(x / 8, 0);
    }
  }

  /** The three bits sent for a bodypart are the bodypart minus 3, modulo 8, even when the subtraction wraps. */
  lemma BodypartBits(bodypart: uint32)
    ensures Low(ToUInt32(bodypart - 3), 3) == (bodypart - 3) % 8
  {
    var sent := ToUInt32(bodypart - 3);
    Low3(sent);
    if bodypart == 0 {
      assert sent == 0xFFFF_FFFD && sent % 8 == 5;
    } else if bodypart == 1 {
      assert sent == 0xFFFF_FFFE && sent % 8 == 6;
    } else if bodypart == 2 {
      assert sent == 0xFFFF_FFFF && sent % 8 == 7;
    } else {
      assert sent == bodypart - 3;
    }
  }

  /** Every bodypart from 3 to 10 survives the trip; any other value comes back reduced modulo 8 into that range. */
  lemma BodypartRoundTrip(r: Reader, bodypart: uint32)
    requires Holds(r, WriteBodypart(bodypart))
    ensures ReadBodypart(r) == (true, (bodypart - 3) % 8 + 3, Skip(r, 3))
    ensures 3 <= bodypart <= 10 ==> ReadBodypart(r).1 == bodypart
  {
    var sent := ToUInt32(bodypart - 3);
    ReadWriteBits(r, sent, 3);
    BodypartBits(bodypart);
  }

  // ----- SEntityAlphaSync -----

  /**
   * The compressed byte encoding as the structure's own comment describes
   * it: a flag bit, and the full byte only when the value is not zero.
   */
  function WriteCompressedByte(v: uint8): (bs: Bits)
    ensures |bs| == if v == 0 then 1 else 9
  {
    if v == 0 then [true] else [false] + WriteByte(v)
  }

  function ReadCompressedByte(r: Reader): (res: Option<(uint8, Reader)>)
    ensures res.None? <==> r.pos >= |r.bits| || (!r.bits[r.pos] && r.pos + 9 > |r.bits|)
    ensures r.pos < |r.bits| && r.bits[r.pos] ==> res == Some((0, Skip(r, 1)))
    ensures r.pos < |r.bits| && !r.bits[r.pos] && res.Some? ==> res.value.1 == Skip(r, 9)
  {
    match ReadBitChecked(r)
    case None => None
    case Some((isZero, r1)) => if isZero then Some((0, r1)) else ReadByte(r1)
  }

  lemma CompressedByteRoundTrip(r: Reader, v: uint8)
    requires Holds(r, WriteCompressedByte(v))
    ensures ReadCompressedByte(r) == Some((v, Skip(r, |WriteCompressedByte(v)|)))
  {
    if v != 0 {
      HoldsSplit(r, [false], WriteByte(v));
      ReadWriteByte(Skip(r, 1), v);
    }
  }

  /** SEntityAlphaSync::Write sends the complement, so an opaque entity costs a single bit. */
  function WriteAlpha(alpha: uint8): (bs: Bits)
    ensures alpha == 255 <==> |bs| == 1
  {
    WriteCompressedByte(255 - alpha)
  }

  function ReadAlpha(r: Reader): (res: Option<(uint8, Reader)>)
    ensures res.None? <==> r.pos >= |r.bits| || (!r.bits[r.pos] && r.pos + 9 > |r.bits|)
    ensures r.pos < |r.bits| && r.bits[r.pos] ==> res == Some((255, Skip(r, 1)))
  {
    match ReadCompressedByte(r)
    case None => None
    case Some((v, r')) => Some((255 - v, r'))
  }

  /** Every alpha byte survives the trip. */
  lemma AlphaRoundTrip(r: Reader, alpha: uint8)
    requires Holds(r, WriteAlpha(alpha))
    ensures ReadAlpha(r) == Some((alpha, Skip(r, |WriteAlpha(alpha)|)))
  {
    CompressedByteRoundTrip(r, 255 - alpha);
  }

  // ----- SHeatHazeSync -----

  /** The C type a range field is held in. */
  datatype Width = UShort | Short

  /** Conversion of an `int` to the field's type (16-bit wrap, two's complement for `short`). */
  function Convert(width: Width, x: int): (r: int)
    ensures width == UShort && 0 <= x < 0x1_0000 ==> r == x
    ensures width == Short && -0x8000 <= x < 0x8000 ==> r == x
  {
    match width
    case UShort => x % 0x1_0000
    case Short => if x % 0x1_0000 < 0x8000 then x % 0x1_0000 else x % 0x1_0000 - 0x1_0000
  }

  /** The field's 16-bit pattern, whose low bits WriteBits sends. */
  function Pattern(x: int): nat
  {
    x % 0x1_0000
  }

  /** WriteRange: the value clamped into [low, hi], less low, in `bits` bits. */
  function WriteRange(value: int, bits: nat, low: int, hi: int, width: Width): (bs: Bits)
    requires low <= hi
    ensures |bs| == bits
  {
    WriteBits(Pattern(Convert(width, Clamp(low, value, hi) - low)), bits)
  }

  /**
   * ReadRange: the bits read (into a zeroed 16-bit field) plus low, clamped
   * into [low, hi]; fails only when the stream runs out.
   */
  function ReadRange(r: Reader, bits: nat, low: int, hi: int, width: Width): (res: Option<(int, Reader)>)
    requires low <= hi
    ensures res.Some? ==> low <= res.value.0 <= hi && res.value.1 == Skip(r, bits)
    ensures res.None? <==> r.pos + bits > |r.bits|
  {
    match ReadBits(r, bits)
    case None => None
    case Some((t, r')) => Some((Clamp(low, Convert(width, t + low), hi), r'))
  }

  /** The two range encodings the structure uses, and the type conversions they rely on. */
  predicate RangeFits(bits: nat, low: int, hi: int, width: Width)
  {
    && low <= hi && bits <= 15 && hi - low < Pow2(bits)
    && (width == UShort ==> 0 <= low && hi < 0x1_0000)
    && (width == Short ==> -0x8000 <= low && hi < 0x8000 && hi - low < 0x8000)
  }

  lemma RangeFitsHeatHaze()
    ensures RangeFits(10, 0, 1000, UShort)
    ensures RangeFits(11, -1000, 1000, Short)
  {
    assert Pow2(10) == 1024;
    assert Pow2(11) == 2048;
  }

  /** A range field comes back clamped, so unchanged when it was in range. */
  lemma RangeRoundTrip(r: Reader, value: int, bits: nat, low: int, hi: int, width: Width)
    requires RangeFits(bits, low, hi, width)
    requires Holds(r, WriteRange(value, bits, low, hi, width))
    ensures ReadRange(r, bits, low, hi, width) == Some((Clamp(low, value, hi), Skip(r, bits)))
  {
    var kept := Clamp(low, value, hi);
    var sent := kept - low;
    assert ReadBits(r, bits) == Some((sent, Skip(r, bits))) by {
      assert Convert(width, sent) == sent && Pattern(sent) == sent;
      ReadWriteBits(r, sent, bits);
      LowFits(sent, bits);
    }
    assert Convert(width, sent + low) == kept;
  }

  datatype HeatHazeSettings = HeatHazeSettings(
    intensity: uint8, randomShift: uint8,
    speedMin: uint16, speedMax: uint16,
    scanSizeX: int16, scanSizeY: int16,
    renderSizeX: uint16, renderSizeY: uint16,
    insideBuilding: bool)

  /** The settings as they survive the trip: every range field clamped into its range. */
  function Normalize(s: HeatHazeSettings): (n: HeatHazeSettings)
    ensures n.intensity == s.intensity && n.randomShift == s.randomShift && n.insideBuilding == s.insideBuilding
    ensures 0 <= n.speedMin <= 1000 && 0 <= n.speedMax <= 1000
    ensures -1000 <= n.scanSizeX <= 1000 && -1000 <= n.scanSizeY <= 1000
    ensures 0 <= n.renderSizeX <= 1000 && 0 <= n.renderSizeY <= 1000
  {
    s.(speedMin := Clamp(0, s.speedMin, 1000), speedMax := Clamp(0, s.speedMax, 1000),
       scanSizeX := Clamp(-1000, s.scanSizeX, 1000), scanSizeY := Clamp(-1000, s.scanSizeY, 1000),
       renderSizeX := Clamp(0, s.renderSizeX, 1000), renderSizeY := Clamp(0, s.renderSizeY, 1000))
  }

  /** Settings already inside their ranges are left alone. */
  lemma NormalizeKeepsInRange(s: HeatHazeSettings)
    requires s.speedMin <= 1000 && s.speedMax <= 1000 && s.renderSizeX <= 1000 && s.renderSizeY <= 1000
    requires -1000 <= s.scanSizeX <= 1000 && -1000 <= s.scanSizeY <= 1000
    ensures Normalize(s) == s
  {
  }

  /** Two range fields of the same encoding, one after the other. */
  function WriteRangePair(a: int, b: int, bits: nat, low: int, hi: int, width: Width): (bs: Bits)
    requires low <= hi
    ensures |bs| == 2 * bits
  {
    WriteRange(a, bits, low, hi, width) + WriteRange(b, bits, low, hi, width)
  }

  function ReadRangePair(r: Reader, bits: nat, low: int, hi: int, width: Width): (res: Option<(int, int, Reader)>)
    requires low <= hi
    ensures res.Some? ==> low <= res.value.0 <= hi && low <= res.value.1 <= hi
  {
    match ReadRange(r, bits, low, hi, width)
    case None => None
    case Some((a, r1)) =>
      match ReadRange(r1, bits, low, hi, width)
      case None => None
      case Some((b, r2)) => Some((a, b, r2))
  }

  lemma RangePairRoundTrip(r: Reader, a: int, b: int, bits: nat, low: int, hi: int, width: Width)
    requires RangeFits(bits, low, hi, width)
    requires Holds(r, WriteRangePair(a, b, bits, low, hi, width))
    ensures ReadRangePair(r, bits, low, hi, width) == Some((Clamp(low, a, hi), Clamp(low, b, hi), Skip(r, 2 * bits)))
  {
    HoldsSplit(r, WriteRange(a, bits, low, hi, width), WriteRange(b, bits, low, hi, width));
    RangeRoundTrip(r, a, bits, low, hi, width);
    RangeRoundTrip(Skip(r, bits), b, bits, low, hi, width);
  }

  function WriteHeatHaze(s: HeatHazeSettings): (bs: Bits)
    ensures |bs| == 8 + 8 + 20 + 22 + 20 + 1
  {
    WriteByte(s.intensity) + WriteByte(s.randomShift) + WriteHeatHazeRanges(s)
  }

  /** The three range pairs and the inside-building bit. */
  function WriteHeatHazeRanges(s: HeatHazeSettings): (bs: Bits)
    ensures |bs| == 20 + 22 + 20 + 1
  {
    WriteRangePair(s.speedMin, s.speedMax, 10, 0, 1000, UShort)
      + WriteRangePair(s.scanSizeX, s.scanSizeY, 11, -1000, 1000, Short)
      + WriteRangePair(s.renderSizeX, s.renderSizeY, 10, 0, 1000, UShort)
      + WriteBit(s.insideBuilding)
  }

  /** SHeatHazeSync::Read: the fields in order, stopping at the first that fails. */
  function ReadHeatHaze(r: Reader): (res: Option<(HeatHazeSettings, Reader)>)
    ensures res.None? <==> r.pos + 79 > |r.bits|
    ensures res.Some? ==> res.value.1 == Skip(r, 79) && Normalize(res.value.0) == res.value.0
  {
    match ReadByte(r)
    case None => None
    case Some((intensity, r1)) =>
    match ReadByte(r1)
    case None => None
    case Some((randomShift, r2)) => ReadHeatHazeRanges(r2, intensity, randomShift)
  }

  function ReadHeatHazeRanges(r: Reader, intensity: uint8, randomShift: uint8): (res: Option<(HeatHazeSettings, Reader)>)
    ensures res.None? <==> r.pos + 63 > |r.bits|
    ensures res.Some? ==> res.value.1 == Skip(r, 63) && Normalize(res.value.0) == res.value.0
  {
    var speed := ReadRangePair(r, 10, 0, 1000, UShort);
    if speed.None? then None
    else
      var scanSize := ReadRangePair(speed.value.2, 11, -1000, 1000, Short);
      if scanSize.None? then None
      else
        var renderSize := ReadRangePair(scanSize.value.2, 10, 0, 1000, UShort);
        if renderSize.None? then None
        else
          var insideBuilding := ReadBitChecked(renderSize.value.2);
          if insideBuilding.None? then None
          else
            Some((HeatHazeSettings(intensity, randomShift, speed.value.0, speed.value.1,
                                   scanSize.value.0, scanSize.value.1,
                                   renderSize.value.0, renderSize.value.1, insideBuilding.value.0),
                  insideBuilding.value.1))
  }

  /** Where each part of the range block starts, when the reader holds the whole block. */
  lemma HeatHazeRangesParts(r: Reader, s: HeatHazeSettings)
    requires Holds(r, WriteHeatHazeRanges(s))
    ensures Holds(r, WriteRangePair(s.speedMin, s.speedMax, 10, 0, 1000, UShort))
    ensures Holds(Skip(r, 20), WriteRangePair(s.scanSizeX, s.scanSizeY, 11, -1000, 1000, Short))
    ensures Holds(Skip(r, 42), WriteRangePair(s.renderSizeX, s.renderSizeY, 10, 0, 1000, UShort))
    ensures Holds(Skip(r, 62), WriteBit(s.insideBuilding))
  {
    var b2 := WriteRangePair(s.speedMin, s.speedMax, 10, 0, 1000, UShort);
    var b3 := WriteRangePair(s.scanSizeX, s.scanSizeY, 11, -1000, 1000, Short);
    var b4 := WriteRangePair(s.renderSizeX, s.renderSizeY, 10, 0, 1000, UShort);
    var b5 := WriteBit(s.insideBuilding);
    HoldsSplit(r, b2 + b3 + b4, b5);
    HoldsSplit(r, b2 + b3, b4);
    HoldsSplit(r, b2, b3);
  }

  /** What the range block reads as, field by field. */
  lemma SpeedRead(r: Reader, s: HeatHazeSettings)
    requires Holds(r, WriteHeatHazeRanges(s))
    ensures ReadRangePair(r, 10, 0, 1000, UShort) ==
              Some((Clamp(0, s.speedMin, 1000), Clamp(0, s.speedMax, 1000), Skip(r, 20)))
  {
    HeatHazeRangesParts(r, s);
    RangeFitsHeatHaze();
    RangePairRoundTrip(r, s.speedMin, s.speedMax, 10, 0, 1000, UShort);
  }

  lemma ScanSizeRead(r: Reader, s: HeatHazeSettings)
    requires Holds(r, WriteHeatHazeRanges(s))
    ensures ReadRangePair(Skip(r, 20), 11, -1000, 1000, Short) ==
              Some((Clamp(-1000, s.scanSizeX, 1000), Clamp(-1000, s.scanSizeY, 1000), Skip(r, 42)))
  {
    HeatHazeRangesParts(r, s);
    RangeFitsHeatHaze();
    RangePairRoundTrip(Skip(r, 20), s.scanSizeX, s.scanSizeY, 11, -1000, 1000, Short);
  }

  lemma RenderSizeRead(r: Reader, s: HeatHazeSettings)
    requires Holds(r, WriteHeatHazeRanges(s))
    ensures ReadRangePair(Skip(r, 42), 10, 0, 1000, UShort) ==
              Some((Clamp(0, s.renderSizeX, 1000), Clamp(0, s.renderSizeY, 1000), Skip(r, 62)))
  {
    HeatHazeRangesParts(r, s);
    RangeFitsHeatHaze();
    RangePairRoundTrip(Skip(r, 42), s.renderSizeX, s.renderSizeY, 10, 0, 1000, UShort);
  }

  lemma InsideBuildingRead(r: Reader, s: HeatHazeSettings)
    requires Holds(r, WriteHeatHazeRanges(s))
    ensures ReadBitChecked(Skip(r, 62)) == Some((s.insideBuilding, Skip(r, 63)))
  {
    HeatHazeRangesParts(r, s);
    var r5 := Skip(r, 62);
    assert r5.bits[r5.pos] == s.insideBuilding;
  }

  lemma HeatHazeRangesRoundTrip(r: Reader, s: HeatHazeSettings)
    requires Holds(r, WriteHeatHazeRanges(s))
    ensures ReadHeatHazeRanges(r, s.intensity, s.randomShift) == Some((Normalize(s), Skip(r, 63)))
  {
    SpeedRead(r, s);
    ScanSizeRead(r, s);
    RenderSizeRead(r, s);
    InsideBuildingRead(r, s);
  }

  /** Heat haze settings come back with their range fields clamped; in-range settings come back unchanged. */
  lemma HeatHazeRoundTrip(r: Reader, s: HeatHazeSettings)
    requires Holds(r, WriteHeatHaze(s))
    ensures ReadHeatHaze(r) == Some((Normalize(s), Skip(r, |WriteHeatHaze(s)|)))
  {
    var b0 := WriteByte(s.intensity);
    var b1 := WriteByte(s.randomShift);
    var rest := WriteHeatHazeRanges(s);
    HoldsSplit(r, b0 + b1, rest);
    HoldsSplit(r, b0, b1);
    ReadWriteByte(r, s.intensity);
    ReadWriteByte(Skip(r, 8), s.randomShift);
    HeatHazeRangesRoundTrip(Skip(r, 16), s);
  }

  // ----- SVehicleSirenAddSync -----

  datatype SirenAdd = SirenAdd(
    flag360: bool, doLosCheck: bool, useRandomiser: bool, enableSilent: bool,
    overrideSirens: bool, sirenType: uint8, sirenCount: uint8)

  /** Write: the override bit, then the siren fields only when overriding. */
  function WriteSirenAdd(d: SirenAdd): (bs: Bits)
    ensures !d.overrideSirens ==> bs == [false]
    ensures d.overrideSirens ==> |bs| == 1 + 8 + 8 + 4 && bs[0]
  {
    WriteBit(d.overrideSirens)
      + (if d.overrideSirens then
           WriteByte(d.sirenType) + WriteByte(d.sirenCount)
             + WriteSirenFlags(d)
         else [])
  }

  /** A `ReadBit(bool&)` whose failure leaves the flag as it was. */
  function ReadFlagInto(r: Reader, prior: bool): (res: (bool, Reader))
  {
    match ReadBitChecked(r)
    case None => (prior, r)
    case Some((b, r')) => (b, r')
  }

  /**
   * Read, into the structure's current contents `prior`: false when the
   * override bit cannot be read or is clear, or when type or count cannot
   * be read; otherwise true, the four flags being read without checking.
   */
  function ReadSirenAdd(r: Reader, prior: SirenAdd): (res: (bool, SirenAdd, Reader))
    ensures res.0 <==> r.pos + 17 <= |r.bits| && r.bits[r.pos]
    ensures res.0 ==> res.1.overrideSirens
    ensures !res.0 ==> res.1.sirenCount == prior.sirenCount && res.1.flag360 == prior.flag360
                       && res.1.doLosCheck == prior.doLosCheck && res.1.useRandomiser == prior.useRandomiser
                       && res.1.enableSilent == prior.enableSilent
  {
    match ReadBitChecked(r)
    case None => (false, prior, r)
    case Some((overrideSirens, r1)) =>
      var d1 := prior.(overrideSirens := overrideSirens);
      if !overrideSirens then (false, d1, r1)
      else
        match ReadByte(r1)
        case None => (false, d1, r1)
        case Some((sirenType, r2)) =>
          var d2 := d1.(sirenType := sirenType);
          match ReadByte(r2)
          case None => (false, d2, r2)
          case Some((sirenCount, r3)) =>
            var (flags, r4) := ReadSirenFlags(r3, prior);
            (true, flags.(overrideSirens := true, sirenType := sirenType, sirenCount := sirenCount), r4)
  }

  /** The four trailing flags, each left as it was when its bit cannot be read. */
  function ReadSirenFlags(r: Reader, prior: SirenAdd): (res: (SirenAdd, Reader))
  {
    var (flag360, r1) := ReadFlagInto(r, prior.flag360);
    var (doLosCheck, r2) := ReadFlagInto(r1, prior.doLosCheck);
    var (useRandomiser, r3) := ReadFlagInto(r2, prior.useRandomiser);
    var (enableSilent, r4) := ReadFlagInto(r3, prior.enableSilent);
    (prior.(flag360 := flag360, doLosCheck := doLosCheck, useRandomiser := useRandomiser,
            enableSilent := enableSilent), r4)
  }

  function WriteSirenFlags(d: SirenAdd): (bs: Bits)
    ensures |bs| == 4
  {
    [d.flag360, d.doLosCheck, d.useRandomiser, d.enableSilent]
  }

  lemma SirenFlagsRoundTrip(r: Reader, d: SirenAdd, prior: SirenAdd)
    requires Holds(r, WriteSirenFlags(d))
    ensures ReadSirenFlags(r, prior) ==
              (prior.(flag360 := d.flag360, doLosCheck := d.doLosCheck, useRandomiser := d.useRandomiser,
                      enableSilent := d.enableSilent), Skip(r, 4))
  {
    var w := r.bits[r.pos..r.pos + 4];
    assert w == WriteSirenFlags(d);
    assert w[0] == r.bits[r.pos] && w[1] == r.bits[r.pos + 1];
    assert w[2] == r.bits[r.pos + 2] && w[3] == r.bits[r.pos + 3];
  }

  lemma SirenAddParts(r: Reader, d: SirenAdd)
    requires d.overrideSirens && Holds(r, WriteSirenAdd(d))
    ensures r.pos < |r.bits| && r.bits[r.pos]
    ensures Holds(Skip(r, 1), WriteByte(d.sirenType))
    ensures Holds(Skip(r, 9), WriteByte(d.sirenCount))
    ensures Holds(Skip(r, 17), WriteSirenFlags(d))
  {
    var bt := WriteByte(d.sirenType);
    var bc := WriteByte(d.sirenCount);
    var flags := WriteSirenFlags(d);
    assert WriteSirenAdd(d) == [true] + bt + bc + flags;
    HoldsSplit(r, [true] + bt + bc, flags);
    HoldsSplit(r, [true] + bt, bc);
    HoldsSplit(r, [true], bt);
  }

  /** Without override only the bit travels, and Read reports false. */
  lemma SirenAddWithoutOverride(r: Reader, d: SirenAdd, prior: SirenAdd)
    requires !d.overrideSirens && Holds(r, WriteSirenAdd(d))
    ensures ReadSirenAdd(r, prior) == (false, prior.(overrideSirens := false), Skip(r, 1))
  {
  }

  /** With override every field survives the trip, whatever the structure held before. */
  lemma SirenAddRoundTrip(r: Reader, d: SirenAdd, prior: SirenAdd)
    requires d.overrideSirens && Holds(r, WriteSirenAdd(d))
    ensures ReadSirenAdd(r, prior) == (true, d, Skip(r, 21))
  {
    var bt := WriteByte(d.sirenType);
    var bc := WriteByte(d.sirenCount);
    var flags := WriteSirenFlags(d);
    SirenAddParts(r, d);
    ReadWriteByte(Skip(r, 1), d.sirenType);
    ReadWriteByte(Skip(r, 9), d.sirenCount);
    SirenFlagsRoundTrip(Skip(r, 17), d, prior.(overrideSirens := true, sirenType := d.sirenType));
  }

  // ----- SUnoccupiedVehicleSync -----

  /** The nine one-bit flags at the head of the structure, in declaration order. */
  datatype UnoccupiedFlags = UnoccupiedFlags(
    syncPosition: bool, syncRotation: bool, syncVelocity: bool, syncTurnVelocity: bool,
    syncHealth: bool, syncTrailer: bool, engineOn: bool, derailed: bool, isInWater: bool)

  /** The optional sections Write appends after the flags. */
  datatype Section = Position | Rotation | Velocity | TurnVelocity | Health | Trailer

  /** The flag that asks Write for section `sec`. */
  function Flag(f: UnoccupiedFlags, sec: Section): bool
  {
    match sec
    case Position => f.syncPosition
    case Rotation => f.syncRotation
    case Velocity => f.syncVelocity
    case TurnVelocity => f.syncTurnVelocity
    case Health => f.syncHealth
    case Trailer => f.syncTrailer
  }

  /** Where Write puts a section: position first, trailer last. */
  function Rank(sec: Section): nat
  {
    match sec
    case Position => 0
    case Rotation => 1
    case Velocity => 2
    case TurnVelocity => 3
    case Health => 4
    case Trailer => 5
  }

  /** The sections written for `f`, in the order Write emits them. */
  function Sections(f: UnoccupiedFlags): (s: seq<Section>)
    ensures forall sec :: sec in s <==> Flag(f, sec)
    ensures forall i, j :: 0 <= i < j < |s| ==> Rank(s[i]) < Rank(s[j])
  {
    SectionsFrom(f, 0)
  }

  /** The sections of rank `rank` and above that `f` asks for, in rank order. */
  function SectionsFrom(f: UnoccupiedFlags, rank: nat): (s: seq<Section>)
    ensures forall sec :: sec in s <==> Flag(f, sec) && Rank(sec) >= rank
    ensures forall i :: 0 <= i < |s| ==> Rank(s[i]) >= rank
    ensures forall i, j :: 0 <= i < j < |s| ==> Rank(s[i]) < Rank(s[j])
    decreases 6 - rank
  {
    if rank >= 6 then []
    else
      var sec := SectionAt(rank);
      var rest := SectionsFrom(f, rank + 1);
      if Flag(f, sec) then [sec] + rest else rest
  }

  function SectionAt(rank: nat): (sec: Section)
    requires rank < 6
    ensures Rank(sec) == rank
  {
    [Position, Rotation, Velocity, TurnVelocity, Health, Trailer][rank]
  }

  /** HasChanged: whether any of the six sync flags is set. */
  function HasChanged(f: UnoccupiedFlags): (r: bool)
    ensures r <==> exists sec :: Flag(f, sec)
  {
    assert f.syncPosition ==> Flag(f, Position);
    assert f.syncRotation ==> Flag(f, Rotation);
    assert f.syncVelocity ==> Flag(f, Velocity);
    assert f.syncTurnVelocity ==> Flag(f, TurnVelocity);
    assert f.syncHealth ==> Flag(f, Health);
    assert f.syncTrailer ==> Flag(f, Trailer);
    f.syncPosition || f.syncRotation || f.syncVelocity || f.syncTurnVelocity || f.syncHealth || f.syncTrailer
  }

  /** A vehicle has changed exactly when its sync carries at least one optional section. */
  lemma HasChangedIffSections(f: UnoccupiedFlags)
    ensures HasChanged(f) <==> |Sections(f)| > 0
  {
  }

  /** Engine, derailed and in-water state do not count as a change. */
  lemma StateFlagsDoNotCount(f: UnoccupiedFlags, engineOn: bool, derailed: bool, isInWater: bool)
    ensures HasChanged(f.(engineOn := engineOn, derailed := derailed, isInWater := isInWater)) == HasChanged(f)
  {
  }

  /** The nine flags as WriteBits(&data, 9) sends them. */
  function WriteUnoccupiedFlags(f: UnoccupiedFlags): (bs: Bits)
    ensures |bs| == 9
  {
    [f.syncPosition, f.syncRotation, f.syncVelocity, f.syncTurnVelocity, f.syncHealth,
     f.syncTrailer, f.engineOn, f.derailed, f.isInWater]
  }

  function ReadUnoccupiedFlags(r: Reader): (res: Option<(UnoccupiedFlags, Reader)>)
    ensures res.None? <==> r.pos + 9 > |r.bits|
  {
    if r.pos + 9 > |r.bits| then None
    else
      var b := r.bits[r.pos..r.pos + 9];
      Some((UnoccupiedFlags(b[0], b[1], b[2], b[3], b[4], b[5], b[6], b[7], b[8]), Skip(r, 9)))
  }

  lemma UnoccupiedFlagsRoundTrip(r: Reader, f: UnoccupiedFlags)
    requires Holds(r, WriteUnoccupiedFlags(f))
    ensures ReadUnoccupiedFlags(r) == Some((f, Skip(r, 9)))
  {
  }
}
