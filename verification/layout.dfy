/** The wire layout of every payload, stated declaratively: the error a payload
    raises, and otherwise the bytes it occupies from offset 0 of the payload buffer,
    the rest of which stays zero. The lemmas show that the formatter writes exactly
    this layout. */
module WireLayout {
  import opened Wrappers
  import opened Errors
  import opened Helper
  import opened Sensors
  import opened Formatter
  import C = CharacTypes

  // ---------------------------------------------------------------------------
  // The reference
  // ---------------------------------------------------------------------------

  /** A layout followed by zeros up to the buffer size. */
  function Padded(l: seq<uint8>, size: nat): (r: seq<uint8>)
    requires |l| <= size
    ensures |r| == size
  {
    l + Zeros(size - |l|)
  }

  lemma PaddedElements(l: seq<uint8>, size: nat)
    requires |l| <= size
    ensures forall j :: 0 <= j < size ==> Padded(l, size)[j] == if j < |l| then l[j] else 0
  {
  }

  /** The two bytes `numberToByteArray(n, 2)` gives for n below 2^16: big-endian, and
      zeros for a negative n. */
  function TwoBytes(n: int): (r: seq<uint8>)
    requires n < 0x1_0000
    ensures |r| == 2
    ensures n >= 0 ==> BigEndianValue(r) == n
  {
    if n < 0 then Zeros(2) else BigEndian(n, 2)
  }

  /** The axis byte of an axis selection: the bits of the selected axes. */
  function AxisMask(axes: seq<Axis>): (m: int)
    ensures 0 <= m < 8
  {
    (if X in axes then 0x04 else 0) + (if Y in axes then 0x02 else 0) + (if Z in axes then 0x01 else 0)
  }

  /** Byte 2 of a threshold configuration: event 0x80, enabled 0x40, above 0x20,
      auto-clear 0x10, set BLE mode 0x04, set LoRa mode 0x02. */
  function ThresholdFlags(eventFlag: bool, enabled: bool, direction: Direction,
                          autoClear: bool, setBleMode: bool, setLoraMode: bool): (f: int)
    ensures 0 <= f < 256
  {
    (if eventFlag then 0x80 else 0) + (if enabled then 0x40 else 0) + (if direction == Above then 0x20 else 0)
    + (if autoClear then 0x10 else 0) + (if setBleMode then 0x04 else 0) + (if setLoraMode then 0x02 else 0)
  }

  /** The first range error of a payload, in the order the formatter checks its fields;
      None when every field passes. */
  function ExpectedError(p: LogicalPayload): (e: Option<Error>)
    requires WellFormedPayload(p)
  {
    match p
    case Keepalive(i, m) =>
      if DecimalValue(i) > 255 || DecimalValue(m) > 255 then Some(ValueOutOfRange) else None
    case PresetSelection(main, secondary) =>
      if !IsInByteRange(main) || !IsInByteRange(secondary.GetOr(0xFF)) then Some(PresetRange) else None
    case Windowing(f) =>
      if f in {"none", "hann", "flattop"} then None else Some(WindowingFunction)
    case PresetConfiguration(_, _, _, h, m, s) =>
      if !IsInByteRange(h) then Some(PresetRange)
      else if !IsInByteRange(m) || !IsInByteRange(s) then Some(TimeOutOfRange)
      else None
    case PresetRequest(presetId) =>
      if !IsInByteRange(presetId) then Some(PresetRange) else None
    case WindowConfiguration(presetId, windowId, _, peakCount, fMin, fMax) =>
      WindowConfigurationError(presetId, windowId, peakCount, fMin, fMax)
    case WindowRequest(presetId, windowId) =>
      if !IsInByteRange(presetId) then Some(PresetRange)
      else if !IsInRangeInclusive(1, 8, windowId) then Some(WindowRange)
      else None
    case Empty => Some(UnknownCharacType)
    case Untyped => Some(UnknownCharacType)
    case ThresholdMulti(_, _, _, _, _, _, _, _, _, _, _) => Some(UnknownCharacType)
    case _ => None
  }

  /** The payloads whose layout is fixed: a legacy threshold datum of at most eight hex
      digits, a keepalive interval of three bits (or a keepalive that fails), and the
      2-byte numbers below 2^16. */
  predicate InLayoutDomain(p: LogicalPayload)
    requires WellFormedPayload(p)
  {
    match p
    case Threshold(_, _, data32) => |data32| <= 8
    case Keepalive(i, m) => DecimalValue(i) < 8 || DecimalValue(i) > 255 || DecimalValue(m) > 255
    case DatalogArray(_, index, _) => index < 0x1_0000
    case DatalogAnalysis(length) => length < 0x1_0000
    case RawTimeData(_, index, _) => index < 0x1_0000
    case _ => true
  }

  /** The longest layout of a type: the payload size a characteristic of that type
      needs (0 for the types with nothing to write). The composite threshold is written
      as multipoint threshold frames. */
  function LayoutSize(kind: C.TypeField): nat {
    match kind
    case Tagged(t) =>
      (match t
       case TriggerMeasurement | BleActivation | Battery | Keepalive | LoraMode | LoraPercentage
          | AxisSelection | WindowingFunction | PresetRequest | ProtocolVersion => 1
       case PresetSelection | WindowRequest | MultipointThresholdRequest => 2
       case MeasInterval | DatalogAnalysis => 3
       case DatalogData | RawTimeData => 4
       case Threshold | PresetConfiguration | MultipointThreshold | MultipointThresholdMulti => 6
       case WindowConfiguration => 8
       case _ => 0)
    case _ => 0
  }

  /** The bytes a payload occupies from offset 0. A number stored into the buffer
      wraps modulo 256. */
  function Layout(p: LogicalPayload): (l: seq<uint8>)
    requires WellFormedPayload(p) && InLayoutDomain(p)
  {
    match p
    case MeasInterval(h, m, s) => [ToUint8(DecimalValue(h)), ToUint8(DecimalValue(m)), ToUint8(DecimalValue(s))]
    case TriggerMeas(disconnect) => [if disconnect then 0x81 else 0x01]
    case BleActivation(checked) => [if checked then 0x01 else 0x00]
    case Battery(reset) => [if reset then 0xFF else 0x00]
    case Threshold(idData, paramSel, data32) =>
      [ToUint8(HexValue(idData)), ToUint8(HexValue(paramSel))] + ToByteArray(data32, 4)
    case Keepalive(i, m) => [ToUint8(DecimalValue(i) + 8 * DecimalValue(m))]
    case DatalogArray(datalogType, index, length) => [ToUint8(datalogType)] + TwoBytes(index) + [ToUint8(length)]
    case DatalogAnalysis(length) => [0x02] + TwoBytes(length)
    case LoraMode(mode) => [ToUint8(mode)]
    case LoraPercentage(percentage) => [ToUint8(percentage)]
    case AxisSelection(axes) => [ByteOf(AxisMask(axes))]
    case PresetSelection(main, secondary) => [ToUint8(main), ToUint8(secondary.GetOr(0xFF))]
    case Windowing(f) => (match WindowingCode(f) case Success(c) => [ToUint8(c)] case Failure(_) => [0])
    case PresetConfiguration(presetId, frameFormat, bandwidthMode, h, m, s) =>
      [ToUint8(presetId), ToUint8(frameFormat), ToUint8(bandwidthMode), ToUint8(h), ToUint8(m), ToUint8(s)]
    case PresetRequest(presetId) => [ToUint8(presetId)]
    case WindowConfiguration(presetId, windowId, enable, peakCount, fMin, fMax) =>
      [ToUint8(presetId), ToUint8(windowId), if enable then 0x01 else 0x00, ToUint8(peakCount)]
      + (if 0 <= fMin < 0x1_0000 then BigEndian(fMin, 2) else Zeros(2))
      + (if 0 <= fMax < 0x1_0000 then BigEndian(fMax, 2) else Zeros(2))
    case WindowRequest(presetId, windowId) => [ToUint8(presetId), ToUint8(windowId)]
    case ThresholdConfig(id, eventFlag, enabled, direction, autoClear, setBleMode, setLoraMode) =>
      [ByteOf(id.Code()), 0x00, ByteOf(ThresholdFlags(eventFlag, enabled, direction, autoClear, setBleMode, setLoraMode))]
    case ThresholdLevel(id, levelBits) => [ByteOf(id.Code()), 0x01] + BigEndian(levelBits, 4)
    case ThresholdCommMode(id, bleMode, loraMode) =>
      [ByteOf(id.Code()), 0x03, ToUint8(BleModeCode(bleMode)), ToUint8(LoraModeCode(loraMode))]
    case ThresholdRequest(id, param) => [ByteOf(id.Code()), ToUint8(ParamSelCode(param))]
    case RawTimeData(axis, index, length) => [ToUint8(AxisBit(axis))] + TwoBytes(index) + [ToUint8(length)]
    case ProtocolVersion(version) => [ToUint8(version)]
    case Empty => []
    case Untyped => []
    case ThresholdMulti(_, _, _, _, _, _, _, _, _, _, _) => []
  }

  /** What the formatter should give for a payload in a buffer of `size` bytes. */
  function Reference(size: nat, p: LogicalPayload): (r: Result<seq<uint8>, Error>)
    requires WellFormedPayload(p) && InLayoutDomain(p) && |Layout(p)| <= size
    ensures r.Success? <==> ExpectedError(p).None?
  {
    match ExpectedError(p)
    case Some(e) => Failure(e)
    case None => Success(Padded(Layout(p), size))
  }

  // ---------------------------------------------------------------------------
  // Building a layout store by store
  // ---------------------------------------------------------------------------

  lemma ZerosArePadded(size: nat)
    ensures Zeros(size) == Padded([], size)
  {
    assert [] + Zeros(size) == Zeros(size);
  }

  /** Storing at the end of a layout extends it by one byte. */
  lemma StoreExtends(l: seq<uint8>, size: nat, v: int)
    requires |l| < size
    ensures Store(Padded(l, size), |l|, v) == Padded(l + [ToUint8(v)], size)
  {
    PaddedElements(l, size);
    PaddedElements(l + [ToUint8(v)], size);
    var r := Store(Padded(l, size), |l|, v);
    var e := Padded(l + [ToUint8(v)], size);
    assert forall j | 0 <= j < size :: r[j] == e[j];
  }

  /** Storing over the last byte of a layout replaces it. */
  lemma StoreReplaces(l: seq<uint8>, x: uint8, size: nat, v: int)
    requires |l| < size
    ensures Store(Padded(l + [x], size), |l|, v) == Padded(l + [ToUint8(v)], size)
  {
    PaddedElements(l + [x], size);
    PaddedElements(l + [ToUint8(v)], size);
    var r := Store(Padded(l + [x], size), |l|, v);
    var e := Padded(l + [ToUint8(v)], size);
    assert forall j | 0 <= j < size :: r[j] == e[j];
  }

  /** Copying bytes to the end of a layout extends it by those bytes. */
  lemma SetExtends(l: seq<uint8>, size: nat, bytes: seq<uint8>)
    requires |l| + |bytes| <= size
    ensures SetAt(Padded(l, size), bytes, |l|) == Success(Padded(l + bytes, size))
  {
    var b := Padded(l, size);
    var z := Zeros(size - |l| - |bytes|);
    assert b[..|l|] == l;
    assert b[|l| + |bytes|..] == z;
    assert SetAt(b, bytes, |l|).value == l + bytes + z;
  }

  lemma {:induction false} BitOrCommutes(a: nat, b: nat)
    ensures BitOr(a, b) == BitOr(b, a)
    decreases a + b
  {
    if a != 0 && b != 0 {
      BitOrCommutes(a / 2, b / 2);
    }
  }

  /** OR-ing a bit below every bit already set adds it: `v` is a multiple of twice the bit. */
  lemma OrLowerBit(v: nat, q: nat, mask: nat, k: nat)
    requires mask == Pow2(k) && v == 2 * mask * q
    ensures BitOr(v, mask) == v + mask
  {
    assert Pow2(k + 1) == 2 * mask;
    assert v == q * Pow2(k + 1);
    BitOrZeroLow(mask, q, k + 1);
    BitOrCommutes(v, mask);
  }

  /** `buf[i] |= mask` on a byte `v` that does not have the mask's bit adds the mask. */
  lemma FlagOn(b: Buffer, i: nat, v: nat, mask: nat)
    requires i < |b| && b[i] as int == v && v + mask < 256
    requires BitOr(v, mask) == v + mask
    ensures OrAt(b, i, mask) == b[i := ByteOf(v + mask)]
  {
    assert ElementOrZero(b, i) == v;
    assert ToUint8(v + mask) == ByteOf(v + mask);
  }

  /** One conditional `buf[i] |= mask` on a byte `v` whose set bits all lie above the
      mask (`v` is a multiple `2 * mask * q` of twice the mask). */
  lemma FlagStep(b: Buffer, i: nat, v: nat, q: nat, mask: nat, k: nat, on: bool)
    requires i < |b| && b[i] as int == v && v + mask < 256
    requires mask == Pow2(k) && v == 2 * mask * q
    ensures OrIf(b, i, on, mask) == b[i := ByteOf(v + if on then mask else 0)]
  {
    if on {
      OrLowerBit(v, q, mask, k);
      FlagOn(b, i, v, mask);
    } else {
      assert b[i := ByteOf(v)] == b;
    }
  }

  /** A buffer holding a layout and zeros after it is that layout padded. */
  lemma EqualsPadded(b: Buffer, l: seq<uint8>, size: nat)
    requires |b| == size && |l| <= size
    requires forall j :: 0 <= j < |l| ==> b[j] == l[j]
    requires forall j :: |l| <= j < size ==> b[j] == 0
    ensures b == Padded(l, size)
  {
    PaddedElements(l, size);
    assert forall j | 0 <= j < size :: b[j] == Padded(l, size)[j];
  }

  /** A second store to the same index overwrites the first. */
  lemma StoreTwice(buf: Buffer, i: nat, a: int, v: int)
    ensures Store(Store(buf, i, a), i, v) == Store(buf, i, v)
  {
  }

  /** A zero byte at the end of a layout changes nothing. */
  lemma PadWithZero(l: seq<uint8>, size: nat)
    requires |l| < size
    ensures Padded(l, size) == Padded(l + [ToUint8(0)], size)
  {
    PaddedElements(l, size);
    PaddedElements(l + [ToUint8(0)], size);
    var a := Padded(l, size);
    var b := Padded(l + [ToUint8(0)], size);
    assert forall j | 0 <= j < size :: a[j] == b[j];
  }

  /** `numberToByteArray(n, 2)` for n below 2^16. */
  lemma TwoBytesPacking(n: int)
    requires n < 0x1_0000
    ensures NumberToByteArray(n, 2) == TwoBytes(n)
  {
    if n >= 0 {
      NumberToTwoBytes(n);
    }
  }

  // ---------------------------------------------------------------------------
  // The formatter writes the layout: one lemma per payload variant
  // ---------------------------------------------------------------------------

  lemma OneByteLayout(size: nat, v: int)
    requires size >= 1
    ensures Store(Zeros(size), 0, v) == Padded([ToUint8(v)], size)
  {
    ZerosArePadded(size);
    StoreExtends([], size, v);
  }

  lemma MeasIntervalBytes(size: nat, h: string, m: string, s: string)
    requires IsDigits(h) && IsDigits(m) && IsDigits(s) && size >= 3
    ensures FormatMeasInterval(Zeros(size), h, m, s)
         == Padded([ToUint8(DecimalValue(h)), ToUint8(DecimalValue(m)), ToUint8(DecimalValue(s))], size)
  {
    var hb, mb, sb := ToUint8(DecimalValue(h)), ToUint8(DecimalValue(m)), ToUint8(DecimalValue(s));
    OneByteLayout(size, DecimalValue(h));
    StoreExtends([hb], size, DecimalValue(m));
    StoreExtends([hb, mb], size, DecimalValue(s));
    assert [hb] + [mb] == [hb, mb] && [hb, mb] + [sb] == [hb, mb, sb];
  }

  lemma ThresholdBytes(size: nat, idData: string, paramSel: string, data32: string)
    requires IsHexString(idData) && IsHexString(paramSel) && IsHexString(data32)
    requires |data32| <= 8 && size >= 6
    ensures FormatThreshold(Zeros(size), idData, paramSel, data32)
         == Success(Padded([ToUint8(HexValue(idData)), ToUint8(HexValue(paramSel))] + ToByteArray(data32, 4), size))
  {
    var ib, sb := ToUint8(HexValue(idData)), ToUint8(HexValue(paramSel));
    OneByteLayout(size, HexValue(idData));
    StoreExtends([ib], size, HexValue(paramSel));
    assert [ib] + [sb] == [ib, sb];
    SetExtends([ib, sb], size, ToByteArray(data32, 4));
  }

  /** The two insertions of a keepalive, when both succeed. */
  lemma KeepaliveSteps(buf: Buffer, i: nat, m: nat, first: int, second: int)
    requires InsertValueInByte(ElementOrZero(buf, 0), i, 0) == Success(first)
    requires InsertValueInByte(ElementOrZero(Store(buf, 0, first), 0), m, 3) == Success(second)
    ensures FormatKeepalive(buf, i, m) == Success(Store(Store(buf, 0, first), 0, second))
  {
  }

  /** With an interval of three bits, the mode lands on bits 3 and up. */
  lemma KeepaliveInsertions(size: nat, i: nat, m: nat)
    requires size >= 1 && i < 8 && m <= 255
    ensures InsertValueInByte(ElementOrZero(Zeros(size), 0), i, 0) == Success(i)
    ensures InsertValueInByte(ElementOrZero(Store(Zeros(size), 0, i), 0), m, 3) == Success(i + 8 * m)
  {
    assert Pow2(0) == 1;
    assert ElementOrZero(Zeros(size), 0) == 0;
    InsertIntoLowBits(0, i, 0);
    assert Pow2(3) == 8;
    assert ElementOrZero(Store(Zeros(size), 0, i), 0) == i;
    InsertIntoLowBits(i, m, 3);
    assert i + m * Pow2(3) == i + 8 * m;
  }

  lemma KeepaliveBytes(size: nat, i: nat, m: nat)
    requires size >= 1 && i < 8 && m <= 255
    ensures FormatKeepalive(Zeros(size), i, m) == Success(Padded([ToUint8(i + 8 * m)], size))
  {
    KeepaliveInsertions(size, i, m);
    KeepaliveSteps(Zeros(size), i, m, i, i + 8 * m);
    StoreTwice(Zeros(size), 0, i, i + 8 * m);
    OneByteLayout(size, i + 8 * m);
  }

  /** Head byte, 2-byte number and tail byte: datalog data and raw time data. */
  lemma HeadNumberTailBytes(size: nat, head: int, n: int, tail: int)
    requires n < 0x1_0000 && size >= 4
    ensures FormatHeadNumberTail(Zeros(size), head, n, tail)
         == Success(Padded([ToUint8(head)] + TwoBytes(n) + [ToUint8(tail)], size))
  {
    var hb := ToUint8(head);
    OneByteLayout(size, head);
    TwoBytesPacking(n);
    SetExtends([hb], size, TwoBytes(n));
    StoreExtends([hb] + TwoBytes(n), size, tail);
  }

  lemma DatalogAnalysisBytes(size: nat, length: int)
    requires length < 0x1_0000 && size >= 3
    ensures FormatDatalogAnalysis(Zeros(size), length) == Success(Padded([0x02] + TwoBytes(length), size))
  {
    OneByteLayout(size, 0x02);
    TwoBytesPacking(length);
    SetExtends([ToUint8(0x02)], size, TwoBytes(length));
  }

  lemma AxisSelectionBytes(size: nat, axes: seq<Axis>)
    requires size >= 1
    ensures FormatAxisSelection(Zeros(size), axes) == Padded([ByteOf(AxisMask(axes))], size)
  {
    var x, y := Bit(X in axes), Bit(Y in axes);
    assert Pow2(2) == 4 && Pow2(1) == 2 && Pow2(0) == 1;
    var b0 := Zeros(size);
    FlagStep(b0, 0, 0, 0, 0x04, 2, X in axes);
    var b1 := b0[0 := ByteOf(4 * x)];
    FlagStep(b1, 0, 4 * x, x, 0x02, 1, Y in axes);
    var b2 := b1[0 := ByteOf(4 * x + 2 * y)];
    FlagStep(b2, 0, 4 * x + 2 * y, 2 * x + y, 0x01, 0, Z in axes);
    var b3 := b2[0 := ByteOf(AxisMask(axes))];
    assert FormatAxisSelection(b0, axes) == b3;
    EqualsPadded(b3, [ByteOf(AxisMask(axes))], size);
  }

  lemma PresetSelectionBytes(size: nat, main: int, secondary: Option<int>)
    requires size >= 2 && IsInByteRange(main) && IsInByteRange(secondary.GetOr(0xFF))
    ensures FormatPresetSelection(Zeros(size), main, secondary)
         == Success(Padded([ToUint8(main), ToUint8(secondary.GetOr(0xFF))], size))
  {
    var s := secondary.GetOr(0xFF);
    OneByteLayout(size, main);
    StoreExtends([ToUint8(main)], size, s);
    assert [ToUint8(main)] + [ToUint8(s)] == [ToUint8(main), ToUint8(s)];
  }

  lemma PresetConfigurationBytes(size: nat, presetId: int, frameFormat: int, bandwidthMode: int,
                                 h: int, m: int, s: int)
    requires size >= 6 && IsInByteRange(h) && IsInByteRange(m) && IsInByteRange(s)
    ensures FormatPresetConfiguration(Zeros(size), presetId, frameFormat, bandwidthMode, h, m, s)
         == Success(Padded([ToUint8(presetId), ToUint8(frameFormat), ToUint8(bandwidthMode),
                            ToUint8(h), ToUint8(m), ToUint8(s)], size))
  {
    var l := [ToUint8(presetId), ToUint8(frameFormat), ToUint8(bandwidthMode), ToUint8(h), ToUint8(m), ToUint8(s)];
    OneByteLayout(size, presetId);
    assert [ToUint8(presetId)] == l[..1];
    StoreExtends(l[..1], size, frameFormat);
    assert l[..1] + [ToUint8(frameFormat)] == l[..2];
    StoreExtends(l[..2], size, bandwidthMode);
    assert l[..2] + [ToUint8(bandwidthMode)] == l[..3];
    StoreExtends(l[..3], size, h);
    assert l[..3] + [ToUint8(h)] == l[..4];
    StoreExtends(l[..4], size, m);
    assert l[..4] + [ToUint8(m)] == l[..5];
    StoreExtends(l[..5], size, s);
    assert l[..5] + [ToUint8(s)] == l;
  }

  /** The four head bytes of a window configuration, with the peak count stored twice. */
  lemma WindowHeadBytes(size: nat, presetId: int, windowId: int, enable: bool, peakCount: int)
    requires size >= 4
    ensures
      var b := Store(Store(Store(Store(Zeros(size), 0, presetId), 1, windowId), 2, if enable then 0x01 else 0x00), 3, peakCount);
      Store(b, 3, peakCount)
      == Padded([ToUint8(presetId), ToUint8(windowId), if enable then 0x01 else 0x00, ToUint8(peakCount)], size)
  {
    var en := if enable then 0x01 else 0x00;
    var head := [ToUint8(presetId), ToUint8(windowId), ToUint8(en), ToUint8(peakCount)];
    OneByteLayout(size, presetId);
    assert [ToUint8(presetId)] == head[..1];
    StoreExtends(head[..1], size, windowId);
    assert head[..1] + [ToUint8(windowId)] == head[..2];
    StoreExtends(head[..2], size, en);
    assert head[..2] + [ToUint8(en)] == head[..3];
    StoreExtends(head[..3], size, peakCount);
    assert head[..3] + [ToUint8(peakCount)] == head;
    StoreReplaces(head[..3], ToUint8(peakCount), size, peakCount);
    assert ToUint8(en) == if enable then 0x01 else 0x00;
  }

  /** The successful path of a window configuration: the head bytes, then the two
      frequencies written over it. */
  lemma WindowConfigurationSteps(buf: Buffer, presetId: int, windowId: int, enable: bool,
                                 peakCount: int, fMin: int, fMax: int, head: Buffer, b1: Buffer)
    requires WindowConfigurationError(presetId, windowId, peakCount, fMin, fMax).None?
    requires head == Store(Store(Store(Store(Store(buf, 0, presetId), 1, windowId), 2, if enable then 0x01 else 0x00), 3, peakCount), 3, peakCount)
    requires SetAt(head, NumberToByteArray(fMin, 2), 4) == Success(b1)
    ensures FormatWindowConfiguration(buf, presetId, windowId, enable, peakCount, fMin, fMax)
         == SetAt(b1, NumberToByteArray(fMax, 2), 6)
  {
  }

  lemma WindowConfigurationBytes(size: nat, presetId: int, windowId: int, enable: bool,
                                 peakCount: int, fMin: int, fMax: int)
    requires size >= 8 && WindowConfigurationError(presetId, windowId, peakCount, fMin, fMax).None?
    ensures FormatWindowConfiguration(Zeros(size), presetId, windowId, enable, peakCount, fMin, fMax)
         == Success(Padded([ToUint8(presetId), ToUint8(windowId), if enable then 0x01 else 0x00, ToUint8(peakCount)]
                           + BigEndian(fMin, 2) + BigEndian(fMax, 2), size))
  {
    var l := [ToUint8(presetId), ToUint8(windowId), if enable then 0x01 else 0x00, ToUint8(peakCount)];
    var en := if enable then 0x01 else 0x00;
    var head := Store(Store(Store(Store(Store(Zeros(size), 0, presetId), 1, windowId), 2, en), 3, peakCount), 3, peakCount);
    WindowHeadBytes(size, presetId, windowId, enable, peakCount);
    assert head == Padded(l, size);
    WindowFrequencies(l, size, fMin, fMax);
    var b1 := Padded(l + BigEndian(fMin, 2), size);
    WindowConfigurationSteps(Zeros(size), presetId, windowId, enable, peakCount, fMin, fMax, head, b1);
  }

  /** The two frequencies of a window configuration written after its four head bytes. */
  lemma WindowFrequencies(l: Buffer, size: nat, fMin: int, fMax: int)
    requires |l| == 4 && size >= 8 && 0 <= fMin < 65536 && 0 <= fMax < 65536
    ensures SetAt(Padded(l, size), NumberToByteArray(fMin, 2), 4) == Success(Padded(l + BigEndian(fMin, 2), size))
    ensures SetAt(Padded(l + BigEndian(fMin, 2), size), NumberToByteArray(fMax, 2), 6)
         == Success(Padded(l + BigEndian(fMin, 2) + BigEndian(fMax, 2), size))
  {
    NumberToTwoBytes(fMin);
    NumberToTwoBytes(fMax);
    SetExtends(l, size, BigEndian(fMin, 2));
    SetExtends(l + BigEndian(fMin, 2), size, BigEndian(fMax, 2));
  }

  lemma WindowRequestBytes(size: nat, presetId: int, windowId: int)
    requires size >= 2 && IsInByteRange(presetId) && IsInRangeInclusive(1, 8, windowId)
    ensures FormatWindowRequest(Zeros(size), presetId, windowId)
         == Success(Padded([ToUint8(presetId), ToUint8(windowId)], size))
  {
    OneByteLayout(size, presetId);
    StoreExtends([ToUint8(presetId)], size, windowId);
    assert [ToUint8(presetId)] + [ToUint8(windowId)] == [ToUint8(presetId), ToUint8(windowId)];
  }

  /** A flag as a bit. */
  function Bit(on: bool): (r: nat)
    ensures r <= 1
  {
    if on then 1 else 0
  }

  /** The event, enable and direction flags ORed into a zero byte set its top three bits. */
  lemma HighFlags(b: Buffer, ev: bool, en: bool, above: bool)
    requires 2 < |b| && b[2] == 0
    ensures OrIf(OrIf(OrIf(b, 2, ev, 0x80), 2, en, 0x40), 2, above, 0x20)
         == b[2 := ByteOf(0x80 * Bit(ev) + 0x40 * Bit(en) + 0x20 * Bit(above))]
  {
    assert Pow2(5) == 0x20 && Pow2(6) == 0x40 && Pow2(7) == 0x80;
    FlagStep(b, 2, 0, 0, 0x80, 7, ev);
    var b1 := b[2 := ByteOf(0x80 * Bit(ev))];
    FlagStep(b1, 2, 0x80 * Bit(ev), Bit(ev), 0x40, 6, en);
    var b2 := b1[2 := ByteOf(0x80 * Bit(ev) + 0x40 * Bit(en))];
    FlagStep(b2, 2, 0x80 * Bit(ev) + 0x40 * Bit(en), 2 * Bit(ev) + Bit(en), 0x20, 5, above);
    assert b2[2 := ByteOf(0x80 * Bit(ev) + 0x40 * Bit(en) + 0x20 * Bit(above))]
        == b[2 := ByteOf(0x80 * Bit(ev) + 0x40 * Bit(en) + 0x20 * Bit(above))];
  }

  /** The auto-clear, BLE and LoRa flags ORed into a byte whose set bits lie at 0x20 and
      above set the bits 0x10, 0x04 and 0x02. */
  lemma LowFlags(b: Buffer, h: nat, ac: bool, ble: bool, lora: bool)
    requires 2 < |b| && h < 8 && b[2] as int == 0x20 * h
    ensures OrIf(OrIf(OrIf(b, 2, ac, 0x10), 2, ble, 0x04), 2, lora, 0x02)
         == b[2 := ByteOf(0x20 * h + 0x10 * Bit(ac) + 0x04 * Bit(ble) + 0x02 * Bit(lora))]
  {
    assert Pow2(1) == 0x02 && Pow2(2) == 0x04 && Pow2(3) == 0x08 && Pow2(4) == 0x10;
    FlagStep(b, 2, 0x20 * h, h, 0x10, 4, ac);
    var b1 := b[2 := ByteOf(0x20 * h + 0x10 * Bit(ac))];
    FlagStep(b1, 2, 0x20 * h + 0x10 * Bit(ac), 4 * h + 2 * Bit(ac), 0x04, 2, ble);
    var b2 := b1[2 := ByteOf(0x20 * h + 0x10 * Bit(ac) + 0x04 * Bit(ble))];
    FlagStep(b2, 2, 0x20 * h + 0x10 * Bit(ac) + 0x04 * Bit(ble), 8 * h + 4 * Bit(ac) + Bit(ble), 0x02, 1, lora);
    assert b2[2 := ByteOf(0x20 * h + 0x10 * Bit(ac) + 0x04 * Bit(ble) + 0x02 * Bit(lora))]
        == b[2 := ByteOf(0x20 * h + 0x10 * Bit(ac) + 0x04 * Bit(ble) + 0x02 * Bit(lora))];
  }

  lemma ThresholdConfigBytes(size: nat, code: int, eventFlag: bool, enabled: bool, direction: Direction,
                             autoClear: bool, setBleMode: bool, setLoraMode: bool)
    requires size >= 3 && 0 <= code < 256
    ensures FormatThresholdConfig(Zeros(size), code, eventFlag, enabled, direction, autoClear, setBleMode, setLoraMode)
         == Padded([ByteOf(code), 0x00, ByteOf(ThresholdFlags(eventFlag, enabled, direction, autoClear, setBleMode, setLoraMode))], size)
  {
    var h := 4 * Bit(eventFlag) + 2 * Bit(enabled) + Bit(direction == Above);
    var b0 := Store(Store(Zeros(size), 0, code), 1, 0x00);
    var high := OrIf(OrIf(OrIf(b0, 2, eventFlag, 0x80), 2, enabled, 0x40), 2, direction == Above, 0x20);
    HighFlags(b0, eventFlag, enabled, direction == Above);
    var b1 := b0[2 := ByteOf(0x20 * h)];
    assert high == b1;
    LowFlags(b1, h, autoClear, setBleMode, setLoraMode);
    var flags := ThresholdFlags(eventFlag, enabled, direction, autoClear, setBleMode, setLoraMode);
    var b2 := b1[2 := ByteOf(flags)];
    assert FormatThresholdConfig(Zeros(size), code, eventFlag, enabled, direction, autoClear, setBleMode, setLoraMode)
        == OrIf(OrIf(OrIf(high, 2, autoClear, 0x10), 2, setBleMode, 0x04), 2, setLoraMode, 0x02);
    EqualsPadded(b2, [ByteOf(code), 0x00, ByteOf(flags)], size);
  }

  lemma ThresholdLevelBytes(size: nat, code: int, levelBits: int)
    requires 0 <= levelBits < 0x1_0000_0000 && size >= 6 && 0 <= code < 256
    ensures FormatThresholdLevel(Zeros(size), code, levelBits) == Success(Padded([ByteOf(code), 0x01] + BigEndian(levelBits, 4), size))
  {
    var l := [ToUint8(code), ToUint8(0x01)];
    OneByteLayout(size, code);
    StoreExtends([ToUint8(code)], size, 0x01);
    assert [ToUint8(code)] + [ToUint8(0x01)] == l;
    SetExtends(l, size, BigEndian(levelBits, 4));
  }

  lemma ThresholdCommModeBytes(size: nat, code: int, bleMode: BleMode, loraMode: ThresholdLoraMode)
    requires size >= 4 && 0 <= code < 256
    ensures FormatThresholdCommMode(Zeros(size), code, bleMode, loraMode)
         == Padded([ByteOf(code), 0x03, ToUint8(BleModeCode(bleMode)), ToUint8(LoraModeCode(loraMode))], size)
  {
    var l := [ToUint8(code), ToUint8(0x03), ToUint8(BleModeCode(bleMode)), ToUint8(LoraModeCode(loraMode))];
    OneByteLayout(size, code);
    assert [ToUint8(code)] == l[..1];
    StoreExtends(l[..1], size, 0x03);
    assert l[..1] + [ToUint8(0x03)] == l[..2];
    StoreExtends(l[..2], size, BleModeCode(bleMode));
    assert l[..2] + [ToUint8(BleModeCode(bleMode))] == l[..3];
    StoreExtends(l[..3], size, LoraModeCode(loraMode));
    assert l[..3] + [ToUint8(LoraModeCode(loraMode))] == l;
  }

  lemma ThresholdRequestBytes(size: nat, code: int, param: ParamSel)
    requires size >= 2 && 0 <= code < 256
    ensures FormatThresholdRequest(Zeros(size), code, param) == Padded([ByteOf(code), ToUint8(ParamSelCode(param))], size)
  {
    OneByteLayout(size, code);
    StoreExtends([ToUint8(code)], size, ParamSelCode(param));
    assert [ToUint8(code)] + [ToUint8(ParamSelCode(param))] == [ToUint8(code), ToUint8(ParamSelCode(param))];
  }

  // ---------------------------------------------------------------------------
  // Every layout fits the size of its type
  // ---------------------------------------------------------------------------

  /** The one-byte payloads, the measurement interval and the untyped ones. */
  lemma ShortLayoutsFit(p: LogicalPayload)
    requires WellFormedPayload(p) && InLayoutDomain(p)
    requires p.MeasInterval? || p.TriggerMeas? || p.BleActivation? || p.Empty? || p.Untyped? || p.Battery?
    ensures |Layout(p)| <= LayoutSize(p.Tag())
    ensures !(p.ThresholdConfig? || p.ThresholdCommMode? || p.ThresholdMulti?) ==> |Layout(p)| == LayoutSize(p.Tag())
  {
  }

  /** The legacy threshold. */
  lemma RecordLayoutsFit(p: LogicalPayload)
    requires WellFormedPayload(p) && InLayoutDomain(p)
    requires p.Threshold?
    ensures |Layout(p)| <= LayoutSize(p.Tag())
    ensures !(p.ThresholdConfig? || p.ThresholdCommMode? || p.ThresholdMulti?) ==> |Layout(p)| == LayoutSize(p.Tag())
  {
    match p
    case Threshold(idData, paramSel, data32) =>
      ThresholdLayoutLength(idData, paramSel, data32);
      assert p.Tag() == C.Tagged(C.Threshold);
  }

  /** A legacy threshold with a datum of at most eight hex digits is six bytes. */
  lemma ThresholdLayoutLength(idData: string, paramSel: string, data32: string)
    requires IsHexString(idData) && IsHexString(paramSel) && IsHexString(data32) && |data32| <= 8
    ensures |Layout(Threshold(idData, paramSel, data32))| == 6
  {
    ThresholdDataBytes(data32);
  }

  /** A legacy threshold datum of at most eight hex digits is four bytes. */
  lemma ThresholdDataBytes(data32: string)
    requires IsHexString(data32) && |data32| <= 8
    ensures |ToByteArray(data32, 4)| == 4
  {
  }

  /** The keepalive and the LoRa mode and percentage. */
  lemma ByteLayoutsFit(p: LogicalPayload)
    requires WellFormedPayload(p) && InLayoutDomain(p)
    requires p.Keepalive? || p.LoraMode? || p.LoraPercentage?
    ensures |Layout(p)| <= LayoutSize(p.Tag())
    ensures !(p.ThresholdConfig? || p.ThresholdCommMode? || p.ThresholdMulti?) ==> |Layout(p)| == LayoutSize(p.Tag())
  {
  }

  /** The datalog and raw time data requests and the protocol version. */
  lemma DatalogLayoutsFit(p: LogicalPayload)
    requires WellFormedPayload(p) && InLayoutDomain(p)
    requires p.DatalogArray? || p.DatalogAnalysis? || p.RawTimeData? || p.ProtocolVersion?
    ensures |Layout(p)| <= LayoutSize(p.Tag())
    ensures !(p.ThresholdConfig? || p.ThresholdCommMode? || p.ThresholdMulti?) ==> |Layout(p)| == LayoutSize(p.Tag())
  {
  }

  /** The multipoint selections and preset payloads. */
  lemma SelectionLayoutsFit(p: LogicalPayload)
    requires WellFormedPayload(p) && InLayoutDomain(p)
    requires p.AxisSelection? || p.PresetSelection? || p.Windowing? || p.PresetConfiguration? || p.PresetRequest?
    ensures |Layout(p)| <= LayoutSize(p.Tag())
    ensures !(p.ThresholdConfig? || p.ThresholdCommMode? || p.ThresholdMulti?) ==> |Layout(p)| == LayoutSize(p.Tag())
  {
  }

  /** The window payloads. */
  lemma WindowLayoutsFit(p: LogicalPayload)
    requires WellFormedPayload(p) && InLayoutDomain(p)
    requires p.WindowConfiguration? || p.WindowRequest?
    ensures |Layout(p)| <= LayoutSize(p.Tag())
    ensures !(p.ThresholdConfig? || p.ThresholdCommMode? || p.ThresholdMulti?) ==> |Layout(p)| == LayoutSize(p.Tag())
  {
  }

  /** The multipoint threshold sub-frames. */
  lemma ThresholdLayoutsFit(p: LogicalPayload)
    requires WellFormedPayload(p) && InLayoutDomain(p)
    requires p.ThresholdConfig? || p.ThresholdLevel? || p.ThresholdCommMode? || p.ThresholdRequest? || p.ThresholdMulti?
    ensures |Layout(p)| <= LayoutSize(p.Tag())
    ensures !(p.ThresholdConfig? || p.ThresholdCommMode? || p.ThresholdMulti?) ==> |Layout(p)| == LayoutSize(p.Tag())
  {
  }

  /** Every layout fits in the longest layout of its type, and only the composite
      threshold and its configuration and communication sub-frames are shorter: a
      characteristic whose payload size is its type's longest layout receives every
      payload of that type whole. */
  lemma LayoutFits(p: LogicalPayload)
    requires WellFormedPayload(p) && InLayoutDomain(p)
    ensures |Layout(p)| <= LayoutSize(p.Tag())
    ensures !(p.ThresholdConfig? || p.ThresholdCommMode? || p.ThresholdMulti?) ==> |Layout(p)| == LayoutSize(p.Tag())
  {
    if p.MeasInterval? || p.TriggerMeas? || p.BleActivation? || p.Empty? || p.Untyped? || p.Battery? {
      ShortLayoutsFit(p);
    } else if p.Threshold? {
      RecordLayoutsFit(p);
    } else if p.Keepalive? || p.LoraMode? || p.LoraPercentage? {
      ByteLayoutsFit(p);
    } else if p.DatalogArray? || p.DatalogAnalysis? || p.RawTimeData? || p.ProtocolVersion? {
      DatalogLayoutsFit(p);
    } else if p.AxisSelection? || p.PresetSelection? || p.Windowing? || p.PresetConfiguration? || p.PresetRequest? {
      SelectionLayoutsFit(p);
    } else if p.WindowConfiguration? || p.WindowRequest? {
      WindowLayoutsFit(p);
    } else {
      ThresholdLayoutsFit(p);
    }
  }

  // ---------------------------------------------------------------------------
  // The formatter and the reference agree
  // ---------------------------------------------------------------------------

  /** The one-byte payloads and the measurement interval. */
  lemma SimpleFormatMatchesLayout(size: nat, p: LogicalPayload)
    requires WellFormedPayload(p) && InLayoutDomain(p) && |Layout(p)| <= size
    requires p.MeasInterval? || p.TriggerMeas? || p.BleActivation? || p.Battery? || p.LoraMode?
          || p.LoraPercentage? || p.ProtocolVersion?
    ensures Format(size, p) == Reference(size, p)
  {
    match p
    case MeasInterval(h, m, s) => MeasIntervalBytes(size, h, m, s);
    case TriggerMeas(d) => OneByteLayout(size, if d then 0x81 else 0x01);
    case BleActivation(c) => OneByteLayout(size, if c then 0x01 else 0x00);
    case Battery(r) => OneByteLayout(size, if r then 0xFF else 0x00);
    case LoraMode(m) => OneByteLayout(size, m);
    case LoraPercentage(x) => OneByteLayout(size, x);
    case ProtocolVersion(v) => OneByteLayout(size, v);
  }

  /** The threshold and keepalive payloads of the common registry. */
  lemma RecordFormatMatchesLayout(size: nat, p: LogicalPayload)
    requires WellFormedPayload(p) && InLayoutDomain(p) && |Layout(p)| <= size
    requires p.Threshold? || p.Keepalive?
    ensures Format(size, p) == Reference(size, p)
  {
    match p
    case Threshold(idData, paramSel, data32) => ThresholdBytes(size, idData, paramSel, data32);
    case Keepalive(interval, mode) =>
      if DecimalValue(interval) <= 255 && DecimalValue(mode) <= 255 {
        KeepaliveBytes(size, DecimalValue(interval), DecimalValue(mode));
      }
  }

  /** The datalog payloads and raw time data. */
  lemma DatalogFormatMatchesLayout(size: nat, p: LogicalPayload)
    requires WellFormedPayload(p) && InLayoutDomain(p) && |Layout(p)| <= size
    requires p.DatalogArray? || p.DatalogAnalysis? || p.RawTimeData?
    ensures Format(size, p) == Reference(size, p)
  {
    match p
    case DatalogArray(t, index, length) => HeadNumberTailBytes(size, t, index, length);
    case DatalogAnalysis(length) => DatalogAnalysisBytes(size, length);
    case RawTimeData(axis, index, length) => HeadNumberTailBytes(size, AxisBit(axis), index, length);
  }

  /** The multipoint axis, preset and windowing selections. */
  lemma SelectionFormatMatchesLayout(size: nat, p: LogicalPayload)
    requires WellFormedPayload(p) && InLayoutDomain(p) && |Layout(p)| <= size
    requires p.AxisSelection? || p.PresetSelection? || p.Windowing? || p.PresetRequest?
    ensures Format(size, p) == Reference(size, p)
  {
    match p
    case AxisSelection(axes) => AxisSelectionBytes(size, axes);
    case PresetSelection(main, secondary) =>
      if IsInByteRange(main) && IsInByteRange(secondary.GetOr(0xFF)) {
        PresetSelectionBytes(size, main, secondary);
      }
    case Windowing(f) =>
      if WindowingCode(f).Success? {
        OneByteLayout(size, WindowingCode(f).value);
      }
    case PresetRequest(presetId) => OneByteLayout(size, presetId);
  }

  /** The multipoint preset and window configurations. */
  lemma ConfigurationFormatMatchesLayout(size: nat, p: LogicalPayload)
    requires WellFormedPayload(p) && InLayoutDomain(p) && |Layout(p)| <= size
    requires p.PresetConfiguration? || p.WindowConfiguration? || p.WindowRequest?
    ensures Format(size, p) == Reference(size, p)
  {
    match p
    case PresetConfiguration(presetId, ff, bw, h, m, s) =>
      if IsInByteRange(h) && IsInByteRange(m) && IsInByteRange(s) {
        PresetConfigurationBytes(size, presetId, ff, bw, h, m, s);
      }
    case WindowConfiguration(presetId, windowId, enable, peakCount, fMin, fMax) =>
      if WindowConfigurationError(presetId, windowId, peakCount, fMin, fMax).None? {
        WindowConfigurationBytes(size, presetId, windowId, enable, peakCount, fMin, fMax);
      }
    case WindowRequest(presetId, windowId) =>
      if IsInByteRange(presetId) && IsInRangeInclusive(1, 8, windowId) {
        WindowRequestBytes(size, presetId, windowId);
      }
  }

  /** The multipoint threshold sub-frames. */
  lemma ThresholdFormatMatchesLayout(size: nat, p: LogicalPayload)
    requires WellFormedPayload(p) && InLayoutDomain(p) && |Layout(p)| <= size
    requires p.ThresholdConfig? || p.ThresholdLevel? || p.ThresholdCommMode? || p.ThresholdRequest?
    ensures Format(size, p) == Reference(size, p)
  {
    match p
    case ThresholdConfig(id, ev, en, dir, ac, ble, lora) => ThresholdConfigBytes(size, id.Code(), ev, en, dir, ac, ble, lora);
    case ThresholdLevel(id, bits) => ThresholdLevelBytes(size, id.Code(), bits);
    case ThresholdCommMode(id, ble, lora) => ThresholdCommModeBytes(size, id.Code(), ble, lora);
    case ThresholdRequest(id, param) => ThresholdRequestBytes(size, id.Code(), param);
  }

  /** For every payload in the layout domain and every buffer at least as long as its
      layout, the formatter raises the payload's first range error or writes its
      layout followed by zeros. */
  lemma FormatMatchesLayout(size: nat, p: LogicalPayload)
    requires WellFormedPayload(p) && InLayoutDomain(p) && |Layout(p)| <= size
    ensures Format(size, p) == Reference(size, p)
  {
    if p.ThresholdConfig? || p.ThresholdLevel? || p.ThresholdCommMode? || p.ThresholdRequest? {
      ThresholdFormatMatchesLayout(size, p);
    } else if p.AxisSelection? || p.PresetSelection? || p.Windowing? || p.PresetRequest? {
      SelectionFormatMatchesLayout(size, p);
    } else if p.PresetConfiguration? || p.WindowConfiguration? || p.WindowRequest? {
      ConfigurationFormatMatchesLayout(size, p);
    } else if p.Threshold? || p.Keepalive? {
      RecordFormatMatchesLayout(size, p);
    } else if p.DatalogArray? || p.DatalogAnalysis? || p.RawTimeData? {
      DatalogFormatMatchesLayout(size, p);
    } else if !(p.Empty? || p.Untyped? || p.ThresholdMulti?) {
      SimpleFormatMatchesLayout(size, p);
    }
  }
}
