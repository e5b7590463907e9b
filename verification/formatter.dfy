/** `payloadFormatter`: writes a payload into a zero-filled buffer of the
    characteristic's payload size, raising the first range error it meets. */
module Formatter {
  import opened Wrappers
  import opened Errors
  import opened Helper
  import opened Sensors

  // ---------------------------------------------------------------------------
  // Uint8Array element access
  // ---------------------------------------------------------------------------

  type Buffer = seq<uint8>

  /** `buf[i] = v`: the value wraps modulo 256; a store past the end is ignored. */
  function Store(buf: Buffer, i: nat, v: int): (r: Buffer)
    ensures |r| == |buf|
    ensures forall j :: 0 <= j < |r| && j != i ==> r[j] == buf[j]
    ensures i < |r| ==> r[i] as int == v % 256
  {
    if i < |buf| then buf[i := ToUint8(v)] else buf
  }

  /** `buf[i]` as an operand of a bitwise operator or of `insertValueInByte`: past the
      end it is `undefined`, which both treat as 0. */
  function ElementOrZero(buf: Buffer, i: nat): (v: int)
    ensures 0 <= v < 256
    ensures i >= |buf| ==> v == 0
  {
    if i < |buf| then buf[i] as int else 0
  }

  /** `buf[i]` as an operand of `is_in_byte_range`: past the end it is `undefined`,
      which no comparison accepts. */
  function Element(buf: Buffer, i: nat): (v: Option<int>)
    ensures v.Some? <==> i < |buf|
  {
    if i < |buf| then Some(buf[i] as int) else None
  }

  /** `buf[i] |= mask`. */
  function OrAt(buf: Buffer, i: nat, mask: int): (r: Buffer)
    requires 0 <= mask
    ensures |r| == |buf|
  {
    Store(buf, i, BitOr(ElementOrZero(buf, i), mask))
  }

  /** `if (on) buf[i] |= mask`. */
  function OrIf(buf: Buffer, i: nat, on: bool, mask: int): (r: Buffer)
    requires 0 <= mask
    ensures |r| == |buf|
  {
    if on then OrAt(buf, i, mask) else buf
  }

  /** `buf.set(bytes, offset)`: copies the bytes in place, or raises a RangeError
      when they would run past the end. */
  function SetAt(buf: Buffer, bytes: seq<uint8>, offset: nat): (r: Result<Buffer, Error>)
    ensures r.Success? <==> offset + |bytes| <= |buf|
    ensures r.Failure? ==> r.error == TypedArrayRange
    ensures r.Success? ==>
      && |r.value| == |buf|
      && r.value[..offset] == buf[..offset]
      && r.value[offset..offset + |bytes|] == bytes
      && r.value[offset + |bytes|..] == buf[offset + |bytes|..]
  {
    if offset + |bytes| <= |buf| then
      Success(buf[..offset] + bytes + buf[offset + |bytes|..])
    else
      Failure(TypedArrayRange)
  }

  // ---------------------------------------------------------------------------
  // Enum-to-byte maps
  // ---------------------------------------------------------------------------

  /** The axis bit of axis selection and of raw time data: x 0x04, y 0x02, z 0x01. */
  function AxisBit(a: Axis): int {
    match a
    case X => 0x04
    case Y => 0x02
    case Z => 0x01
  }

  function BleModeCode(m: BleMode): int {
    match m
    case BurstPeriodic => 0x00
    case Burst => 0x01
    case Silent => 0x02
    case Periodic => 0x03
  }

  function LoraModeCode(m: ThresholdLoraMode): int {
    match m
    case OnMeasurement => 0x00
  }

  function ParamSelCode(p: ParamSel): int {
    match p
    case ThsConfig => 0x00
    case ThsLevel => 0x01
    case CommunicationMode => 0x03
  }

  /** The windowing function byte: none 0, hann 1, flattop 2, anything else rejected. */
  function WindowingCode(f: string): (r: Result<int, Error>)
    ensures r.Failure? <==> f !in {"none", "hann", "flattop"}
    ensures r.Failure? ==> r.error == WindowingFunction
  {
    if f == "none" then Success(0x00)
    else if f == "hann" then Success(0x01)
    else if f == "flattop" then Success(0x02)
    else Failure(WindowingFunction)
  }

  // ---------------------------------------------------------------------------
  // One function per payload variant
  // ---------------------------------------------------------------------------

  /** Legacy threshold: id and parameter parsed from hex, then four data bytes. */
  function FormatThreshold(buf: Buffer, idData: string, paramSel: string, data32: string): (r: Result<Buffer, Error>)
    requires IsHexString(idData) && IsHexString(paramSel) && IsHexString(data32)
    ensures r.Success? ==> |r.value| == |buf|
    ensures r.Failure? ==> r.error == TypedArrayRange
  {
    var b := Store(Store(buf, 0, HexValue(idData)), 1, HexValue(paramSel));
    SetAt(b, ToByteArray(data32, 4), 2)
  }

  /** Keepalive: the parsed interval inserted at bit 0, then the parsed mode at bit 3,
      of byte 0. */
  function FormatKeepalive(buf: Buffer, interval: nat, mode: nat): (r: Result<Buffer, Error>)
    ensures r.Success? ==> |r.value| == |buf|
    ensures r.Failure? <==> interval > 255 || mode > 255
    ensures r.Failure? ==> r.error == ValueOutOfRange
  {
    var first :- InsertValueInByte(ElementOrZero(buf, 0), interval, 0);
    var b := Store(buf, 0, first);
    var second :- InsertValueInByte(ElementOrZero(b, 0), mode, 3);
    Success(Store(b, 0, second))
  }

  function FormatMeasInterval(buf: Buffer, hour: string, minute: string, second: string): (r: Buffer)
    requires IsDigits(hour) && IsDigits(minute) && IsDigits(second)
    ensures |r| == |buf|
  {
    Store(Store(Store(buf, 0, DecimalValue(hour)), 1, DecimalValue(minute)), 2, DecimalValue(second))
  }

  /** A one-byte head, a 2-byte big-endian number from offset 1, then a byte at offset
      3: the shape of datalog data and raw time data. */
  function FormatHeadNumberTail(buf: Buffer, head: int, n: int, tail: int): (r: Result<Buffer, Error>)
    ensures r.Success? ==> |r.value| == |buf|
    ensures r.Failure? ==> r.error == TypedArrayRange
  {
    var b :- SetAt(Store(buf, 0, head), NumberToByteArray(n, 2), 1);
    Success(Store(b, 3, tail))
  }

  function FormatDatalogAnalysis(buf: Buffer, length: int): (r: Result<Buffer, Error>)
    ensures r.Success? ==> |r.value| == |buf|
    ensures r.Failure? ==> r.error == TypedArrayRange
  {
    SetAt(Store(buf, 0, 0x02), NumberToByteArray(length, 2), 1)
  }

  function FormatAxisSelection(buf: Buffer, axes: seq<Axis>): (r: Buffer)
    ensures |r| == |buf|
  {
    OrIf(OrIf(OrIf(buf, 0, X in axes, 0x04), 0, Y in axes, 0x02), 0, Z in axes, 0x01)
  }

  /** Preset selection, with the secondary preset checked as a value. */
  function FormatPresetSelection(buf: Buffer, main: int, secondary: Option<int>): (r: Result<Buffer, Error>)
    ensures r.Success? ==> |r.value| == |buf|
    ensures r.Failure? <==> !IsInByteRange(main) || !IsInByteRange(secondary.GetOr(0xFF))
    ensures r.Failure? ==> r.error == PresetRange
  {
    var b := Store(buf, 0, main);
    if !IsInByteRange(main) then Failure(PresetRange)
    else
      var second := secondary.GetOr(0xFF);
      var b := Store(b, 1, second);
      if !IsInByteRange(second) then Failure(PresetRange)
      else Success(b)
  }

  /** Preset selection as `payloadFormatter` writes it: the second check reads back the byte
      just stored, which is always in byte range when the buffer has a byte 1 and
      `undefined` (never in range) when it has not. */
  function FormatPresetSelectionAsWritten(buf: Buffer, main: int, secondary: Option<int>): (r: Result<Buffer, Error>)
    ensures r.Success? ==> |r.value| == |buf|
    ensures r.Failure? <==> !IsInByteRange(main) || |buf| < 2
    ensures r.Failure? ==> r.error == PresetRange
  {
    var b := Store(buf, 0, main);
    if !IsInByteRange(main) then Failure(PresetRange)
    else
      var b := Store(b, 1, secondary.GetOr(0xFF));
      var readBack := Element(b, 1);
      if !(readBack.Some? && IsInByteRange(readBack.value)) then Failure(PresetRange)
      else Success(b)
  }

  function FormatWindowing(buf: Buffer, f: string): (r: Result<Buffer, Error>)
    ensures r.Success? ==> |r.value| == |buf|
    ensures r.Failure? <==> f !in {"none", "hann", "flattop"}
    ensures r.Failure? ==> r.error == WindowingFunction
  {
    var code :- WindowingCode(f);
    Success(Store(buf, 0, code))
  }

  /** Preset configuration. The hour is checked first with the preset error; its
      second check, with the time error, can then no longer fail. */
  function FormatPresetConfiguration(buf: Buffer, presetId: int, frameFormat: int, bandwidthMode: int,
                                     hour: int, minute: int, second: int): (r: Result<Buffer, Error>)
    ensures r.Success? ==> |r.value| == |buf|
    ensures r.Failure? <==> !IsInByteRange(hour) || !IsInByteRange(minute) || !IsInByteRange(second)
    ensures !IsInByteRange(hour) ==> r == Failure(PresetRange)
    ensures IsInByteRange(hour) && r.Failure? ==> r.error == TimeOutOfRange
  {
    if !IsInByteRange(hour) then Failure(PresetRange)
    else
      var b := Store(Store(Store(buf, 0, presetId), 1, frameFormat), 2, bandwidthMode);
      if !IsInByteRange(hour) then Failure(TimeOutOfRange)
      else
        var b := Store(b, 3, hour);
        if !IsInByteRange(minute) then Failure(TimeOutOfRange)
        else
          var b := Store(b, 4, minute);
          if !IsInByteRange(second) then Failure(TimeOutOfRange)
          else Success(Store(b, 5, second))
  }

  function FormatPresetRequest(buf: Buffer, presetId: int): (r: Result<Buffer, Error>)
    ensures r.Success? ==> |r.value| == |buf|
    ensures r.Failure? <==> !IsInByteRange(presetId)
    ensures r.Failure? ==> r.error == PresetRange
  {
    if !IsInByteRange(presetId) then Failure(PresetRange)
    else Success(Store(buf, 0, presetId))
  }

  /** The checks of a window configuration, in the order `payloadFormatter` makes them. */
  function WindowConfigurationError(presetId: int, windowId: int, peakCount: int,
                                    frequencyMin: int, frequencyMax: int): Option<Error>
  {
    if !IsInByteRange(presetId) then Some(PresetRange)
    else if !IsInRangeInclusive(1, 8, windowId) then Some(WindowRange)
    else if !IsInRangeInclusive(1, 64, peakCount) then Some(PeakRange)
    else if frequencyMin >= frequencyMax then Some(FrequencyBoundaries)
    else if !IsInRangeInclusive(0, 20800, frequencyMin) || !IsInRangeInclusive(0, 20800, frequencyMax) then Some(FrequencyRange)
    else None
  }

  function FormatWindowConfiguration(buf: Buffer, presetId: int, windowId: int, enable: bool,
                                     peakCount: int, frequencyMin: int, frequencyMax: int): (r: Result<Buffer, Error>)
    ensures r.Success? ==> |r.value| == |buf|
    ensures WindowConfigurationError(presetId, windowId, peakCount, frequencyMin, frequencyMax).Some? ==>
      r == Failure(WindowConfigurationError(presetId, windowId, peakCount, frequencyMin, frequencyMax).value)
    ensures WindowConfigurationError(presetId, windowId, peakCount, frequencyMin, frequencyMax).None? ==>
      (r.Success? <==> |buf| >= 8) && (r.Failure? ==> r.error == TypedArrayRange)
  {
    if !IsInByteRange(presetId) then Failure(PresetRange)
    else
      var b := Store(buf, 0, presetId);
      if !IsInRangeInclusive(1, 8, windowId) then Failure(WindowRange)
      else
        var b := Store(Store(b, 1, windowId), 2, if enable then 0x01 else 0x00);
        if !IsInRangeInclusive(1, 64, peakCount) then Failure(PeakRange)
        else
          var b := Store(b, 3, peakCount);
          if frequencyMin >= frequencyMax then Failure(FrequencyBoundaries)
          else if !IsInRangeInclusive(0, 20800, frequencyMin) || !IsInRangeInclusive(0, 20800, frequencyMax) then
            Failure(FrequencyRange)
          else
            var b := Store(b, 3, peakCount);
            var b :- SetAt(b, NumberToByteArray(frequencyMin, 2), 4);
            SetAt(b, NumberToByteArray(frequencyMax, 2), 6)
  }

  function FormatWindowRequest(buf: Buffer, presetId: int, windowId: int): (r: Result<Buffer, Error>)
    ensures r.Success? ==> |r.value| == |buf|
    ensures r.Failure? <==> !IsInByteRange(presetId) || !IsInRangeInclusive(1, 8, windowId)
    ensures !IsInByteRange(presetId) ==> r == Failure(PresetRange)
    ensures IsInByteRange(presetId) && r.Failure? ==> r.error == WindowRange
  {
    if !IsInByteRange(presetId) then Failure(PresetRange)
    else
      var b := Store(buf, 0, presetId);
      if !IsInRangeInclusive(1, 8, windowId) then Failure(WindowRange)
      else Success(Store(b, 1, windowId))
  }

  /** Threshold configuration: byte 1 is 0 and byte 2 collects the flags. */
  function FormatThresholdConfig(buf: Buffer, code: int, eventFlag: bool, enabled: bool, direction: Direction,
                                 autoClear: bool, setBleMode: bool, setLoraMode: bool): (r: Buffer)
    ensures |r| == |buf|
  {
    var b := Store(Store(buf, 0, code), 1, 0x00);
    var b := OrIf(OrIf(OrIf(b, 2, eventFlag, 0x80), 2, enabled, 0x40), 2, direction == Above, 0x20);
    OrIf(OrIf(OrIf(b, 2, autoClear, 0x10), 2, setBleMode, 0x04), 2, setLoraMode, 0x02)
  }

  /** Threshold level: byte 1 is 1 and the 32-bit float pattern follows big-endian. */
  function FormatThresholdLevel(buf: Buffer, code: int, levelBits: int): (r: Result<Buffer, Error>)
    requires 0 <= levelBits < 0x1_0000_0000
    ensures r.Success? <==> |buf| >= 6
    ensures r.Success? ==> |r.value| == |buf|
    ensures r.Failure? ==> r.error == TypedArrayRange
  {
    SetAt(Store(Store(buf, 0, code), 1, 0x01), BigEndian(levelBits, 4), 2)
  }

  function FormatThresholdCommMode(buf: Buffer, code: int, bleMode: BleMode, loraMode: ThresholdLoraMode): (r: Buffer)
    ensures |r| == |buf|
  {
    Store(Store(Store(Store(buf, 0, code), 1, 0x03), 2, BleModeCode(bleMode)), 3, LoraModeCode(loraMode))
  }

  function FormatThresholdRequest(buf: Buffer, code: int, param: ParamSel): (r: Buffer)
    ensures |r| == |buf|
  {
    Store(Store(buf, 0, code), 1, ParamSelCode(param))
  }

  // ---------------------------------------------------------------------------
  // The dispatch
  // ---------------------------------------------------------------------------

  /** The cases of the dispatch on the payload tag that the as-written and the
      corrected formatter share; `None` for the tags they treat differently
      (preset selection and raw time data). */
  function FormatShared(buf: Buffer, p: LogicalPayload): (r: Option<Result<Buffer, Error>>)
    requires WellFormedPayload(p)
    ensures r.None? <==> p.PresetSelection? || p.RawTimeData?
    ensures r.Some? && r.value.Success? ==> |r.value.value| == |buf|
    ensures r.Some? ==> (r.value == Failure(UnknownCharacType) <==> p.Empty? || p.Untyped? || p.ThresholdMulti?)
  {
    match p
    case Threshold(idData, paramSel, data32) => Some(FormatThreshold(buf, idData, paramSel, data32))
    case BleActivation(checked) => Some(Success(Store(buf, 0, if checked then 1 else 0)))
    case Battery(reset) => Some(Success(Store(buf, 0, if reset then 0xFF else 0)))
    case Keepalive(interval, mode) => Some(FormatKeepalive(buf, DecimalValue(interval), DecimalValue(mode)))
    case LoraMode(mode) => Some(Success(Store(buf, 0, mode)))
    case LoraPercentage(percentage) => Some(Success(Store(buf, 0, percentage)))
    case TriggerMeas(disconnect) => Some(Success(Store(buf, 0, if disconnect then 0x81 else 0x01)))
    case MeasInterval(hour, minute, second) => Some(Success(FormatMeasInterval(buf, hour, minute, second)))
    case DatalogArray(datalogType, index, length) => Some(FormatHeadNumberTail(buf, datalogType, index, length))
    case DatalogAnalysis(length) => Some(FormatDatalogAnalysis(buf, length))
    case AxisSelection(axes) => Some(Success(FormatAxisSelection(buf, axes)))
    case Windowing(f) => Some(FormatWindowing(buf, f))
    case PresetConfiguration(presetId, frameFormat, bandwidthMode, hour, minute, second) =>
      Some(FormatPresetConfiguration(buf, presetId, frameFormat, bandwidthMode, hour, minute, second))
    case PresetRequest(presetId) => Some(FormatPresetRequest(buf, presetId))
    case WindowConfiguration(presetId, windowId, enable, peakCount, frequencyMin, frequencyMax) =>
      Some(FormatWindowConfiguration(buf, presetId, windowId, enable, peakCount, frequencyMin, frequencyMax))
    case WindowRequest(presetId, windowId) => Some(FormatWindowRequest(buf, presetId, windowId))
    case ThresholdConfig(id, eventFlag, enabled, direction, autoClear, setBleMode, setLoraMode) =>
      Some(Success(FormatThresholdConfig(buf, id.Code(), eventFlag, enabled, direction, autoClear, setBleMode, setLoraMode)))
    case ThresholdLevel(id, levelBits) => Some(FormatThresholdLevel(buf, id.Code(), levelBits))
    case ThresholdCommMode(id, bleMode, loraMode) => Some(Success(FormatThresholdCommMode(buf, id.Code(), bleMode, loraMode)))
    case ThresholdRequest(id, param) => Some(Success(FormatThresholdRequest(buf, id.Code(), param)))
    case ProtocolVersion(version) => Some(Success(Store(buf, 0, version)))
    case PresetSelection(_, _) => None
    case RawTimeData(_, _, _) => None
    case Empty => Some(Failure(UnknownCharacType))
    case Untyped => Some(Failure(UnknownCharacType))
    case ThresholdMulti(_, _, _, _, _, _, _, _, _, _, _) => Some(Failure(UnknownCharacType))
  }

  /** `payloadFormatter` with raw time data dispatched on its own tag and the secondary
      preset checked as a value: the formatter the encoder uses. */
  function Format(size: nat, p: LogicalPayload): (r: Result<seq<uint8>, Error>)
    requires WellFormedPayload(p)
    ensures r.Success? ==> |r.value| == size
    ensures r == Failure(UnknownCharacType) <==> p.Empty? || p.Untyped? || p.ThresholdMulti?
  {
    var buf := Zeros(size);
    match p
    case PresetSelection(main, secondary) => FormatPresetSelection(buf, main, secondary)
    case RawTimeData(axis, index, length) => FormatHeadNumberTail(buf, AxisBit(axis), index, length)
    case _ => FormatShared(buf, p).value
  }

  /** `payloadFormatter` as written: the raw time data case is labelled with a member
      the multipoint enum lacks, so its label is `undefined`. "raw_time_data" falls to
      the unknown-type error, while a payload with no type takes that branch with every
      field undefined: no axis byte, the two zero bytes `numberToByteArray` gives for
      an undefined index set at offset 1, and an undefined length stored as 0. The
      secondary preset check reads the stored byte back. */
  function FormatAsWritten(size: nat, p: LogicalPayload): (r: Result<seq<uint8>, Error>)
    requires WellFormedPayload(p)
    ensures r.Success? ==> |r.value| == size
    ensures r == Failure(UnknownCharacType) <==> p.Empty? || p.ThresholdMulti? || p.RawTimeData?
    ensures p.Untyped? ==> (r.Success? <==> 3 <= size)
    ensures p.Untyped? && r.Success? ==> r.value == Zeros(size)
    ensures p.Untyped? && r.Failure? ==> r.error == TypedArrayRange
  {
    var buf := Zeros(size);
    match p
    case PresetSelection(main, secondary) => FormatPresetSelectionAsWritten(buf, main, secondary)
    case RawTimeData(_, _, _) => Failure(UnknownCharacType)
    case Untyped =>
      var b :- SetAt(buf, Zeros(2), 1);
      Success(Store(b, 3, 0))
    case _ => FormatShared(buf, p).value
  }
}
