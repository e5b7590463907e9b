/** The sensor schemas: the characteristic descriptor, the operations, the
    characteristic type tags of each sensor family, and the closed sum of the payloads
    a user can ask to encode. */
module Sensors {
  import opened Wrappers
  import opened Helper
  import C = CharacTypes

  // ---------------------------------------------------------------------------
  // Operations and characteristics
  // ---------------------------------------------------------------------------

  datatype Operation = Read | WriteRead | Write
  {
    /** The string the operation is written as. */
    function Symbol(): string {
      match this
      case Read => "r"
      case WriteRead => "wr"
      case Write => "w"
    }
  }

  /** Each operation is named by its symbol. */
  lemma OperationSymbols(op: Operation)
    ensures OperationOf(op.Symbol()) == Some(op)
  {
  }

  /** The operation a symbol names, if any. */
  function OperationOf(s: string): (r: Option<Operation>)
    ensures r.Some? ==> r.value.Symbol() == s
  {
    if s == "r" then Some(Read)
    else if s == "wr" then Some(WriteRead)
    else if s == "w" then Some(Write)
    else None
  }

  /** A characteristic: its 16-bit UUID as hex text, the decimal size of its write
      payload, its LoRa access rights and its type tag. An absent UUID or rights text
      is "" (the display name and the BLE rights are never consulted by the encoder). */
  datatype Characteristic = Characteristic(uuid: string, payloadSize: string, lora: string, kind: C.TypeField)

  /** The LoRa rights allow a write: the rights text matches `/(w|wr)/`, that is, it
      contains a 'w'. */
  predicate LoraWritable(rights: string) {
    'w' in rights
  }

  /** The size text is digits, so the payload buffer has a definite length. */
  predicate WellFormedCharacteristic(c: Characteristic) {
    IsHexString(c.uuid) && IsDigits(c.payloadSize)
  }

  // ---------------------------------------------------------------------------
  // Multipoint threshold identifiers
  // ---------------------------------------------------------------------------

  datatype Axis = X | Y | Z

  type WindowNumber = w: int | 1 <= w <= 8 witness 1

  datatype ThresholdMeasure = TsMagRms | TsP2p | FsMagnitudeRms | FsVelocityRms | WindowRms(window: WindowNumber)

  /** `Multipoint_Threshold_ID_DATA`: a threshold on one measure of one axis, or the
      temperature threshold. */
  datatype ThresholdId = AxisThreshold(axis: Axis, measure: ThresholdMeasure) | Temperature
  {
    /** The identifier byte: 0x10, 0x30 or 0x50 for the axis plus the measure's
        offset (0 to 3, then 3 + window), and 0x02 for temperature. */
    function Code(): (c: int)
      ensures 0 <= c < 256
      ensures IdOfCode(c) == Some(this)
    {
      match this
      case Temperature => 0x02
      case AxisThreshold(a, m) => AxisBase(a) + MeasureOffset(m)
    }
  }

  function AxisBase(a: Axis): int {
    match a
    case X => 0x10
    case Y => 0x30
    case Z => 0x50
  }

  function MeasureOffset(m: ThresholdMeasure): (k: int)
    ensures 0 <= k < 12
  {
    match m
    case TsMagRms => 0
    case TsP2p => 1
    case FsMagnitudeRms => 2
    case FsVelocityRms => 3
    case WindowRms(w) => 3 + w
  }

  function MeasureOfOffset(k: int): (m: ThresholdMeasure)
    requires 0 <= k < 12
    ensures MeasureOffset(m) == k
  {
    if k == 0 then TsMagRms
    else if k == 1 then TsP2p
    else if k == 2 then FsMagnitudeRms
    else if k == 3 then FsVelocityRms
    else WindowRms(k - 3)
  }

  /** The identifier an identifier byte names, if any. */
  function IdOfCode(c: int): (r: Option<ThresholdId>)
  {
    if c == 0x02 then Some(Temperature)
    else if 0x10 <= c < 0x1C then Some(AxisThreshold(X, MeasureOfOffset(c - 0x10)))
    else if 0x30 <= c < 0x3C then Some(AxisThreshold(Y, MeasureOfOffset(c - 0x30)))
    else if 0x50 <= c < 0x5C then Some(AxisThreshold(Z, MeasureOfOffset(c - 0x50)))
    else None
  }

  /** Distinct identifiers have distinct bytes. */
  lemma CodeInjective(a: ThresholdId, b: ThresholdId)
    requires a.Code() == b.Code()
    ensures a == b
  {
    assert IdOfCode(a.Code()) == Some(a) && IdOfCode(b.Code()) == Some(b);
  }

  /** The identifier bytes are exactly 0x02 and the three ranges 0x10-0x1B, 0x30-0x3B
      and 0x50-0x5B. */
  lemma CodeRanges(c: int)
    ensures (exists id: ThresholdId :: id.Code() == c) <==>
      (c == 0x02 || 0x10 <= c <= 0x1B || 0x30 <= c <= 0x3B || 0x50 <= c <= 0x5B)
  {
    var r := IdOfCode(c);
    if r.Some? {
      assert r.value.Code() == c by {
        if c != 0x02 {
          var m := MeasureOfOffset(c - AxisBase(r.value.axis));
          assert r.value.measure == m;
        }
      }
    }
    if exists id: ThresholdId :: id.Code() == c {
      var id: ThresholdId :| id.Code() == c;
      assert IdOfCode(c) == Some(id);
    }
  }

  // ---------------------------------------------------------------------------
  // Payload field enums
  // ---------------------------------------------------------------------------

  datatype Direction = Above | Below

  /** The BLE communication mode of a threshold: "burst+periodic", "burst", "silent",
      "periodic". */
  datatype BleMode = BurstPeriodic | Burst | Silent | Periodic

  /** The LoRa communication mode of a threshold: only "on_measurement". */
  datatype ThresholdLoraMode = OnMeasurement

  /** The parameter a threshold frame selects: "ths_config", "ths_level",
      "communication_mode". */
  datatype ParamSel = ThsConfig | ThsLevel | CommunicationMode

  // ---------------------------------------------------------------------------
  // Payloads
  // ---------------------------------------------------------------------------

  /** `UserPayloadType` with `MultiFramePayload`: one constructor per payload
      interface. Numbers are integers; a threshold level is carried as the 32-bit
      pattern of its single-precision float. `Empty` is the `{type: "empty"}` object
      and `Untyped` a payload object without a type. */
  datatype LogicalPayload =
    | MeasInterval(hour: string, minute: string, second: string)
    | TriggerMeas(disconnect: bool)
    | BleActivation(checked: bool)
    | Empty
    | Untyped
    | Threshold(idData: string, paramSel: string, data32: string)
    | Battery(reset: bool)
    | Keepalive(keepaliveInterval: string, keepaliveMode: string)
    | DatalogArray(datalogType: int, index: int, length: int)
    | DatalogAnalysis(analysisLength: int)
    | LoraMode(mode: int)
    | LoraPercentage(percentage: int)
    | AxisSelection(axes: seq<Axis>)
    | PresetSelection(mainPreset: int, secondaryPreset: Option<int>)
    | Windowing(windowFunction: string)
    | PresetConfiguration(presetId: int, frameFormat: int, bandwidthMode: int,
                          intervalHour: int, intervalMinute: int, intervalSecond: int)
    | PresetRequest(presetId: int)
    | WindowConfiguration(presetId: int, windowId: int, enable: bool, peakCount: int,
                          frequencyMin: int, frequencyMax: int)
    | WindowRequest(presetId: int, windowId: int)
    | ThresholdConfig(id: ThresholdId, eventFlag: bool, enabled: bool, direction: Direction,
                      autoClear: bool, setBleMode: bool, setLoraMode: bool)
    | ThresholdLevel(id: ThresholdId, levelBits: int)
    | ThresholdCommMode(id: ThresholdId, bleMode: BleMode, loraMode: ThresholdLoraMode)
    | ThresholdRequest(id: ThresholdId, param: ParamSel)
    | ThresholdMulti(multiFrame: bool, id: ThresholdId, enabled: bool, direction: Direction,
                     autoClear: bool, eventFlag: bool, setBleMode: bool, setLoraMode: bool,
                     levelBits: int, bleMode: BleMode, loraMode: ThresholdLoraMode)
    | RawTimeData(axis: Axis, index: int, length: int)
    | ProtocolVersion(version: int)
  {
    /** The payload's `type` field. */
    function Tag(): C.TypeField {
      match this
      case MeasInterval(_, _, _) => C.Tagged(C.MeasInterval)
      case TriggerMeas(_) => C.Tagged(C.TriggerMeasurement)
      case BleActivation(_) => C.Tagged(C.BleActivation)
      case Empty => C.EmptyTag
      case Untyped => C.NoTag
      case Threshold(_, _, _) => C.Tagged(C.Threshold)
      case Battery(_) => C.Tagged(C.Battery)
      case Keepalive(_, _) => C.Tagged(C.Keepalive)
      case DatalogArray(_, _, _) => C.Tagged(C.DatalogData)
      case DatalogAnalysis(_) => C.Tagged(C.DatalogAnalysis)
      case LoraMode(_) => C.Tagged(C.LoraMode)
      case LoraPercentage(_) => C.Tagged(C.LoraPercentage)
      case AxisSelection(_) => C.Tagged(C.AxisSelection)
      case PresetSelection(_, _) => C.Tagged(C.PresetSelection)
      case Windowing(_) => C.Tagged(C.WindowingFunction)
      case PresetConfiguration(_, _, _, _, _, _) => C.Tagged(C.PresetConfiguration)
      case PresetRequest(_) => C.Tagged(C.PresetRequest)
      case WindowConfiguration(_, _, _, _, _, _) => C.Tagged(C.WindowConfiguration)
      case WindowRequest(_, _) => C.Tagged(C.WindowRequest)
      case ThresholdConfig(_, _, _, _, _, _, _) => C.Tagged(C.MultipointThreshold)
      case ThresholdLevel(_, _) => C.Tagged(C.MultipointThreshold)
      case ThresholdCommMode(_, _, _) => C.Tagged(C.MultipointThreshold)
      case ThresholdRequest(_, _) => C.Tagged(C.MultipointThresholdRequest)
      case ThresholdMulti(_, _, _, _, _, _, _, _, _, _, _) => C.Tagged(C.MultipointThresholdMulti)
      case RawTimeData(_, _, _) => C.Tagged(C.RawTimeData)
      case ProtocolVersion(_) => C.Tagged(C.ProtocolVersion)
    }
  }

  /** `isMultiFramePayload`: the payload has a `multi_frame` field set to true, which
      only the composite multipoint threshold has. */
  predicate IsMultiFramePayload(p: LogicalPayload) {
    p.ThresholdMulti? && p.multiFrame
  }

  /** The digit-string fields hold digits, and the numbers packed by
      `numberToByteArray` or as a 32-bit float pattern fit in 32 bits. */
  predicate WellFormedPayload(p: LogicalPayload) {
    match p
    case MeasInterval(h, m, s) => IsDigits(h) && IsDigits(m) && IsDigits(s)
    case Threshold(id, sel, data) => IsHexString(id) && IsHexString(sel) && IsHexString(data)
    case Keepalive(interval, mode) => IsDigits(interval) && IsDigits(mode)
    case ThresholdLevel(_, bits) => 0 <= bits < 0x1_0000_0000
    case ThresholdMulti(_, _, _, _, _, _, _, _, bits, _, _) => 0 <= bits < 0x1_0000_0000
    case _ => true
  }

  /** The literal types of the payload interfaces, which the encoder itself does not
      check: window 1..8, frame format 0..2, bandwidth mode 0..12, protocol version
      1 or 2, `event_flag` false and `multi_frame` true. */
  predicate WellTyped(p: LogicalPayload) {
    match p
    case PresetConfiguration(_, ff, bw, _, _, _) => 0 <= ff <= 2 && 0 <= bw <= 12
    case WindowConfiguration(_, w, _, _, _, _) => 1 <= w <= 8
    case WindowRequest(_, w) => 1 <= w <= 8
    case ThresholdConfig(_, ev, _, _, _, _, _) => !ev
    case ThresholdMulti(mf, _, _, _, _, ev, _, _, _, _, _) => mf && !ev
    case ProtocolVersion(v) => v == 1 || v == 2
    case _ => true
  }
}
