/** `encode` and `encode_multi_frame`: a frame is a three-byte header (operation code
    and UUID) followed, for a write, by the formatted payload; the LoRaWAN port depends
    on the family the characteristic's type belongs to. */
module EncoderLib {
  import opened Wrappers
  import opened Errors
  import opened Helper
  import opened Sensors
  import opened Formatter
  import Base64
  import C = CharacTypes

  // ---------------------------------------------------------------------------
  // Frames
  // ---------------------------------------------------------------------------

  /** `Frame`: the bytes sent and the LoRaWAN port they go to. */
  datatype Frame = Frame(bytes: seq<uint8>, fport: nat)
  {
    /** `toHexString`: each byte as two upper-case hex digits, separated by spaces. */
    function ToHexString(): (s: string)
      ensures |bytes| > 0 ==> |s| == 3 * |bytes| - 1
      ensures forall i :: 0 <= i < |bytes| ==> 3 * i + 2 <= |s| && s[3 * i..3 * i + 2] == ToHex(bytes[i])
      ensures forall i :: 0 <= i < |bytes| - 1 ==> s[3 * i + 2] == ' '
    {
      var s := DisplayHex(bytes, " ");
      forall i | 0 <= i < |bytes|
        ensures 3 * i + 2 <= |s| && s[3 * i..3 * i + 2] == ToHex(bytes[i])
        ensures i < |bytes| - 1 ==> s[3 * i + 2] == ' '
      {
        DisplayHexPositions(bytes, i);
      }
      s
    }

    /** `toBase64`: the base64 text of the bytes, which decodes back to them. */
    function ToBase64(): (s: string)
      ensures Base64.IsEncoding(s) && Base64.Decode(s) == bytes
      ensures |s| == 4 * ((|bytes| + 2) / 3)
    {
      Base64.DecodeEncode(bytes);
      Base64.EncodeIsEncoding(bytes);
      Base64.Encode(bytes)
    }
  }

  // ---------------------------------------------------------------------------
  // Header and port
  // ---------------------------------------------------------------------------

  /** The header's first byte: 0x01 for a write, 0x02 for a write-and-read and 0x00
      otherwise. */
  function OperationCode(op: Operation): (b: uint8)
    ensures b < 3
    ensures (b == 0x00 <==> op == Read) && (b == 0x01 <==> op == Write)
  {
    match op
    case Write => 0x01
    case WriteRead => 0x02
    case Read => 0x00
  }

  /** The operation code names the operation: decoding the first header byte gives it
      back. */
  lemma OperationCodeInjective(a: Operation, b: Operation)
    ensures OperationCode(a) == OperationCode(b) <==> a == b
  {
  }

  /** The header: the operation code, then the UUID's 16-bit value, high byte first. */
  function Header(op: Operation, uuid: string): (h: seq<uint8>)
    requires IsHexString(uuid) && |uuid| == 4
    ensures |h| == 3 && h[0] == OperationCode(op)
    ensures h[1] as int * 256 + h[2] as int == HexValue(uuid)
    ensures h[1] as int == HexValue(uuid) / 256 && h[2] as int == HexValue(uuid) % 256
  {
    var value := HexValue(uuid);
    HexValueBound(uuid);
    [OperationCode(op), ToUint8(value / 256), ToUint8(value)]
  }

  /** A hex string of at most four digits denotes a 16-bit number. */
  lemma {:induction false} HexValueBound(s: string)
    requires IsHexString(s) && |s| <= 4
    ensures HexValue(s) < Pow16(|s|) <= 0x1_0000
    decreases |s|
  {
    if |s| > 0 {
      HexValueBound(s[..|s| - 1]);
    }
  }

  /** The frame's port: 21 for a type of the vibration 4.2 family, otherwise 20 for a
      type of the single-point, multipoint or common family, otherwise the frame's
      default 0. */
  function FPort(kind: C.TypeField): (port: nat)
    ensures port == 21 <==> kind.IsValidPayloadType(C.Vib42Types)
    ensures port == 20 <==>
      (!kind.IsValidPayloadType(C.Vib42Types)
       && (kind.IsValidPayloadType(C.SpTypes) || kind.IsValidPayloadType(C.MpTypes) || kind.IsValidPayloadType(C.CommonTypes)))
    ensures port == 0 || port == 20 || port == 21
  {
    var port := if kind.IsValidPayloadType(C.SpTypes) || kind.IsValidPayloadType(C.MpTypes)
                   || kind.IsValidPayloadType(C.CommonTypes) then 20 else 0;
    if kind.IsValidPayloadType(C.Vib42Types) then 21 else port
  }

  // ---------------------------------------------------------------------------
  // encode
  // ---------------------------------------------------------------------------

  /** An operation that carries a payload. */
  predicate IsWrite(op: Operation) {
    op == Write || op == WriteRead
  }

  /** `encode`: checks the UUID, then for a write the LoRa rights, the presence of a
      payload, its type against the characteristic's and that it has a type, in that
      order, raising the first that fails; then formats the payload into a buffer of
      the characteristic's size and prefixes the header. */
  function Encode(c: Characteristic, op: Operation, payload: Option<LogicalPayload>): (r: Result<Frame, Error>)
    requires WellFormedCharacteristic(c)
    requires payload.Some? ==> WellFormedPayload(payload.value)
    ensures c.uuid == "" ==> r == Failure(MissingUuid)
    ensures c.uuid != "" && |c.uuid| != 4 ==> r == Failure(InvalidUuidLength)
    ensures r.Success? ==> |r.value.bytes| == 3 + (if IsWrite(op) then DecimalValue(c.payloadSize) else 0)
    ensures r.Success? ==> |c.uuid| == 4 && r.value.bytes[..3] == Header(op, c.uuid) && r.value.fport == FPort(c.kind)
    ensures |c.uuid| == 4 && !IsWrite(op) ==> r == Success(Frame(Header(op, c.uuid), FPort(c.kind)))
  {
    if c.uuid == "" then Failure(MissingUuid)
    else if |c.uuid| != 4 then Failure(InvalidUuidLength)
    else
      var header := Header(op, c.uuid);
      var body :-
        if !IsWrite(op) then Success([])
        else if c.lora == "" then Failure(MissingLoraRights)
        else if !LoraWritable(c.lora) then Failure(NotWriteable)
        else if payload.None? then Failure(MissingPayload)
        else if c.kind != payload.value.Tag() then Failure(PayloadTypeMismatch)
        else if payload.value.Tag() == C.NoTag then Failure(EmptyPayloadType)
        else Format(DecimalValue(c.payloadSize), payload.value);
      assert (header + body)[..3] == header && header + [] == header;
      Success(Frame(header + body, FPort(c.kind)))
  }

  /** The write checks in the order `encode` makes them: the first that fails is the
      error raised. */
  function WriteCheck(c: Characteristic, payload: Option<LogicalPayload>): (e: Option<Error>)
  {
    if c.lora == "" then Some(MissingLoraRights)
    else if !LoraWritable(c.lora) then Some(NotWriteable)
    else if payload.None? then Some(MissingPayload)
    else if c.kind != payload.value.Tag() then Some(PayloadTypeMismatch)
    else if payload.value.Tag() == C.NoTag then Some(EmptyPayloadType)
    else None
  }

  /** A write with a valid UUID fails with the first write check that fails; when all
      pass, it yields the header followed by the formatted payload or the formatter's
      error. */
  lemma EncodeWrite(c: Characteristic, op: Operation, payload: Option<LogicalPayload>)
    requires WellFormedCharacteristic(c) && |c.uuid| == 4 && IsWrite(op)
    requires payload.Some? ==> WellFormedPayload(payload.value)
    ensures WriteCheck(c, payload).Some? ==> Encode(c, op, payload) == Failure(WriteCheck(c, payload).value)
    ensures WriteCheck(c, payload).None? ==>
      Encode(c, op, payload) ==
        (match Format(DecimalValue(c.payloadSize), payload.value)
         case Success(body) => Success(Frame(Header(op, c.uuid) + body, FPort(c.kind)))
         case Failure(e) => Failure(e))
  {
  }

  /** `encode` with `payloadFormatter` as written: the same checks and header, but the
      raw time data case is unreachable and the secondary preset is checked by reading
      back the stored byte. It agrees with `Encode` on every other payload. */
  function EncodeAsWritten(c: Characteristic, op: Operation, payload: Option<LogicalPayload>): (r: Result<Frame, Error>)
    requires WellFormedCharacteristic(c)
    requires payload.Some? ==> WellFormedPayload(payload.value)
    ensures payload.None? || !(payload.value.PresetSelection? || payload.value.RawTimeData?) ==>
      r == Encode(c, op, payload)
    ensures |c.uuid| == 4 && IsWrite(op) && WriteCheck(c, payload).None? && payload.value.RawTimeData? ==>
      r == Failure(UnknownCharacType)
  {
    if |c.uuid| != 4 || !IsWrite(op) || WriteCheck(c, payload).Some? then Encode(c, op, payload)
    else
      EncodeWrite(c, op, payload);
      match FormatAsWritten(DecimalValue(c.payloadSize), payload.value)
      case Success(body) => Success(Frame(Header(op, c.uuid) + body, FPort(c.kind)))
      case Failure(e) => Failure(e)
  }

  /** As written, a preset selection whose main preset is in byte range is written
      whatever its secondary preset: a secondary outside byte range is stored modulo
      256, where `Encode` raises the preset range error. */
  lemma PresetSelectionWrittenAsIs(c: Characteristic, op: Operation, main: int, secondary: Option<int>)
    requires WellFormedCharacteristic(c) && |c.uuid| == 4 && LoraWritable(c.lora) && IsWrite(op)
    requires c.kind == C.Tagged(C.PresetSelection) && DecimalValue(c.payloadSize) == 2
    requires IsInByteRange(main)
    ensures EncodeAsWritten(c, op, Some(PresetSelection(main, secondary))) ==
      Success(Frame(Header(op, c.uuid) + [ToUint8(main), ToUint8(secondary.GetOr(0xFF))], FPort(c.kind)))
    ensures !IsInByteRange(secondary.GetOr(0xFF)) ==>
      Encode(c, op, Some(PresetSelection(main, secondary))) == Failure(PresetRange)
  {
    var p := PresetSelection(main, secondary);
    EncodeWrite(c, op, Some(p));
    var b := Store(Store(Zeros(2), 0, main), 1, secondary.GetOr(0xFF));
    assert b == [ToUint8(main), ToUint8(secondary.GetOr(0xFF))];
  }

  // ---------------------------------------------------------------------------
  // encode_multi_frame and the accessors
  // ---------------------------------------------------------------------------

  /** The characteristic the composite threshold's frames are encoded against: a copy
      typed as the plain multipoint threshold. */
  function AsMultipointThreshold(c: Characteristic): (d: Characteristic)
    ensures d.kind == C.Tagged(C.MultipointThreshold)
    ensures d.uuid == c.uuid && d.payloadSize == c.payloadSize && d.lora == c.lora
  {
    c.(kind := C.Tagged(C.MultipointThreshold))
  }

  /** `encode_multi_frame`: a composite threshold becomes its level frame, then its
      communication-mode frame when it sets the LoRa or BLE mode, then its
      configuration frame, each encoded against the copy typed as the multipoint
      threshold; any other payload gives no frame. The first frame that fails to
      encode fails the whole. */
  function EncodeMultiFrame(c: Characteristic, op: Operation, p: LogicalPayload): (r: Result<seq<Frame>, Error>)
    requires WellFormedCharacteristic(c) && WellFormedPayload(p)
    ensures !p.ThresholdMulti? ==> r == Success([])
    ensures p.ThresholdMulti? && r.Success? ==>
      |r.value| == (if p.setLoraMode || p.setBleMode then 3 else 2)
      && Encode(AsMultipointThreshold(c), op, Some(LevelFrame(p))) == Success(r.value[0])
      && Encode(AsMultipointThreshold(c), op, Some(ConfigFrame(p))) == Success(r.value[|r.value| - 1])
    ensures p.ThresholdMulti? && (p.setLoraMode || p.setBleMode) && r.Success? ==>
      Encode(AsMultipointThreshold(c), op, Some(CommFrame(p))) == Success(r.value[1])
  {
    match p
    case ThresholdMulti(_, _, _, _, _, _, setBleMode, setLoraMode, _, _, _) =>
      var d := AsMultipointThreshold(c);
      var level :- Encode(d, op, Some(LevelFrame(p)));
      var comm :-
        if setLoraMode || setBleMode then
          (match Encode(d, op, Some(CommFrame(p))) case Success(f) => Success([f]) case Failure(e) => Failure(e))
        else Success([]);
      var config :- Encode(d, op, Some(ConfigFrame(p)));
      Success([level] + comm + [config])
    case _ => Success([])
  }

  /** A composite threshold fails exactly when one of its sub-frames fails to encode,
      and with the error of the first that does. */
  lemma MultiFrameFailure(c: Characteristic, op: Operation, p: LogicalPayload)
    requires WellFormedCharacteristic(c) && WellFormedPayload(p) && p.ThresholdMulti?
    ensures EncodeMultiFrame(c, op, p).Failure? <==> MultiFrameError(c, op, p).Some?
    ensures EncodeMultiFrame(c, op, p).Failure? ==> MultiFrameError(c, op, p) == Some(EncodeMultiFrame(c, op, p).error)
  {
  }

  /** The error of the first sub-frame of a composite threshold that fails to encode,
      in the order `encode_multi_frame` encodes them: level, communication mode when
      it is sent, configuration. */
  function MultiFrameError(c: Characteristic, op: Operation, p: LogicalPayload): Option<Error>
    requires WellFormedCharacteristic(c) && WellFormedPayload(p) && p.ThresholdMulti?
  {
    var d := AsMultipointThreshold(c);
    if Encode(d, op, Some(LevelFrame(p))).Failure? then Some(Encode(d, op, Some(LevelFrame(p))).error)
    else if (p.setLoraMode || p.setBleMode) && Encode(d, op, Some(CommFrame(p))).Failure? then
      Some(Encode(d, op, Some(CommFrame(p))).error)
    else if Encode(d, op, Some(ConfigFrame(p))).Failure? then Some(Encode(d, op, Some(ConfigFrame(p))).error)
    else None
  }

  /** The level sub-frame of a composite threshold. */
  function LevelFrame(p: LogicalPayload): (q: LogicalPayload)
    requires p.ThresholdMulti?
    ensures q.Tag() == C.Tagged(C.MultipointThreshold) && q.ThresholdLevel?
    ensures q.id == p.id && q.levelBits == p.levelBits
  {
    ThresholdLevel(p.id, p.levelBits)
  }

  /** The communication-mode sub-frame of a composite threshold. */
  function CommFrame(p: LogicalPayload): (q: LogicalPayload)
    requires p.ThresholdMulti?
    ensures q.Tag() == C.Tagged(C.MultipointThreshold) && q.ThresholdCommMode?
    ensures q.id == p.id && q.bleMode == p.bleMode && q.loraMode == p.loraMode
  {
    ThresholdCommMode(p.id, p.bleMode, p.loraMode)
  }

  /** The configuration sub-frame of a composite threshold. */
  function ConfigFrame(p: LogicalPayload): (q: LogicalPayload)
    requires p.ThresholdMulti?
    ensures q.Tag() == C.Tagged(C.MultipointThreshold) && q.ThresholdConfig?
    ensures q.id == p.id && q.eventFlag == p.eventFlag && q.enabled == p.enabled && q.direction == p.direction
    ensures q.autoClear == p.autoClear && q.setBleMode == p.setBleMode && q.setLoraMode == p.setLoraMode
  {
    ThresholdConfig(p.id, p.eventFlag, p.enabled, p.direction, p.autoClear, p.setBleMode, p.setLoraMode)
  }

  /** The `write` and `writeread` accessors of an encoder: a payload marked as
      multi-frame goes through `encode_multi_frame`, any other payload gives the one
      frame of `encode`. */
  function WriteAccessor(c: Characteristic, op: Operation, p: LogicalPayload): (r: Result<seq<Frame>, Error>)
    requires WellFormedCharacteristic(c) && WellFormedPayload(p) && IsWrite(op)
    ensures !IsMultiFramePayload(p) ==> (r.Success? <==> Encode(c, op, Some(p)).Success?)
    ensures !IsMultiFramePayload(p) && r.Success? ==> r.value == [Encode(c, op, Some(p)).value]
    ensures !IsMultiFramePayload(p) && r.Failure? ==> r.error == Encode(c, op, Some(p)).error
    ensures IsMultiFramePayload(p) ==> r == EncodeMultiFrame(c, op, p)
  {
    if IsMultiFramePayload(p) then EncodeMultiFrame(c, op, p)
    else
      match Encode(c, op, Some(p))
      case Success(f) => Success([f])
      case Failure(e) => Failure(e)
  }

  /** A composite threshold not marked as multi-frame reaches the formatter, which does
      not know its type. */
  lemma UnmarkedCompositeIsUnknown(c: Characteristic, op: Operation, p: LogicalPayload)
    requires WellFormedCharacteristic(c) && |c.uuid| == 4 && LoraWritable(c.lora) && IsWrite(op)
    requires p.ThresholdMulti? && !p.multiFrame && WellFormedPayload(p)
    requires c.kind == C.Tagged(C.MultipointThresholdMulti)
    ensures WriteAccessor(c, op, p) == Failure(UnknownCharacType)
  {
    EncodeWrite(c, op, Some(p));
  }

  /** The empty payload's type `"empty"` passes the "Payload needed" check, which only
      an absent type fails, and the formatter refuses it as an unknown type. */
  lemma EmptyTypeIsUnknown(c: Characteristic, op: Operation)
    requires WellFormedCharacteristic(c) && |c.uuid| == 4 && LoraWritable(c.lora) && IsWrite(op)
    requires c.kind == C.EmptyTag
    ensures Encode(c, op, Some(Empty)) == Failure(UnknownCharacType)
    ensures Encode(c.(kind := C.NoTag), op, Some(Untyped)) == Failure(EmptyPayloadType)
  {
    EncodeWrite(c, op, Some(Empty));
    EncodeWrite(c.(kind := C.NoTag), op, Some(Untyped));
  }
}
