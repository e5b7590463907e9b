/** What the encoder does with the characteristics of the databases: the frame of a
    read, the frame of a write against the payload's wire layout, the frames of a
    composite threshold, and the rights, UUIDs and ports the databases give. */
module EncoderProperties {
  import opened Wrappers
  import opened Errors
  import opened Helper
  import opened Sensors
  import opened WireLayout
  import opened EncoderLib
  import C = CharacTypes
  import Registry

  // ---------------------------------------------------------------------------
  // Frames of database characteristics
  // ---------------------------------------------------------------------------

  /** A read of a database characteristic is the three header bytes alone: the read
      code and the UUID's two bytes. */
  lemma RegistryRead(t: C.CharacType, c: Characteristic, payload: Option<LogicalPayload>)
    requires Registry.ValidEntry(t, c)
    requires payload.Some? ==> WellFormedPayload(payload.value)
    ensures Encode(c, Read, payload) == Success(Frame(Header(Read, c.uuid), FPort(C.Tagged(t))))
    ensures Header(Read, c.uuid)[0] == 0x00
    ensures Header(Read, c.uuid)[1] as int * 256 + Header(Read, c.uuid)[2] as int == HexValue(c.uuid)
  {
  }

  /** A write of a payload of the entry's own type to a writable database
      characteristic raises the payload's first range error, or gives the header
      followed by the payload's layout padded with zeros to the characteristic's size;
      the layout always fits that size. */
  lemma RegistryWrite(t: C.CharacType, c: Characteristic, op: Operation, p: LogicalPayload)
    requires Registry.ValidEntry(t, c) && LoraWritable(c.lora) && IsWrite(op)
    requires WellFormedPayload(p) && InLayoutDomain(p) && p.Tag() == C.Tagged(t)
    ensures |Layout(p)| <= DecimalValue(c.payloadSize)
    ensures Encode(c, op, Some(p)) ==
      (match ExpectedError(p)
       case Some(e) => Failure(e)
       case None => Success(Frame(Header(op, c.uuid) + Padded(Layout(p), DecimalValue(c.payloadSize)), FPort(c.kind))))
  {
    var size := DecimalValue(c.payloadSize);
    LayoutFits(p);
    EncodeWrite(c, op, Some(p));
    FormatMatchesLayout(size, p);
  }

  /** A composite threshold written to a writable characteristic of at least six bytes
      always gives its frames: the level frame, the communication-mode frame when the
      LoRa or BLE mode is set, and the configuration frame, each the header followed by
      the sub-frame's layout, on port 20. */
  lemma MultiFrameWrite(c: Characteristic, op: Operation, p: LogicalPayload)
    requires WellFormedCharacteristic(c) && |c.uuid| == 4 && LoraWritable(c.lora) && IsWrite(op)
    requires DecimalValue(c.payloadSize) >= 6
    requires p.ThresholdMulti? && WellFormedPayload(p)
    ensures EncodeMultiFrame(c, op, p) ==
      Success([SubFrame(c, op, LevelFrame(p))]
              + (if p.setLoraMode || p.setBleMode then [SubFrame(c, op, CommFrame(p))] else [])
              + [SubFrame(c, op, ConfigFrame(p))])
  {
    var d := AsMultipointThreshold(c);
    var size := DecimalValue(c.payloadSize);
    SubFrameWrite(d, op, LevelFrame(p));
    SubFrameWrite(d, op, CommFrame(p));
    SubFrameWrite(d, op, ConfigFrame(p));
  }

  /** The frame of a threshold sub-frame: the header, then the sub-frame's layout padded
      to the characteristic's size, on port 20. */
  function SubFrame(c: Characteristic, op: Operation, q: LogicalPayload): Frame
    requires WellFormedCharacteristic(c) && |c.uuid| == 4 && DecimalValue(c.payloadSize) >= 6
    requires (q.ThresholdLevel? || q.ThresholdCommMode? || q.ThresholdConfig?) && WellFormedPayload(q)
  {
    ThresholdLayoutsFit(q);
    Frame(Header(op, c.uuid) + Padded(Layout(q), DecimalValue(c.payloadSize)), 20)
  }

  /** One sub-frame of a composite threshold against the copy typed as the multipoint
      threshold. */
  lemma SubFrameWrite(d: Characteristic, op: Operation, q: LogicalPayload)
    requires WellFormedCharacteristic(d) && |d.uuid| == 4 && LoraWritable(d.lora) && IsWrite(op)
    requires DecimalValue(d.payloadSize) >= 6 && d.kind == C.Tagged(C.MultipointThreshold)
    requires q.ThresholdLevel? || q.ThresholdCommMode? || q.ThresholdConfig?
    requires WellFormedPayload(q)
    ensures Encode(d, op, Some(q)) == Success(SubFrame(d, op, q))
  {
    var size := DecimalValue(d.payloadSize);
    ThresholdLayoutsFit(q);
    EncodeWrite(d, op, Some(q));
    ThresholdFormatMatchesLayout(size, q);
  }

  // ---------------------------------------------------------------------------
  // Rights, UUIDs and ports of the databases
  // ---------------------------------------------------------------------------

  /** The LoRaWAN application EUI is read-only: every write of it is refused before
      its payload is looked at. */
  lemma AppEuiNotWritable(op: Operation, payload: Option<LogicalPayload>)
    requires IsWrite(op) && (payload.Some? ==> WellFormedPayload(payload.value))
    ensures Registry.Lookup(Registry.CommonFamily, C.AppEui).Some?
    ensures Encode(Registry.Lookup(Registry.CommonFamily, C.AppEui).value, op, payload) == Failure(NotWriteable)
  {
    var c := Registry.Lookup(Registry.CommonFamily, C.AppEui).value;
    EncodeWrite(c, op, payload);
  }

  /** The measurement interval can be written on a single-point sensor but only read on
      a multipoint one, under the same UUID B302. */
  lemma MeasIntervalRights(op: Operation, payload: Option<LogicalPayload>)
    requires IsWrite(op) && (payload.Some? ==> WellFormedPayload(payload.value))
    ensures Registry.Lookup(Registry.SpFamily, C.MeasInterval).Some?
    ensures Registry.Lookup(Registry.MpFamily, C.MeasInterval).Some?
    ensures LoraWritable(Registry.Lookup(Registry.SpFamily, C.MeasInterval).value.lora)
    ensures Encode(Registry.Lookup(Registry.MpFamily, C.MeasInterval).value, op, payload) == Failure(NotWriteable)
    ensures Registry.Lookup(Registry.SpFamily, C.MeasInterval).value.uuid
         == Registry.Lookup(Registry.MpFamily, C.MeasInterval).value.uuid
  {
    var c := Registry.Lookup(Registry.MpFamily, C.MeasInterval).value;
    EncodeWrite(c, op, payload);
    Registry.SameUuidText(Registry.SpFamily, C.MeasInterval, Registry.MpFamily, C.MeasInterval);
  }

  /** The preset configuration and its request share the UUID FA10, and so every header. */
  lemma SharedPresetUuid()
    ensures Registry.Lookup(Registry.MpFamily, C.PresetConfiguration).Some?
    ensures Registry.Lookup(Registry.MpFamily, C.PresetRequest).Some?
    ensures Registry.Lookup(Registry.MpFamily, C.PresetConfiguration).value.uuid
         == Registry.Lookup(Registry.MpFamily, C.PresetRequest).value.uuid
    ensures HexValue(Registry.Lookup(Registry.MpFamily, C.PresetRequest).value.uuid) == 0xFA10
  {
    Registry.SameUuidText(Registry.MpFamily, C.PresetConfiguration, Registry.MpFamily, C.PresetRequest);
  }

  /** The window configuration and its request share the UUID FA11. */
  lemma SharedWindowUuid()
    ensures Registry.Lookup(Registry.MpFamily, C.WindowConfiguration).Some?
    ensures Registry.Lookup(Registry.MpFamily, C.WindowRequest).Some?
    ensures Registry.Lookup(Registry.MpFamily, C.WindowConfiguration).value.uuid
         == Registry.Lookup(Registry.MpFamily, C.WindowRequest).value.uuid
    ensures HexValue(Registry.Lookup(Registry.MpFamily, C.WindowRequest).value.uuid) == 0xFA11
  {
    Registry.SameUuidText(Registry.MpFamily, C.WindowConfiguration, Registry.MpFamily, C.WindowRequest);
  }

  /** The legacy threshold and the three multipoint threshold characteristics share the
      UUID B201. */
  lemma SharedThresholdUuid(t: C.CharacType)
    requires t == C.MultipointThreshold || t == C.MultipointThresholdRequest || t == C.MultipointThresholdMulti
    ensures Registry.Lookup(Registry.CommonFamily, C.Threshold).Some?
    ensures Registry.Lookup(Registry.MpFamily, t).Some?
    ensures Registry.Lookup(Registry.MpFamily, t).value.uuid
         == Registry.Lookup(Registry.CommonFamily, C.Threshold).value.uuid
    ensures HexValue(Registry.Lookup(Registry.MpFamily, t).value.uuid) == 0xB201
  {
    Registry.SameUuidText(Registry.MpFamily, t, Registry.CommonFamily, C.Threshold);
  }

  /** The port of a frame: 21 for the protocol version of vibration firmware 4.2 and 0
      for the raw time data of vibration firmware 5.2, whose family the port rule does
      not list. */
  lemma VibrationPorts()
    ensures FPort(C.Tagged(C.ProtocolVersion)) == 21
    ensures FPort(C.Tagged(C.RawTimeData)) == 0
  {
  }

  /** Every type of the common, single-point and multipoint databases goes to port 20. */
  lemma FamilyPorts(t: C.CharacType)
    requires t in C.CommonTypes || t in C.SpTypes || t in C.MpTypes
    ensures FPort(C.Tagged(t)) == 20
  {
    assert t != C.ProtocolVersion;
  }
}
