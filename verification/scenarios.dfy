/** Frames the encoder produces for concrete characteristics of the databases and
    concrete payloads, as the repository's tests state them. */
module Scenarios {
  import opened Wrappers
  import opened Errors
  import opened Helper
  import opened Sensors
  import opened WireLayout
  import opened EncoderLib
  import EncoderProperties
  import C = CharacTypes
  import Registry

  /** What a frame depends on in a writable characteristic: its tag, UUID and size. */
  predicate Writable(t: C.CharacType, c: Characteristic, uuid: nat, size: nat) {
    Registry.ValidEntry(t, c) && HexValue(c.uuid) == uuid
    && DecimalValue(c.payloadSize) == size && LoraWritable(c.lora)
  }

  /** The multipoint axis selection: UUID FA01, one byte, writable. */
  lemma AxisSelectionEntry()
    ensures Registry.Lookup(Registry.MpFamily, C.AxisSelection).Some?
    ensures Writable(C.AxisSelection, Registry.Lookup(Registry.MpFamily, C.AxisSelection).value, 0xFA01, 1)
  {
  }

  /** Vibration firmware 4.2 takes its protocol version from its own database, whose
      line is UUID AA01, one byte, writable. */
  lemma ProtocolVersionEntry()
    ensures Registry.Supported(Registry.V4_2Beta, Registry.Vibration, C.ProtocolVersion)
         == Registry.Lookup(Registry.Vib42Family, C.ProtocolVersion)
    ensures Registry.Rows(Registry.Vib42Family, C.ProtocolVersion) == Some(Registry.Row(0xAA01, 1, Registry.RWWr))
  {
    var fs := [Registry.CommonFamily, Registry.MpFamily, Registry.Vib42Family];
    assert Registry.Spread(Registry.V4_2Beta, Registry.Vibration) == Some(fs);
  }

  /** Vibration firmware 5.2 takes its raw time data from its own database, whose line
      is UUID DA03, four bytes, writable. */
  lemma RawTimeDataEntry()
    ensures Registry.Supported(Registry.V5_2Beta, Registry.Vibration, C.RawTimeData)
         == Registry.Lookup(Registry.Vib52Family, C.RawTimeData)
    ensures Registry.Rows(Registry.Vib52Family, C.RawTimeData) == Some(Registry.Row(0xDA03, 4, Registry.Wr))
  {
    assert Registry.Spread(Registry.V5_2Beta, Registry.Vibration) == Some([Registry.Vib52Family]);
  }

  /** A line of a database that can be written gives a writable characteristic with the
      line's UUID and size. */
  lemma LookupWritable(f: Registry.Family, t: C.CharacType)
    requires Registry.Rows(f, t).Some? && Registry.Rows(f, t).value.rights != Registry.R
    ensures Registry.Lookup(f, t).Some?
    ensures Writable(t, Registry.Lookup(f, t).value, Registry.Rows(f, t).value.uuid, Registry.Rows(f, t).value.size)
  {
  }

  /** Writing preset selection 1 with secondary preset 300: as written, the secondary
      is stored modulo 256 and the frame is "01 FA 02 01 2C" on port 20; the corrected
      encoder raises the preset range error. */
  lemma WritePresetSelectionAsWritten(c: Characteristic)
    requires Writable(C.PresetSelection, c, 0xFA02, 2)
    ensures EncodeAsWritten(c, Write, Some(PresetSelection(1, Some(300))))
         == Success(Frame([0x01, 0xFA, 0x02, 0x01, 0x2C], 20))
    ensures Encode(c, Write, Some(PresetSelection(1, Some(300)))) == Failure(PresetRange)
  {
    PresetSelectionWrittenAsIs(c, Write, 1, Some(300));
    EncoderProperties.FamilyPorts(C.PresetSelection);
    assert Header(Write, c.uuid) == [0x01, 0xFA, 0x02];
    var h: seq<uint8> := [0x01, 0xFA, 0x02];
    assert h + [0x01, 0x2C] == [0x01, 0xFA, 0x02, 0x01, 0x2C];
  }

  /** Reading the axis selection: "00 FA 01" on port 20. */
  lemma ReadAxisSelection(c: Characteristic)
    requires Writable(C.AxisSelection, c, 0xFA01, 1)
    ensures Encode(c, Read, None) == Success(Frame([0x00, 0xFA, 0x01], 20))
  {
    EncoderProperties.RegistryRead(C.AxisSelection, c, None);
    EncoderProperties.FamilyPorts(C.AxisSelection);
  }

  /** Writing the X and Y axes: the axis mask 0b110 after the write header,
      "01 FA 01 06" on port 20. */
  lemma WriteAxisSelection(c: Characteristic)
    requires Writable(C.AxisSelection, c, 0xFA01, 1)
    ensures Encode(c, Write, Some(AxisSelection([X, Y]))) == Success(Frame([0x01, 0xFA, 0x01, 0x06], 20))
  {
    var p := AxisSelection([X, Y]);
    assert Layout(p) == [0x06];
    assert ExpectedError(p) == None;
    assert Padded(Layout(p), 1) == [0x06];
    assert Header(Write, c.uuid) == [0x01, 0xFA, 0x01];
    EncoderProperties.RegistryWrite(C.AxisSelection, c, Write, p);
    EncoderProperties.FamilyPorts(C.AxisSelection);
    var h: seq<uint8> := [0x01, 0xFA, 0x01];
    assert h + [0x06] == [0x01, 0xFA, 0x01, 0x06];
  }

  /** Writing protocol version 1: "01 AA 01 01", on port 21. */
  lemma WriteProtocolVersion(c: Characteristic)
    requires Writable(C.ProtocolVersion, c, 0xAA01, 1)
    ensures Encode(c, Write, Some(ProtocolVersion(1))) == Success(Frame([0x01, 0xAA, 0x01, 0x01], 21))
  {
    var p := ProtocolVersion(1);
    assert Layout(p) == [0x01];
    assert ExpectedError(p) == None;
    assert Padded(Layout(p), 1) == [0x01];
    assert Header(Write, c.uuid) == [0x01, 0xAA, 0x01];
    EncoderProperties.RegistryWrite(C.ProtocolVersion, c, Write, p);
    EncoderProperties.VibrationPorts();
    var h: seq<uint8> := [0x01, 0xAA, 0x01];
    assert h + [0x01] == [0x01, 0xAA, 0x01, 0x01];
  }

  /** Write-reading the raw time data of axis X from index 255, six samples:
      "02 DA 03" then "04 00 FF 06", on port 0. */
  lemma WriteReadRawTimeData(c: Characteristic)
    requires Writable(C.RawTimeData, c, 0xDA03, 4)
    ensures Header(WriteRead, c.uuid) == [0x02, 0xDA, 0x03]
    ensures Encode(c, WriteRead, Some(RawTimeData(X, 255, 6)))
      == Success(Frame(Header(WriteRead, c.uuid) + [0x04, 0x00, 0xFF, 0x06], 0))
  {
    RawTimeDataLayout();
    EncoderProperties.RegistryWrite(C.RawTimeData, c, WriteRead, RawTimeData(X, 255, 6));
    EncoderProperties.VibrationPorts();
    HeaderOf(WriteRead, c.uuid, 0xDA03, [0x02, 0xDA, 0x03]);
  }

  /** As written, the same write-read is refused as an unknown type. */
  lemma WriteReadRawTimeDataAsWritten(c: Characteristic)
    requires Writable(C.RawTimeData, c, 0xDA03, 4)
    ensures EncodeAsWritten(c, WriteRead, Some(RawTimeData(X, 255, 6))) == Failure(UnknownCharacType)
  {
    assert WriteCheck(c, Some(RawTimeData(X, 255, 6))).None?;
  }

  /** The header of an operation on a UUID of a given value. */
  lemma HeaderOf(op: Operation, uuid: string, value: nat, h: seq<uint8>)
    requires IsHexString(uuid) && |uuid| == 4 && HexValue(uuid) == value
    requires h == [OperationCode(op), ToUint8(value / 256), ToUint8(value % 256)]
    ensures Header(op, uuid) == h
  {
  }

  /** The layout of the raw time data of axis X from index 255, six samples. */
  lemma RawTimeDataLayout()
    ensures InLayoutDomain(RawTimeData(X, 255, 6)) && ExpectedError(RawTimeData(X, 255, 6)) == None
    ensures Padded(Layout(RawTimeData(X, 255, 6)), 4) == [0x04, 0x00, 0xFF, 0x06]
  {
    assert Layout(RawTimeData(X, 255, 6)) == [0x04, 0x00, 0xFF, 0x06];
  }

  /** The frame of a hex string: "00 FA 01". */
  lemma AxisSelectionText()
    ensures Frame([0x00, 0xFA, 0x01], 20).ToHexString() == "00 FA 01"
  {
  }
}
