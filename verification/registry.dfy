/** The characteristic databases of each sensor family and the map saying which
    databases each firmware version and device model combines. */
module Registry {
  import opened Wrappers
  import opened Helper
  import opened CharacTypes
  import S = Sensors
  import L = WireLayout

  type Characteristic = S.Characteristic

  // ---------------------------------------------------------------------------
  // Building entries
  // ---------------------------------------------------------------------------

  /** The LoRa rights texts the databases use. */
  datatype Rights = R | W | Wr | RWWr | WWr {
    function Text(): (s: string)
      ensures s != ""
      ensures S.LoraWritable(s) <==> this != R
    {
      match this
      case R => "r"
      case W => "w"
      case Wr => "wr"
      case RWWr => "r|w|wr"
      case WWr => "w|wr"
    }
  }

  /** The four upper-case hex digits of a 16-bit number, as the databases write UUIDs. */
  function HexText(n: nat): (s: string)
    requires n < 0x1_0000
    ensures |s| == 4 && IsHexString(s) && HexValue(s) == n
  {
    var s := ToHex(ByteOf(n / 256)) + ToHex(ByteOf(n % 256));
    HexValueSnocPair(s);
    HexValueSnocPair(ToHex(ByteOf(n % 256)));
    assert s[..2] == ToHex(ByteOf(n / 256));
    s
  }

  function DigitChar(d: nat): (ch: char)
    requires d < 10
    ensures IsDecimalDigit(ch) && DecimalDigitValue(ch) == d
  {
    ('0' as int + d) as char
  }

  /** The decimal digits of a number, without leading zeros. */
  function DecimalText(n: nat): (s: string)
    ensures IsDigits(s) && DecimalValue(s) == n
  {
    var last := [DigitChar(n % 10)];
    var s := if n < 10 then last else DecimalText(n / 10) + last;
    assert s[..|s| - 1] == (if n < 10 then "" else DecimalText(n / 10));
    s
  }

  /** What the encoder relies on in an entry: it sits under its own type tag, has a UUID
      of four hex digits, a decimal payload size and stated LoRa rights, its size holds
      the longest layout of its type, and equals it when the entry can be written. */
  predicate ValidEntry(t: CharacType, c: Characteristic) {
    && c.kind == Tagged(t)
    && |c.uuid| == 4 && IsHexString(c.uuid) && IsDigits(c.payloadSize) && c.lora != ""
    && L.LayoutSize(c.kind) <= DecimalValue(c.payloadSize)
    && (S.LoraWritable(c.lora) ==> L.LayoutSize(c.kind) == DecimalValue(c.payloadSize))
  }

  /** A database entry from its UUID, payload size, rights and type. An entry is only
      written down when its size fits its type's layout. */
  function Entry(uuid: nat, size: nat, rights: Rights, t: CharacType): (c: Characteristic)
    requires RowFits(t, Row(uuid, size, rights))
    ensures ValidEntry(t, c)
    ensures HexValue(c.uuid) == uuid && DecimalValue(c.payloadSize) == size
    ensures c.lora == rights.Text()
  {
    S.Characteristic(HexText(uuid), DecimalText(size), rights.Text(), Tagged(t))
  }

  // ---------------------------------------------------------------------------
  // The databases: each object maps a type tag to its characteristic
  // ---------------------------------------------------------------------------

  /** One line of a database object: the UUID, the payload size and the LoRa rights
      written down for a type tag. */
  datatype Row = Row(uuid: nat, size: nat, rights: Rights)

  /** A line the databases may hold for a type: a 16-bit UUID and a size that holds the
      type's longest layout, and equals it when the line can be written. */
  predicate RowFits(t: CharacType, row: Row) {
    && row.uuid < 0x1_0000
    && L.LayoutSize(Tagged(t)) <= row.size
    && (row.rights != R ==> L.LayoutSize(Tagged(t)) == row.size)
  }

  /** `Charac_DB_common`: the characteristics every sensor has. */
  function CommonDb(t: CharacType): Option<Row> {
    match t
    case ModelNumber            => Some(Row(0x2A24, 4, R))
    case SerialNumber           => Some(Row(0x2A25, 12, R))
    case FirmwareResolution     => Some(Row(0x2A26, 40, R))
    case HardwareRevision       => Some(Row(0x2A27, 7, R))
    case Manufacturer           => Some(Row(0x2A29, 9, R))
    case SensorDiagnosis        => Some(Row(0xCF01, 1, R))
    case CommunicationDiagnosis => Some(Row(0xCF02, 1, R))
    case BatteryDiagnosis       => Some(Row(0xCF03, 1, R))
    case DeviceStatus           => Some(Row(0xFC01, 1, R))
    case Battery                => Some(Row(0x2A19, 1, RWWr))
    case BleActivation          => Some(Row(0xCD05, 1, RWWr))
    case InternalTemperature    => Some(Row(0x2A6E, 2, R))
    case Keepalive              => Some(Row(0xCE01, 1, RWWr))
    case MeasCounter            => Some(Row(0xB301, 2, R))
    case LastDataAcquired       => Some(Row(0xDA01, 6, R))
    case Threshold              => Some(Row(0xB201, 6, WWr))
    case LoraMode               => Some(Row(0xF810, 1, RWWr))
    case DevEui                 => Some(Row(0xF801, 8, R))
    case AppEui                 => Some(Row(0xF802, 1, R))
    case Region                 => Some(Row(0xF803, 1, R))
    case NetId                  => Some(Row(0xF804, 4, R))
    case LoraStatus             => Some(Row(0xF805, 4, R))
    case LoraPercentage         => Some(Row(0xF806, 1, RWWr))
    case TriggerMeasurement     => Some(Row(0xB303, 1, W))
    case _ => None
  }

  /** `Charac_DB_SP`: the single-point sensor characteristics. */
  function SpDb(t: CharacType): Option<Row> {
    match t
    case DatalogData     => Some(Row(0xDB01, 4, Wr))
    case DatalogAnalysis => Some(Row(0xDB02, 3, Wr))
    case MeasInterval    => Some(Row(0xB302, 3, RWWr))
    case _ => None
  }

  /** `Charac_DB_MP`: the multipoint (vibration) sensor characteristics. */
  function MpDb(t: CharacType): Option<Row> {
    match t
    case AxisSelection              => Some(Row(0xFA01, 1, RWWr))
    case PresetSelection            => Some(Row(0xFA02, 2, RWWr))
    case WindowingFunction          => Some(Row(0xFA03, 1, RWWr))
    case PresetConfiguration        => Some(Row(0xFA10, 6, RWWr))
    case PresetRequest              => Some(Row(0xFA10, 1, Wr))
    case WindowConfiguration        => Some(Row(0xFA11, 8, RWWr))
    case WindowRequest              => Some(Row(0xFA11, 2, Wr))
    case MultipointThreshold        => Some(Row(0xB201, 6, WWr))
    case MultipointThresholdRequest => Some(Row(0xB201, 2, WWr))
    case MultipointThresholdMulti   => Some(Row(0xB201, 6, WWr))
    case MeasInterval               => Some(Row(0xB302, 3, R))
    case _ => None
  }

  /** `Charac_DB_Vib4_2`: added by vibration firmware 4.2. */
  function Vib42Db(t: CharacType): Option<Row> {
    match t
    case ProtocolVersion => Some(Row(0xAA01, 1, RWWr))
    case _ => None
  }

  /** `Charac_DB_Vib5_2`: vibration firmware 5.2. */
  function Vib52Db(t: CharacType): Option<Row> {
    match t
    case RawTimeData => Some(Row(0xDA03, 4, Wr))
    case _ => None
  }

  /** The database of one sensor family. */
  datatype Family = CommonFamily | SpFamily | MpFamily | Vib42Family | Vib52Family

  function Rows(f: Family, t: CharacType): Option<Row> {
    match f
    case CommonFamily => CommonDb(t)
    case SpFamily => SpDb(t)
    case MpFamily => MpDb(t)
    case Vib42Family => Vib42Db(t)
    case Vib52Family => Vib52Db(t)
  }

  /** Every line of every database fits its type. */
  lemma RowsFit(f: Family, t: CharacType)
    requires Rows(f, t).Some?
    ensures RowFits(t, Rows(f, t).value)
  {
    match f
    case CommonFamily => CommonRowsFit(t);
    case SpFamily =>
    case MpFamily => MpRowsFit(t);
    case Vib42Family =>
    case Vib52Family =>
  }

  lemma CommonRowsFit(t: CharacType)
    requires CommonDb(t).Some?
    ensures RowFits(t, CommonDb(t).value)
  {
    match t
    case ModelNumber =>
    case SerialNumber =>
    case FirmwareResolution =>
    case HardwareRevision =>
    case Manufacturer =>
    case SensorDiagnosis =>
    case CommunicationDiagnosis =>
    case BatteryDiagnosis =>
    case DeviceStatus =>
    case Battery =>
    case BleActivation =>
    case InternalTemperature =>
    case Keepalive =>
    case MeasCounter =>
    case LastDataAcquired =>
    case Threshold =>
    case LoraMode =>
    case DevEui =>
    case AppEui =>
    case Region =>
    case NetId =>
    case LoraStatus =>
    case LoraPercentage =>
    case TriggerMeasurement =>
    case _ =>
  }

  lemma MpRowsFit(t: CharacType)
    requires MpDb(t).Some?
    ensures RowFits(t, MpDb(t).value)
  {
  }

  /** The characteristic a family's database holds under a type tag, written as the
      database object writes it: the UUID in four hex digits, the size in decimal. */
  function Lookup(f: Family, t: CharacType): (r: Option<Characteristic>)
    ensures r.Some? <==> Rows(f, t).Some?
    ensures r.Some? ==> ValidEntry(t, r.value)
    ensures r.Some? ==> HexValue(r.value.uuid) == Rows(f, t).value.uuid
    ensures r.Some? ==> DecimalValue(r.value.payloadSize) == Rows(f, t).value.size
    ensures r.Some? ==> r.value.lora == Rows(f, t).value.rights.Text()
  {
    match Rows(f, t)
    case None => None
    case Some(row) =>
      RowsFit(f, t);
      Some(Entry(row.uuid, row.size, row.rights, t))
  }

  /** Lines with the same UUID number give characteristics with the same UUID text. */
  lemma SameUuidText(f: Family, t: CharacType, g: Family, u: CharacType)
    requires Rows(f, t).Some? && Rows(g, u).Some?
    requires Rows(f, t).value.uuid == Rows(g, u).value.uuid
    ensures Lookup(f, t).value.uuid == Lookup(g, u).value.uuid
  {
  }

  datatype FirmwareVersion = V3_5 | V4_1 | V4_2Beta | V5_2Beta

  datatype DeviceModel = Singlepoint | Vibration

  /** `FirmwareSupportMap`: the databases a firmware version and device model spread
      into one object, in spread order; None for a pair the map does not list. */
  function Spread(fw: FirmwareVersion, model: DeviceModel): Option<seq<Family>> {
    match (fw, model)
    case (V3_5, Singlepoint) => Some([CommonFamily, SpFamily])
    case (V4_1, Vibration) => Some([CommonFamily, MpFamily])
    case (V4_2Beta, Vibration) => Some([CommonFamily, MpFamily, Vib42Family])
    case (V5_2Beta, Vibration) => Some([Vib52Family])
    case _ => None
  }

  /** Looking a type up in an object spread from several databases: the entry of the
      last database that has the type. */
  function SpreadLookup(fs: seq<Family>, t: CharacType): Option<Characteristic>
    decreases |fs|
  {
    if |fs| == 0 then None
    else
      var last := Lookup(fs[|fs| - 1], t);
      if last.Some? then last else SpreadLookup(fs[..|fs| - 1], t)
  }

  /** The spread object holds the entry of the last database that has the type. */
  lemma {:induction false} SpreadLookupLast(fs: seq<Family>, t: CharacType, i: nat)
    requires i < |fs| && Lookup(fs[i], t).Some?
    requires forall j :: i < j < |fs| ==> Lookup(fs[j], t).None?
    ensures SpreadLookup(fs, t) == Lookup(fs[i], t)
    decreases |fs|
  {
    if i < |fs| - 1 {
      var init := fs[..|fs| - 1];
      assert init[i] == fs[i];
      assert forall j :: i < j < |init| ==> init[j] == fs[j];
      SpreadLookupLast(init, t, i);
    }
  }

  /** The spread object lacks a type that none of its databases has. */
  lemma {:induction false} SpreadLookupNone(fs: seq<Family>, t: CharacType)
    requires forall i :: 0 <= i < |fs| ==> Lookup(fs[i], t).None?
    ensures SpreadLookup(fs, t).None?
    decreases |fs|
  {
    if |fs| > 0 {
      var init := fs[..|fs| - 1];
      assert forall j :: 0 <= j < |init| ==> init[j] == fs[j];
      SpreadLookupNone(init, t);
    }
  }

  lemma {:induction false} SpreadLookupValid(fs: seq<Family>, t: CharacType)
    ensures SpreadLookup(fs, t).Some? ==> ValidEntry(t, SpreadLookup(fs, t).value)
    decreases |fs|
  {
    if |fs| > 0 {
      SpreadLookupValid(fs[..|fs| - 1], t);
    }
  }

  /** What a firmware version and device model support: the characteristic its spread
      object holds under a type tag. */
  function Supported(fw: FirmwareVersion, model: DeviceModel, t: CharacType): (r: Option<Characteristic>)
    ensures r.Some? ==> Spread(fw, model).Some? && ValidEntry(t, r.value)
  {
    match Spread(fw, model)
    case None => None
    case Some(fs) =>
      SpreadLookupValid(fs, t);
      SpreadLookup(fs, t)
  }

  /** A database that lacks a type leaves the lookups of the others unchanged. */
  lemma SpreadLookupAppend(fs: seq<Family>, f: Family, t: CharacType)
    requires Lookup(f, t).None?
    ensures SpreadLookup(fs + [f], t) == SpreadLookup(fs, t)
  {
    assert (fs + [f])[..|fs|] == fs;
  }

  /** A firmware whose databases are another's plus one more supports what the other
      supports, with the same characteristics, except for the types the added
      database has. */
  lemma SupportedExtends(fw: FirmwareVersion, base: FirmwareVersion, model: DeviceModel, f: Family, t: CharacType)
    requires Spread(base, model).Some? && Spread(fw, model) == Some(Spread(base, model).value + [f])
    ensures Lookup(f, t).None? ==> Supported(fw, model, t) == Supported(base, model, t)
    ensures Lookup(f, t).Some? ==> Supported(fw, model, t) == Lookup(f, t)
  {
    if Lookup(f, t).None? {
      SpreadLookupAppend(Spread(base, model).value, f, t);
    }
  }

  /** Vibration firmware 4.2 spreads the 4.1 databases and then its own, which holds
      the protocol version alone. */
  lemma Vibration42ExtendsVibration41()
    ensures Spread(V4_1, Vibration).Some?
    ensures Spread(V4_2Beta, Vibration) == Some(Spread(V4_1, Vibration).value + [Vib42Family])
    ensures forall t :: Rows(Vib42Family, t).Some? <==> t == ProtocolVersion
  {
    assert [CommonFamily, MpFamily] + [Vib42Family] == [CommonFamily, MpFamily, Vib42Family];
  }

  /** Vibration firmware 5.2 supports the raw time data and nothing else. */
  lemma Vibration52OnlyRawTimeData(t: CharacType)
    ensures Supported(V5_2Beta, Vibration, t).Some? <==> t == RawTimeData
  {
    var fs := [Vib52Family];
    assert Spread(V5_2Beta, Vibration) == Some(fs);
    assert fs[..0] == [];
    assert SpreadLookup(fs, t) == Lookup(Vib52Family, t);
    assert Lookup(Vib52Family, t).Some? <==> Rows(Vib52Family, t).Some?;
  }
}
