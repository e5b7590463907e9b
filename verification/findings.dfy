/** Two places where the formatter as written departs from what its tests and its own
    error messages show was meant, each against the corrected formatter the encoder
    uses. */
module Findings {
  import opened Wrappers
  import opened Errors
  import opened Helper
  import opened Sensors
  import opened Formatter
  import opened WireLayout

  /** Raw time data as written: its case label names a member the multipoint enum does
      not have, so the raw time data of the 5.2 firmware test is refused as an unknown
      type. */
  lemma RawTimeDataAsWritten()
    ensures FormatAsWritten(4, RawTimeData(X, 255, 6)) == Failure(UnknownCharacType)
    ensures Format(4, RawTimeData(X, 255, 6)) == Success([0x04, 0x00, 0xFF, 0x06])
  {
    var p := RawTimeData(X, 255, 6);
    assert Layout(p) == [0x04, 0x00, 0xFF, 0x06];
    assert Padded(Layout(p), 4) == Layout(p);
    FormatMatchesLayout(4, p);
  }

  /** The same case label reduces to `undefined`, so a payload with no type takes the
      raw time data branch and zeroes the buffer where the corrected formatter refuses
      it. */
  lemma UntypedAsWritten()
    ensures FormatAsWritten(4, Untyped) == Success([0x00, 0x00, 0x00, 0x00])
    ensures Format(4, Untyped) == Failure(UnknownCharacType)
  {
    assert Zeros(4) == [0x00, 0x00, 0x00, 0x00];
  }

  /** Preset selection as written: the secondary preset is checked after it is stored,
      so a secondary preset of 300 is accepted and wraps to 44, where the corrected
      formatter raises the preset range error. */
  lemma PresetSelectionAsWritten()
    ensures FormatAsWritten(2, PresetSelection(1, Some(300))) == Success([0x01, 0x2C])
    ensures Format(2, PresetSelection(1, Some(300))) == Failure(PresetRange)
  {
    var b := Zeros(2);
    assert Store(Store(b, 0, 1), 1, 300) == [0x01, 0x2C];
  }
}
