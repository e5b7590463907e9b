# iot-codec frame encoder, modelled in Dafny

iot-codec turns a request on a characteristic of a TE Connectivity wireless sensor
into the LoRaWAN downlink frame that carries it. A characteristic is an entry of a
sensor family's database. It has a 16-bit UUID written as four hex digits, a decimal
payload size, a LoRa rights text and a type tag. `encode` builds the frame for a
read, a write or a write-and-read:

- a three-byte header: the operation code, then the UUID, high byte first;
- for a write, the user payload, which `payloadFormatter` writes into a zero-filled
  buffer of the characteristic's size;
- the LoRaWAN port, which follows from the family the type tag belongs to.

`encode_multi_frame` splits a composite multipoint threshold into its level,
communication-mode and configuration frames. `FirmwareSupportMap` says which
databases a firmware version and device model spread together.

The modules follow the program's files:

| module | file | models |
|---|---|---|
| `Helper` | helper.dfy | `src/Helper.ts`: range predicates, `insertValueInByte`, hex and byte-array conversions, `numberToByteArray`, `toByteArray` |
| `Base64` | base64.dfy | the base64 text of `uint8ArrayToBase64` (section 4 of RFC 4648), with its decoder |
| `CharacTypes` | chartypes.dfy | the type enums of each family and `isValidPayloadType` |
| `Sensors` | sensors.dfy | `Characteristic`, `Operation`, the payload interfaces and the threshold identifier byte |
| `Errors` | errors.dfy | the errors `encode`, `payloadFormatter` and the helpers throw |
| `Formatter` | formatter.dfy | `payloadFormatter`, operationally: stores into a `Uint8Array`, case by case |
| `WireLayout` | layout.dfy | an independent, declarative wire layout of every payload, proved equal to the formatter |
| `Registry` | registry.dfy | `Charac_DB_common`, `Charac_DB_SP`, `Charac_DB_MP`, the two vibration databases and `FirmwareSupportMap` |
| `EncoderLib` | encoder.dfy | `Frame`, `encode`, `encode_multi_frame` and the encoder's write accessors |
| `EncoderProperties` | properties.dfy | what `encode` does with the databases' characteristics |
| `Scenarios` | scenarios.dfy | the frames the repository's tests expect, for the database entries they use |
| `Findings` | findings.dfy | the two places where the formatter as written departs from its evident intent |

Conventions of the model:

- Bytes are the `uint8` newtype. A store into a `Uint8Array` wraps modulo 256, and a
  store past the end is ignored. `set` past the end raises a `RangeError`, written
  `TypedArrayRange`. A read past the end is `undefined`. That counts as 0 under a
  bitwise operator and fails `is_in_byte_range`.
- Absent string fields (`uuid`, `lora`) are the empty string, which is falsy in the
  same places.
- Type tags are a datatype of the enum members. The `type` field of a characteristic
  or a payload is one of them, the literal `"empty"` of the empty payload, or absent.
  Only an absent type fails `encode`'s "Payload needed" check; `"empty"` passes it and
  reaches the formatter, which does not know it.
- Numeric payload fields are integers.

Where the code and its own tests disagree about ports and threshold data, the model
follows the code:

- `protocol_version` is a type of the vibration 4.2 family, so its frames go to port
  21. `test/vibration4_2.test.ts` expects 20.
- `raw_time_data` belongs to no family `encode` lists, so its frames keep the
  frame's default port 0. `test/vibration5_2.test.ts` expects 20.
- A legacy threshold datum longer than eight hex digits is not truncated. It
  yields more than four bytes, and `set` then runs past the buffer and raises a
  `RangeError`.

The two defects of `payloadFormatter` listed under "## Findings" are the exception.
`EncoderLib.Encode` formats with the corrected formatter `Formatter.Format`, which
dispatches raw time data on its own tag and refuses a secondary preset outside byte
range. `encode` exactly as written is `EncoderLib.EncodeAsWritten`, over
`Formatter.FormatAsWritten`. It differs from `Encode` only on those two payload types.

## Model

| member | source | states |
|---|---|---|
| Helper.ToUint8 | src/EncoderLib.ts:235-236 | a store into a Uint8Array keeps the value modulo 256 |
| Helper.ZeroPadding | src/Helper.ts:28-35 | the result is the input left-padded with '0' to `size` characters; a longer input is kept whole |
| Helper.ToHex | src/Helper.ts:39-41 | two upper-case hex digits that parse back to the byte |
| Helper.DisplayHex | src/Helper.ts:49-58 | an empty array gives ""; otherwise two characters per byte and one separator between consecutive bytes |
| Helper.DisplayHexPositions | src/Helper.ts:49-58 | byte i of the spaced view sits at characters 3i and 3i+1, followed by a space unless it is last |
| Helper.HexRoundTrip | src/Helper.ts:49-58 | parsing the unspaced hex view of any byte array gives the array back |
| Helper.InsertValueInByte | src/Helper.ts:72-98 | fails exactly when the byte, the value or the offset is out of range, naming the first such check in source order |
| Helper.InsertIntoLowBits | src/Helper.ts:88-97 | inserting into a byte whose bits from the offset up are clear adds `value << offset` |
| Helper.HexStringToBytes | src/Helper.ts:108-125 | fails exactly on an odd length; otherwise gives half as many bytes, which read big-endian give the string's hex value |
| Helper.NumberToByteArray | src/Helper.ts:135-154 | a negative number gives `size` zeros; otherwise max(size, bytes needed) bytes, zeros first, whose byte j from the end is byte j mod 4 of the number's low 32 bits; below 2^32 their big-endian value is the number |
| Helper.WideNumberWraps | src/Helper.ts:148-151 | from 2^32 on the 32-bit shifts wrap: 2^33 + 1 gives 01 00 00 00 01 where its big-endian digits are 02 00 00 00 01 |
| Helper.NumberFitsSize | src/Helper.ts:143-145 | a number below 256^size packs into exactly `size` bytes |
| Helper.ToByteArray | src/Helper.ts:201-217 | a hex string of at most 2·size digits gives `size` bytes whose big-endian value is the string's |
| Helper.ZeroPaddingValue | src/Helper.ts:203 | padding a hex string with zeros keeps the number it denotes |
| Helper.IsInByteRange | src/Helper.ts:187-189 | a value is in byte range exactly when a Uint8Array stores it unchanged |
| Helper.ByteCount | src/Helper.ts:137 | the least k with n < 256^k |
| Base64.DecodeEncode | src/Helper.ts:178-184 | decoding the base64 text of any byte array gives the array back |
| Base64.EncodeIsEncoding | src/Helper.ts:178-184 | the text is groups of four alphabet characters, padded with '=' only at the end |
| Base64.Encode | src/Helper.ts:178-184 | four characters for every started group of three bytes |
| Sensors.OperationOf | src/Sensors/Common.ts:24-28 | the operation found for a text is the one whose symbol is that text |
| Sensors.OperationSymbols | src/Sensors/Common.ts:24-28 | each operation's symbol names that operation |
| Sensors.ThresholdId.Code | src/Sensors/MP.tsx:251-289 | each threshold identifier has a byte, and that byte names it back |
| Sensors.CodeInjective | src/Sensors/MP.tsx:251-289 | distinct threshold identifiers have distinct bytes |
| Sensors.CodeRanges | src/Sensors/MP.tsx:251-289 | the identifier bytes are exactly 0x02 and 0x10-0x1B, 0x30-0x3B, 0x50-0x5B |
| Formatter.Store | src/EncoderLib.ts:235-236 | `buf[i] = v` keeps the length, changes only byte i, and only when i is inside the buffer |
| Formatter.SetAt | src/EncoderLib.ts:238 | `set` succeeds exactly when the bytes fit at the offset, copies them there and keeps every other byte |
| Formatter.WindowingCode | src/EncoderLib.ts:313-322 | only "none", "hann" and "flattop" are accepted; anything else raises the windowing error |
| Formatter.FormatKeepalive | src/EncoderLib.ts:246-249 | fails exactly when the interval or the mode is above 255, with the value range error |
| Formatter.FormatPresetSelection | src/EncoderLib.ts:301-312 | fails exactly when the main or the given secondary preset is outside byte range, with the preset error |
| Formatter.FormatPresetSelectionAsWritten | src/EncoderLib.ts:301-312 | as written, fails only for a main preset outside byte range or a one-byte buffer: the secondary check reads back the stored byte |
| Formatter.FormatPresetConfiguration | src/EncoderLib.ts:323-344 | fails exactly when the hour, minute or second is outside byte range; the hour raises the preset error, the others the time error |
| Formatter.FormatPresetRequest | src/EncoderLib.ts:345-349 | fails exactly when the preset id is outside byte range |
| Formatter.FormatWindowConfiguration | src/EncoderLib.ts:350-374 | raises the first failing check in source order (preset, window 1-8, peak count 1-64, min below max, both frequencies 0-20800); once they pass, succeeds exactly when the buffer holds eight bytes |
| Formatter.FormatWindowRequest | src/EncoderLib.ts:375-383 | fails exactly on a preset outside byte range (preset error) or a window outside 1-8 (window error) |
| Formatter.FormatThresholdLevel | src/EncoderLib.ts:404-407 | succeeds exactly when the buffer holds the four level bytes after byte 2 |
| Formatter.FormatShared | src/EncoderLib.ts:233-451 | the unknown-type error is raised exactly for payloads with no known tag: untyped, empty and composite |
| Formatter.Format | src/EncoderLib.ts:226-457 | a result is always the characteristic's size; the unknown-type error is raised exactly for untyped, empty and composite payloads |
| Formatter.FormatAsWritten | src/EncoderLib.ts:226-457 | as written, raw time data is also refused as an unknown type, while an untyped payload takes the raw time data branch (its label is `undefined`) and gives `size` zeros when the buffer has three bytes, else the range error |
| WireLayout.PaddedElements | src/EncoderLib.ts:228 | a padded layout holds the layout's bytes first and the fresh buffer's zeros after them, up to the buffer's size |
| WireLayout.Reference | src/EncoderLib.ts:226-457 | the expected result: the first range error in source order, else the padded layout |
| WireLayout.LayoutFits | src/Sensors/Common.ts:165-358 | every layout fits the longest layout of its type, and only the threshold configuration, communication mode and composite are shorter |
| WireLayout.FormatMatchesLayout | src/EncoderLib.ts:226-457 | for every payload in the layout domain (a threshold datum of at most eight hex digits, a keepalive whose interval is below 8 or which fails, datalog and raw time data numbers below 2^16) and every buffer that holds its layout, the formatter gives exactly the reference result |
| WireLayout.KeepaliveBytes | src/EncoderLib.ts:246-249 | a keepalive is one byte: the interval in bits 0-2 and the mode from bit 3 |
| WireLayout.AxisSelectionBytes | src/EncoderLib.ts:293-300 | the axis byte is x 0x04, y 0x02 and z 0x01 ORed together |
| WireLayout.ThresholdConfigBytes | src/EncoderLib.ts:388-403 | identifier, 0x00, then the flags byte: event 0x80, enabled 0x40, above 0x20, auto clear 0x10, BLE 0x04, LoRa 0x02 |
| WireLayout.ThresholdLevelBytes | src/EncoderLib.ts:404-407 | identifier, 0x01, then the level's 32-bit pattern big-endian |
| WireLayout.ThresholdCommModeBytes | src/EncoderLib.ts:408-429 | identifier, 0x03, then the BLE mode and LoRa mode codes |
| WireLayout.ThresholdRequestBytes | src/EncoderLib.ts:431-444 | identifier, then the selected parameter's code |
| WireLayout.WindowConfigurationBytes | src/EncoderLib.ts:350-374 | preset, window, enable flag, peak count, then both frequencies big-endian on two bytes |
| WireLayout.PresetConfigurationBytes | src/EncoderLib.ts:323-344 | preset, frame format, bandwidth mode, then hour, minute and second |
| WireLayout.ThresholdBytes | src/EncoderLib.ts:234-239 | identifier and parameter parsed from hex, then the datum on four bytes big-endian |
| WireLayout.HeadNumberTailBytes | src/EncoderLib.ts:267-271 | head byte, the index on two bytes big-endian, then the length byte |
| WireLayout.DatalogAnalysisBytes | src/EncoderLib.ts:272-275 | 0x02, then the length on two bytes big-endian |
| WireLayout.MeasIntervalBytes | src/EncoderLib.ts:262-266 | hour, minute and second, each parsed from decimal |
| Registry.Rights.Text | src/Sensors/Common.ts:165-358 | every rights text is non-empty, and the LoRa pattern allows a write for every rights text except "r" |
| Registry.HexText | src/Sensors/Common.ts:166-173 | a UUID is four hex digits that parse back to its 16-bit number |
| Registry.DecimalText | src/Sensors/Common.ts:166-173 | a payload size is decimal digits that parse back to the number |
| Registry.Entry | src/Sensors/Common.ts:165-358 | a database entry sits under its own tag, parses back to its line's UUID and size, and its size holds the layout of its type |
| Registry.RowsFit | src/Sensors/Common.ts:165-358 | every line of every database has a 16-bit UUID and a size holding its type's layout, exactly so when writable |
| Registry.Lookup | src/Sensors/MP.tsx:157-248 | a family's database holds a valid entry under a tag exactly when its line exists, with that line's UUID, size and rights |
| Registry.SameUuidText | src/Sensors/MP.tsx:183-238 | lines with the same UUID number give the same UUID text |
| Registry.SpreadLookupLast | src/Sensors/Common.ts:394-419 | in a spread object, a type has the entry of the last database that has it |
| Registry.SpreadLookupNone | src/Sensors/Common.ts:394-419 | a spread object lacks a type none of its databases has |
| Registry.SpreadLookupAppend | src/Sensors/Common.ts:407-413 | spreading one more database that lacks a type leaves that type's entry unchanged |
| Registry.Supported | src/Sensors/Common.ts:394-419 | what a firmware and model support is a valid entry of a spread they have |
| Registry.SupportedExtends | src/Sensors/Common.ts:401-413 | a firmware spreading another's databases plus one more supports the same, except where the extra database wins |
| Registry.Vibration42ExtendsVibration41 | src/Sensors/Common.ts:401-413 | vibration 4.2 spreads the 4.1 databases and then its own, which holds only the protocol version |
| Registry.Vibration52OnlyRawTimeData | src/Sensors/Common.ts:414-418 | vibration 5.2 supports a type exactly when it is the raw time data |
| EncoderLib.Frame.ToHexString | src/EncoderLib.ts:472-474 | each byte's two hex digits at positions 3i and 3i+1, separated by single spaces |
| EncoderLib.Frame.ToBase64 | src/EncoderLib.ts:484-486 | a well-formed base64 text that decodes back to the frame's bytes |
| EncoderLib.OperationCode | src/EncoderLib.ts:36-45 | 0x01 exactly for a write, 0x00 exactly for a read, 0x02 otherwise |
| EncoderLib.OperationCodeInjective | src/EncoderLib.ts:36-45 | the first header byte identifies the operation |
| EncoderLib.Header | src/EncoderLib.ts:33-50 | three bytes: the operation code, then the UUID's value as high byte and low byte |
| EncoderLib.FPort | src/EncoderLib.ts:97-100 | 21 exactly for vibration 4.2 types, 20 exactly for other single-point, multipoint or common types, else 0 |
| EncoderLib.Encode | src/EncoderLib.ts:18-103 | with the corrected formatter: UUID errors first; a success is the header then, for a write, `size` payload bytes, on the type's port; a read is the header alone |
| EncoderLib.EncodeWrite | src/EncoderLib.ts:57-85 | a write raises the first failing check (rights present, writable, payload present, same type, type present, where `"empty"` counts as present), else header plus formatter output |
| EncoderLib.EncodeAsWritten | src/EncoderLib.ts:18-103 | `encode` as written gives the same result as the corrected encoder for every payload except preset selection and raw time data; raw time data that passes the write checks is refused as an unknown type |
| EncoderLib.PresetSelectionWrittenAsIs | src/EncoderLib.ts:301-312 | as written, a preset selection with its main preset in byte range is always written on a two-byte characteristic, its secondary preset stored modulo 256; the corrected encoder refuses a secondary outside byte range |
| EncoderLib.AsMultipointThreshold | src/EncoderLib.ts:199-201 | the copy differs from the characteristic only in its type, the multipoint threshold |
| EncoderLib.EncodeMultiFrame | src/EncoderLib.ts:193-220 | a composite gives level, communication mode when LoRa or BLE mode is set, then configuration, each encoded on the copy; any other payload gives no frame |
| EncoderLib.MultiFrameFailure | src/EncoderLib.ts:203-216 | a composite fails exactly when one of its sub-frames fails, with the error of the first that fails, in the order level, communication mode (when sent), configuration |
| EncoderLib.LevelFrame | src/EncoderLib.ts:204 | the level sub-frame keeps the composite's identifier and level, typed as the multipoint threshold |
| EncoderLib.CommFrame | src/EncoderLib.ts:209 | the communication-mode sub-frame keeps the identifier and both modes |
| EncoderLib.ConfigFrame | src/EncoderLib.ts:214 | the configuration sub-frame keeps the identifier and every flag |
| EncoderLib.WriteAccessor | src/EncoderLib.ts:137-148 | a payload marked multi-frame goes through the multi-frame encoder; any other gives the one frame `encode` gives, or the same error |
| EncoderLib.UnmarkedCompositeIsUnknown | src/EncoderLib.ts:181-183 | a composite threshold not marked multi-frame reaches the formatter and is refused as an unknown type |
| EncoderLib.EmptyTypeIsUnknown | src/EncoderLib.ts:77-82 | a write of the empty payload (`type: "empty"`) passes the "Payload needed" check and is refused by the formatter as an unknown type; only a payload with no type raises "Payload needed" |
| EncoderProperties.RegistryRead | src/EncoderLib.ts:36-50 | the read of any database entry is code 0x00 and the UUID's two bytes, whatever payload is passed |
| EncoderProperties.RegistryWrite | src/EncoderLib.ts:57-92 | a write of an entry's own type raises its first range error or gives the header then the layout padded to the size, which always fits |
| EncoderProperties.MultiFrameWrite | src/EncoderLib.ts:193-220 | a composite written to a writable six-byte characteristic always gives its two or three frames, each header plus padded layout on port 20 |
| EncoderProperties.SubFrameWrite | src/EncoderLib.ts:384-430 | each threshold sub-frame encodes to the header and its padded layout on port 20 |
| EncoderProperties.AppEuiNotWritable | src/Sensors/Common.ts:310-317 | the application EUI is read-only: every write of it raises the not-writable error |
| EncoderProperties.MeasIntervalRights | src/Sensors/MP.tsx:239-246 | the measurement interval is writable on single-point and read-only on multipoint, under the same UUID |
| EncoderProperties.SharedPresetUuid | src/Sensors/MP.tsx:183-198 | the preset configuration and its request share UUID FA10 |
| EncoderProperties.SharedWindowUuid | src/Sensors/MP.tsx:199-214 | the window configuration and its request share UUID FA11 |
| EncoderProperties.SharedThresholdUuid | src/Sensors/MP.tsx:215-238 | the three multipoint threshold entries share UUID B201 with the common threshold |
| EncoderProperties.VibrationPorts | src/EncoderLib.ts:97-100 | protocol version frames go to port 21 and raw time data frames to port 0 |
| EncoderProperties.FamilyPorts | src/EncoderLib.ts:97-98 | every common, single-point and multipoint type goes to port 20 |
| Scenarios.AxisSelectionEntry | src/Sensors/MP.tsx:159-166 | the axis selection is UUID FA01, one byte, writable |
| Scenarios.ProtocolVersionEntry | src/Sensors/4.2.0/Vibration.tsx:15-24 | vibration 4.2 takes the protocol version from its own database: AA01, one byte, writable |
| Scenarios.RawTimeDataEntry | src/Sensors/5.2.0/Vibration.tsx:17-26 | vibration 5.2 takes the raw time data from its own database: DA03, four bytes, write-read |
| Scenarios.LookupWritable | src/EncoderLib.ts:60-65 | a database line with rights other than "r" gives a characteristic the LoRa pattern lets through |
| Scenarios.ReadAxisSelection | test/multipoint.test.ts:12-14 | reading the axis selection gives 00 FA 01 on port 20 |
| Scenarios.WriteAxisSelection | test/multipoint.test.ts:16-19 | writing axes x and y gives 01 FA 01 06 on port 20 |
| Scenarios.WriteProtocolVersion | test/vibration4_2.test.ts:16-20 | writing protocol version 1 gives 01 AA 01 01, on port 21 where the test expects 20 |
| Scenarios.WriteReadRawTimeData | test/vibration5_2.test.ts:10-15 | write-reading raw time data of x from index 255 for 6 samples gives 02 DA 03 04 00 FF 06, on port 0 where the test expects 20 |
| Scenarios.WriteReadRawTimeDataAsWritten | src/EncoderLib.ts:278 | as written, the same write-read of raw time data is refused as an unknown type |
| Scenarios.WritePresetSelectionAsWritten | src/Sensors/MP.tsx:167-174 | writing preset 1 with secondary 300 to the preset selection entry gives 01 FA 02 01 2C on port 20 as written, and the preset range error when corrected |
| Scenarios.AxisSelectionText | src/EncoderLib.ts:472-474 | the hex text of the axis selection read frame is "00 FA 01" |
| Findings.RawTimeDataAsWritten | src/EncoderLib.ts:278 | the raw time data of the 5.2 test is refused as written but formatted to 04 00 FF 06 when dispatched on its own tag |
| Findings.UntypedAsWritten | src/EncoderLib.ts:278 | as written, an untyped payload in a four-byte buffer gives four zeros, where the corrected formatter refuses it as an unknown type |
| Findings.PresetSelectionAsWritten | src/EncoderLib.ts:307-309 | a secondary preset of 300 is accepted as written and wraps to 0x2C, but raises the preset error when checked as a value |

## Left out

- The `Encoder` class and `createEncoder` (src/EncoderLib.ts:105-179) bind accessors by reflection over a database object. Only their dispatch rule is modelled, as `EncoderLib.WriteAccessor`. The `read` accessor is `Encode` with a read. An unsupported firmware and model pair is `Registry.Spread` returning `None`.
- IEEE-754 encoding of the threshold level (`floatToHexString`) is floating point. The payload carries the level's 32-bit pattern, and the model writes that pattern.
- `atob`/`btoa` are host functions. `uint8ArrayToBase64` is modelled by a base64 encoder written out in Dafny. `base64ToHex` is not used by the encoder and is left out.
- `Math.log2` in `numberToByteArray` is floating point. `Helper.ByteCount` is the exact byte count. Rounding can make the two differ just above a large power of 256 (from about 2^48), far beyond the indices and lengths a frame carries; the model does not follow that rounding.
- Helper.NumberToByteArray: numbers above 2^53 are not exact in a JavaScript number, so the model's exact integer can differ from what the program holds there.
- WireLayout.FormatMatchesLayout: is proved only on the layout domain. Outside it the formatter's result is still stated by `Formatter.Format` (length, error kind), but not compared with a reference: a threshold datum longer than eight hex digits overruns the buffer; a keepalive interval of 8-255 spills into the mode bits; a datalog or raw time data number of 2^16 or more overwrites the next byte or overruns.
- Formatter.Format: numeric payload fields are integers. A fractional value, which a `Uint8Array` store truncates (a percentage of 50.5 stores 50), is not modelled.
- EncoderLib.Encode: formats with the corrected formatter, so it does not promise what `encode` does on the two findings: a secondary preset outside byte range raises the preset range error where `encode` stores it modulo 256, and raw time data is written where `encode` refuses it as an unknown type. `EncoderLib.EncodeAsWritten` states what `encode` does on both.
- EncoderProperties.RegistryWrite: states the corrected encoder, so for a preset selection whose secondary preset is outside byte range it promises the preset range error, and for raw time data the layout; `EncoderLib.PresetSelectionWrittenAsIs` and `EncoderLib.EncodeAsWritten` state the program's frames there.
- Formatter.FormatAsWritten: the untyped case it models cannot be reached through `encode`, which throws "Payload needed" at src/EncoderLib.ts:77-79 first.
- `parseInt` on malformed text (NaN) is left out: digit and hex-digit fields are required to be well formed. The empty size text parses to NaN, which a `Uint8Array` length turns into 0. The model parses it as 0.
- The `charac_name` and `ble` fields of a characteristic play no part in a frame. They are left out.
- `src/EncoderLib.tsx` and `src/Schemas.ts` are the user-interface schemas. They are not part of this model.
- The payload interfaces' literal types (`WellTyped`) are not checked by the encoder at run time. The model states them but does not require them.
- Formatter.FormatThreshold: states only the length and the error kind. Its bytes are stated by `WireLayout.ThresholdBytes`.
- Formatter.FormatMeasInterval: states only the length. Its bytes are stated by `WireLayout.MeasIntervalBytes`.
- Formatter.FormatAxisSelection: states only the length. Its bytes are stated by `WireLayout.AxisSelectionBytes`.

## Findings

| source | as written | input that shows it | evidently intended | confidence | as-written member | corrected member |
|---|---|---|---|---|---|---|
| src/EncoderLib.ts:278 | the raw time data case is labelled `CharacTypeMP.RAW_TIME_DATA`, a member the multipoint enum does not have, so `raw_time_data` payloads fall to the unknown-type default | the write-read of raw time data `{axis_selected: "x", index: 255, length: 6}` of test/vibration5_2.test.ts | dispatch on `raw_time_data` and write 04 00 FF 06 | not executed | Findings.RawTimeDataAsWritten | WireLayout.FormatMatchesLayout |
| src/EncoderLib.ts:307-309 | the secondary preset is range-checked after it is stored, by reading back the stored byte, which is always in range | `preset_selection` with main 1 and secondary 300 in a two-byte buffer | refuse a secondary preset outside 0-255 with the preset error | not executed | Findings.PresetSelectionAsWritten | Formatter.FormatPresetSelection |
