/** The errors the encoder throws. Each constructor stands for one `throw` of the
    encoder or its helpers: the named error classes and the plain `Error`s raised with
    a message. */
module Errors {

  datatype Error =
    // Frame encoder preconditions, in the order they are checked
    | MissingUuid
    | InvalidUuidLength
    | MissingLoraRights
    | NotWriteable
    | MissingPayload
    | PayloadTypeMismatch
    | EmptyPayloadType
    // Payload formatter
    | UnknownCharacType
    | PresetRange
    | WindowingFunction
    | TimeOutOfRange
    | WindowRange
    | PeakRange
    | FrequencyBoundaries
    | FrequencyRange
    // Byte helpers
    | ByteOutOfRange
    | ValueOutOfRange
    | OffsetOutOfRange
    | OddHexLength
    // `Uint8Array.prototype.set` with a source that runs past the end of the target
    | TypedArrayRange

  /** The human-readable description each error carries. */
  function Message(e: Error): string {
    match e
    case MissingUuid => "UUID field is missing in the characteristic."
    case InvalidUuidLength => "UUID shall be 2 bytes long."
    case MissingLoraRights => "LoRa rights needs to be mentionned inside the charac object. Check Schemas."
    case NotWriteable => "This charactheristic is not writeable."
    case MissingPayload => "A userPayload is mandatory for a Write or Write+Read operation."
    case PayloadTypeMismatch => "The payload does not fit with this charactheristic. Take a look at Schemas."
    case EmptyPayloadType => "Payload needed"
    case UnknownCharacType => "This type of frame cannot be decoded. Please raise a Github issue."
    case PresetRange => "Preset number should be between 0 & 255"
    case WindowingFunction => "Unknown windowing function"
    case TimeOutOfRange => "Time should be between 0 and 255 (h/m/s)"
    case WindowRange => "Window ID should be between 0 and 8."
    case PeakRange => "Peak count should be between 0 and 64."
    case FrequencyBoundaries => "A window lowest frequency should be lowest than its maximal frequency."
    case FrequencyRange => "Frequency should be between 0 and 20800 Hz."
    case ByteOutOfRange => "The byte must be an integer between 0 and 255"
    case ValueOutOfRange => "The value must be an integer between 0 and 255"
    case OffsetOutOfRange => "The offset must be an integer between 0 and 7"
    case OddHexLength => "The hex string must have an even length"
    case TypedArrayRange => "offset is out of bounds"
  }
}
