/** The characteristic type tags: the values of the per-family type enums, one
    constructor per distinct string (the single-point and multipoint enums share
    "meas_interval"). */
module CharacTypes {

  datatype CharacType =
    // Common
    | AppEui | Battery | BatteryDiagnosis | BleActivation | CommunicationDiagnosis | DevEui
    | DeviceStatus | FirmwareResolution | HardwareRevision | InternalTemperature | Keepalive
    | LastDataAcquired | LoraMode | LoraPercentage | LoraStatus | Manufacturer | MeasCounter
    | ModelNumber | NetId | Region | SensorDiagnosis | SerialNumber | Threshold | TriggerMeasurement
    // Single-point
    | DatalogAnalysis | DatalogData | MeasInterval
    // Multipoint
    | AxisSelection | PresetSelection | WindowingFunction | PresetConfiguration | PresetRequest
    | WindowConfiguration | WindowRequest | MultipointThreshold | MultipointThresholdRequest
    | MultipointThresholdMulti
    // Vibration 4.2 and 5.2
    | ProtocolVersion | RawTimeData
  {
    /** The enum value. */
    function Name(): string {
      match this
      case AppEui => "app_eui"
      case Battery => "battery"
      case BatteryDiagnosis => "battery_diagnosis"
      case BleActivation => "ble_activation"
      case CommunicationDiagnosis => "communication_diagnosis"
      case DevEui => "dev_eui"
      case DeviceStatus => "device_status"
      case FirmwareResolution => "firmware_resolution"
      case HardwareRevision => "hardware_revision"
      case InternalTemperature => "internal_temperature"
      case Keepalive => "keepalive"
      case LastDataAcquired => "last_data_acquired"
      case LoraMode => "lora_mode"
      case LoraPercentage => "lora_percentage"
      case LoraStatus => "lora_status"
      case Manufacturer => "manufacturer"
      case MeasCounter => "meas_counter"
      case ModelNumber => "model_number"
      case NetId => "net_id"
      case Region => "region"
      case SensorDiagnosis => "sensor_diagnosis"
      case SerialNumber => "serial_number"
      case Threshold => "threshold"
      case TriggerMeasurement => "trig_meas"
      case DatalogAnalysis => "datalog_analysis"
      case DatalogData => "datalog_data"
      case MeasInterval => "meas_interval"
      case AxisSelection => "axis_selection"
      case PresetSelection => "preset_selection"
      case WindowingFunction => "windowing_function"
      case PresetConfiguration => "preset_configuration"
      case PresetRequest => "preset_request"
      case WindowConfiguration => "window_configuration"
      case WindowRequest => "window_request"
      case MultipointThreshold => "multipoint_threshold"
      case MultipointThresholdRequest => "multipoint_threshold_request"
      case MultipointThresholdMulti => "multipoint_threshold_multi"
      case ProtocolVersion => "protocol_version"
      case RawTimeData => "raw_time_data"
    }
  }

  /** `CharacTypeCommon`. */
  const CommonTypes: seq<CharacType> := [
    AppEui, Battery, BatteryDiagnosis, BleActivation, CommunicationDiagnosis, DevEui,
    DeviceStatus, FirmwareResolution, HardwareRevision, InternalTemperature, Keepalive,
    LastDataAcquired, LoraMode, LoraPercentage, LoraStatus, Manufacturer, MeasCounter,
    ModelNumber, NetId, Region, SensorDiagnosis, SerialNumber, Threshold, TriggerMeasurement]

  /** `CharacTypeSP`. */
  const SpTypes: seq<CharacType> := [DatalogAnalysis, DatalogData, MeasInterval]

  /** `CharacTypeMP`. */
  const MpTypes: seq<CharacType> := [
    AxisSelection, PresetSelection, WindowingFunction, PresetConfiguration, PresetRequest,
    WindowConfiguration, WindowRequest, MultipointThreshold, MultipointThresholdRequest,
    MultipointThresholdMulti, MeasInterval]

  /** `CharacTypeVib4_2`. */
  const Vib42Types: seq<CharacType> := [ProtocolVersion]

  /** `CharacTypeVib5_2`. */
  const Vib52Types: seq<CharacType> := [RawTimeData]

  /** The `type` field of a characteristic or of a payload: one of the tags, the
      "empty" of the empty payload object, or absent. */
  datatype TypeField = Tagged(tag: CharacType) | EmptyTag | NoTag
  {
    /** `isValidPayloadType`: the field is one of the values the enum lists. */
    predicate IsValidPayloadType(family: seq<CharacType>) {
      Tagged? && tag in family
    }
  }
}
