/** Object types and property identifiers, as ANSI/ASHRAE 135 numbers them (clause 21). */
module Identifiers {
  type PropertyId = nat

  const ANALOG_INPUT: nat := 0
  const ANALOG_OUTPUT: nat := 1
  const ANALOG_VALUE: nat := 2
  const BINARY_INPUT: nat := 3
  const BINARY_OUTPUT: nat := 4
  const BINARY_VALUE: nat := 5
  const DEVICE: nat := 8
  const FILE: nat := 10
  const NOTIFICATION_CLASS_TYPE: nat := 15
  const TREND_LOG: nat := 20

  const ACKED_TRANSITIONS: PropertyId := 0
  const ARCHIVE: PropertyId := 13
  const NOTIFICATION_CLASS: PropertyId := 17
  const DEADBAND: PropertyId := 25
  const DESCRIPTION: PropertyId := 28
  const EVENT_ENABLE: PropertyId := 35
  const EVENT_STATE: PropertyId := 36
  const HIGH_LIMIT: PropertyId := 45
  const LIMIT_ENABLE: PropertyId := 52
  const LOCATION: PropertyId := 58
  const LOW_LIMIT: PropertyId := 59
  const MAX_APDU_LENGTH_ACCEPTED: PropertyId := 62
  const NOTIFY_TYPE: PropertyId := 72
  const OBJECT_IDENTIFIER: PropertyId := 75
  const OBJECT_LIST: PropertyId := 76
  const OBJECT_NAME: PropertyId := 77
  const OBJECT_TYPE: PropertyId := 79
  const OUT_OF_SERVICE: PropertyId := 81
  const PRESENT_VALUE: PropertyId := 85
  const PRIORITY_ARRAY: PropertyId := 87
  const PROTOCOL_VERSION: PropertyId := 98
  const RELINQUISH_DEFAULT: PropertyId := 104
  const SEGMENTATION_SUPPORTED: PropertyId := 107
  const STATUS_FLAGS: PropertyId := 111
  const SYSTEM_STATUS: PropertyId := 112
  const TIME_DELAY: PropertyId := 113
  const UNITS: PropertyId := 117
  const VENDOR_IDENTIFIER: PropertyId := 120
  const PROTOCOL_REVISION: PropertyId := 139
  const RECORD_COUNT: PropertyId := 141
  const TOTAL_RECORD_COUNT: PropertyId := 145
}
