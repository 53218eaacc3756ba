/** The records of the MMI (the driver's man-machine interface) log as the
    MMI analyzers read them. The MMI parser that produces them is not part of
    this model: its event-type constants are known only by name, so they are
    distinct constructors here, and every other type value is `OtherEvent`. */
module MmiRecords {
  import opened Common

  datatype MmiEventType =
    | EventError
    | EventModeChange
    | EventUserAction
    | EventShutdown
    | EventStartup
    | OtherEvent(code: int)

  /** An event: its time in whole seconds, its type and its payload. */
  datatype MmiEventRecord = MmiEventRecord(timestamp: int, eventType: MmiEventType, eventData: seq<Byte>)

  /** A speed sample: its time in whole seconds and the speed in km/h. */
  datatype MmiSpeedRecord = MmiSpeedRecord(timestamp: int, speed: real)
}
