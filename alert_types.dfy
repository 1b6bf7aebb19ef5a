/** The alert record and its kind. */
module AlertTypes {

  /** The alert's `type`: "default", "success" or "error". */
  datatype AlertKind = Default | Success | Error

  /** `duration` is in milliseconds and `timestamp` is the creation time. */
  datatype Alert = Alert(
    id: string,
    message: string,
    kind: AlertKind,
    duration: int,
    timestamp: int)

  /** The id of an alert, as the key the list filters on. */
  function AlertId(a: Alert): string
  {
    a.id
  }
}
