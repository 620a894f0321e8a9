/** Values shared by the components of the serial proxy. */
module SerialTypes {

  /** One octet as read from or written to a serial port. */
  newtype byte = b: int | 0 <= b < 256

  datatype Option<T> = None | Some(value: T)

  datatype Result<T, E> = Success(value: T) | Failure(error: E)

  /** The value a control field of an event takes when that line is not the subject. */
  const NotSet: int := -1

  /**
   * The event passed between the two ports. A control-line event carries the new
   * level (0 or 1) of CTS or DSR and NotSet in the other field; a data event carries
   * NotSet in both control fields and the bytes read.
   */
  datatype SerialData = SerialData(ctsSet: int, dsrSet: int, data: seq<byte>)

  /** The two modem input lines the proxy mirrors, as sampled from a port. */
  datatype ModemStatusBits = ModemStatusBits(cts: bool, dsr: bool)

  /** The event a reader emits for the bytes of one successful read. */
  function DataEvent(bytes: seq<byte>): (e: SerialData)
    ensures e.ctsSet == NotSet && e.dsrSet == NotSet && e.data == bytes
  {
    SerialData(NotSet, NotSet, bytes)
  }

  /** Go's rendering of a boolean with the %v verb. */
  function BoolText(b: bool): (t: string)
    ensures t == "true" <==> b
  {
    if b then "true" else "false"
  }
}
