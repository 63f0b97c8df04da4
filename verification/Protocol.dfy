/** The wire contract shared by agent and server (internal/protocol/protocol.go). */
module Protocol {

  /** The dwell cap: a gap longer than this many seconds counts as absence. */
  const MAX_HEARTBEAT_GAP: int := 30

  const SCHEMA_VERSION: int := 1

  /** What a heartbeat says was seen: the columns a dwell query can group by. */
  datatype Label = Label(app: string, category: string, active: bool)

  datatype Heartbeat = Heartbeat(id: string, ts: int, seen: Label)
}
