/** The normalised event the detectors consume. */
module Events {

  datatype Source = Syslog | File | Journald | Docker | Windows | Netflow

  datatype Auth = NoAuth | Failure | Success

  datatype Event = Event(
    timestamp: int, source: Source, sourceId: string, host: string, app: string, message: string,
    auth: Auth, user: string, srcIP: string, dstIP: string, dstPort: int, bytesOut: int, action: string, raw: string)

  /** The best identity to key detections on. */
  function Actor(e: Event): string
  {
    if e.srcIP != "" then e.srcIP else if e.user != "" then "user:" + e.user else e.host
  }

  function OrAny(s: string): string
  {
    if s == "" then "any" else s
  }
}
