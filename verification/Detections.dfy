/** A fired detector result. Times are nanoseconds from Go's zero time, so zero is "no time". */
module Detections {
  import opened LineText

  datatype Kind = BruteForce | PortScan | Exfil | NewAdmin | AuthSpike | Beaconing | NewService | Sentinel

  datatype Detection = Detection(
    kind: Kind, severity: string, actor: string, target: string, user: string, title: string,
    count: int, firstAt: int, lastAt: int, evidence: seq<string>, key: string)

  function KindName(k: Kind): string
  {
    match k
    case BruteForce => "brute_force"
    case PortScan => "scan"
    case Exfil => "exfil"
    case NewAdmin => "new_admin"
    case AuthSpike => "auth_spike"
    case Beaconing => "beacon"
    case NewService => "new_service"
    case Sentinel => "sentinel_finding"
  }

  /** The word that begins every key of a kind, before a bar. */
  function KindWord(k: Kind): string
  {
    match k
    case BruteForce => "brute"
    case PortScan => "scan"
    case Exfil => "exfil"
    case NewAdmin => "newadmin"
    case AuthSpike => "spike"
    case Beaconing => "beacon"
    case NewService => "newsvc"
    case Sentinel => "sentinel"
  }

  /** What a detector fires: it is called something, and its key begins with the word of its kind. */
  predicate Keyed(d: Detection)
  {
    d.title != "" && HasPrefix(d.key, KindWord(d.kind) + "|")
  }

  lemma KeyedBy(d: Detection, opening: string, rest: string)
    requires d.title != "" && d.key == opening + rest && opening == KindWord(d.kind) + "|"
    ensures Keyed(d)
  {
    hide KindWord;
  }
}
