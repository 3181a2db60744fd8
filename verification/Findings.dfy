/** The normalised finding, its severity order and the checks it passes before it is stored. */
module Findings {
  import opened Wire

  datatype Severity = Critical | High | Medium | Low | Info | Unknown(text: string)

  /** Unknown severities sort lowest. */
  function Rank(s: Severity): (r: int)
    ensures -1 <= r <= 4
  {
    match s
    case Critical => 4
    case High => 3
    case Medium => 2
    case Low => 1
    case Info => 0
    case Unknown(_) => -1
  }

  datatype Status = Open | Acknowledged | Suppressed | Resolved

  /** Structured evidence, abstracted to its serialised size; None marks a value that does not serialise. */
  datatype Evidence =
    | NoEvidence
    | Blob(content: string, size: Option<nat>)
    | NotSerialisable
    | Truncated(originalBytes: nat)

  const MAX_EVIDENCE_BYTES: nat := 64 * 1024

  datatype Finding = Finding(
    fingerprint: string, target: string, check: string, title: string,
    severity: Severity, remediation: string, evidence: Evidence,
    id: string, mod: string, status: Status, groupId: Option<string>,
    firstSeen: int, lastSeen: int, resolvedAt: Option<int>)

  datatype Record = Record(finding: Finding, absentStreak: int)

  datatype Reason = NoFingerprint | NoTarget | NoCheck | NoTitle | NoRemediation | BadSeverity

  /** The first requirement a finding fails. */
  function Validate(f: Finding): Option<Reason>
  {
    if f.fingerprint == "" then Some(NoFingerprint)
    else if f.target == "" then Some(NoTarget)
    else if f.check == "" then Some(NoCheck)
    else if f.title == "" then Some(NoTitle)
    else if f.remediation == "" then Some(NoRemediation)
    else if Rank(f.severity) < 0 then Some(BadSeverity)
    else None
  }

  predicate Valid(f: Finding)
  {
    Validate(f).None?
  }

  /** Oversized or unserialisable evidence is replaced by a marker. */
  function CapEvidence(f: Finding): Finding
  {
    match f.evidence
    case Blob(_, None) => f.(evidence := NotSerialisable)
    case Blob(_, Some(n)) => if n > MAX_EVIDENCE_BYTES then f.(evidence := Truncated(n)) else f
    case _ => f
  }

  datatype Key = Key(mod: string, fingerprint: string)

  type Records = map<Key, Record>

  /** Every record is filed under its own module and fingerprint. */
  ghost predicate Filed(recs: Records)
  {
    forall k :: k in recs ==> recs[k].finding.mod == k.mod && recs[k].finding.fingerprint == k.fingerprint
  }

  // --- the two stores ------------------------------------------------------

  /** The in-memory store overwrites; the SQLite conflict rule keeps the columns it does not list. */
  datatype Backend = Memory | Sqlite

  function Merge(backend: Backend, row: Record, r: Record): Record
  {
    match backend
    case Memory => r
    case Sqlite =>
      r.(finding := r.finding.(id := row.finding.id, target := row.finding.target,
                               check := row.finding.check, firstSeen := row.finding.firstSeen))
  }

  function KeyOf(r: Record): Key
  {
    Key(r.finding.mod, r.finding.fingerprint)
  }

  function Upsert(backend: Backend, recs: Records, r: Record): Records
  {
    recs[KeyOf(r) := if KeyOf(r) in recs then Merge(backend, recs[KeyOf(r)], r) else r]
  }

  /** The stores agree on one write exactly when it leaves the columns SQLite keeps as they are. */
  lemma BackendsAgreeIff(recs: Records, r: Record)
    ensures Upsert(Memory, recs, r) == Upsert(Sqlite, recs, r) <==>
            (KeyOf(r) in recs ==>
              var row := recs[KeyOf(r)].finding;
              row.id == r.finding.id && row.target == r.finding.target &&
              row.check == r.finding.check && row.firstSeen == r.finding.firstSeen)
  {
    if Upsert(Memory, recs, r) == Upsert(Sqlite, recs, r) && KeyOf(r) in recs {
      assert Upsert(Memory, recs, r)[KeyOf(r)] == r;
      assert Upsert(Sqlite, recs, r)[KeyOf(r)] == Merge(Sqlite, recs[KeyOf(r)], r);
    }
  }

  /** A findings store: ListByTarget gives its records in no particular order. */
  class FindingStore {
    const backend: Backend
    var recs: Records

    constructor (backend: Backend)
      ensures this.backend == backend && recs == map[]
    {
      this.backend := backend;
      recs := map[];
    }

    method Put(r: Record)
      modifies this
      ensures recs == Upsert(backend, old(recs), r)
    {
      recs := recs[KeyOf(r) := if KeyOf(r) in recs then Merge(backend, recs[KeyOf(r)], r) else r];
    }

    method Get(mod: string, fingerprint: string) returns (r: Option<Record>)
      ensures r == if Key(mod, fingerprint) in recs then Some(recs[Key(mod, fingerprint)]) else None
    {
      r := if Key(mod, fingerprint) in recs then Some(recs[Key(mod, fingerprint)]) else None;
    }

    method ListByTarget(mod: string, target: string) returns (out: seq<Record>)
      requires Filed(recs)
      ensures forall r :: r in out <==> KeyOf(r) in recs && recs[KeyOf(r)] == r && r.finding.mod == mod && r.finding.target == target
      ensures forall i, j :: 0 <= i < j < |out| ==> KeyOf(out[i]) != KeyOf(out[j])
    {
      out := [];
      var rest := recs.Keys;
      while rest != {}
        invariant rest <= recs.Keys
        invariant forall r :: r in out <==> KeyOf(r) in recs.Keys - rest && recs[KeyOf(r)] == r && r.finding.mod == mod && r.finding.target == target
        invariant forall i, j :: 0 <= i < j < |out| ==> KeyOf(out[i]) != KeyOf(out[j])
        decreases rest
      {
        var k :| k in rest;
        rest := rest - {k};
        if recs[k].finding.mod == mod && recs[k].finding.target == target {
          assert KeyOf(recs[k]) == k;
          out := out + [recs[k]];
        }
      }
    }
  }
}
