/**
 The audit trail behind monitoring and discovery: a record says how a command ended, and is stored once
 under an id derived from the command and that result.
 */
module Audit {
  import opened Options
  import P = Policy

  /** Organization, actor and command id. */
  type Key = (string, string, string)

  datatype Result = DeniedResult | SimulatedResult | CancelledResult | FailedResult

  datatype AuditRecord = AuditRecord(key: Key, decision: P.Decision, reason: string, result: Result, timestamp: int)

  datatype Denial = Denial(decision: P.Decision, reason: string)

  /** A record is stored once under its id; a different one under that id is an error. */
  function Recorded(idOf: (Key, Result) -> string, audit: map<string, AuditRecord>, r: AuditRecord)
    : Option<map<string, AuditRecord>>
  {
    var id := idOf(r.key, r.result);
    if id !in audit then Some(audit[id := r]) else if audit[id] == r then Some(audit) else None
  }

  class InMemoryAuditSink {
    const idOf: (Key, Result) -> string
    var records: map<string, AuditRecord>

    constructor (idOf: (Key, Result) -> string)
      ensures this.idOf == idOf && records == map[]
    {
      this.idOf, records := idOf, map[];
    }

    /** True when the record is stored, false for an identical repeat, and `None` is the error. */
    method Append(r: AuditRecord) returns (stored: Option<bool>)
      modifies this
      ensures var id := idOf(r.key, r.result);
              && stored == (if id !in old(records) then Some(true) else if old(records)[id] == r then Some(false) else None)
              && records == if id !in old(records) then old(records)[id := r] else old(records)
    {
      var id := idOf(r.key, r.result);
      if id !in records {
        records := records[id := r];
        return Some(true);
      }
      if records[id] != r {
        return None;
      }
      return Some(false);
    }
  }
}
