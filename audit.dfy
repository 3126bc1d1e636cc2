/** The access-log reader of backend/src/modules/audit.ts. A patient reads the
    log rows about themself; anyone else names a patient and must hold that
    patient's consent for their own hospital. Nothing here passes through the
    consent gate, so reading the log writes no log row. */
module Audit {
  import opened Wrappers
  import opened Jwt
  import opened Tables
  import opened Middleware

  /** A row of `SELECT created_at, actor_role, action, resource, decision`. */
  datatype LogView = LogView(createdAt: nat, actorRole: Role, action: string, resource: string, decision: Decision)

  function LogViews(ls: seq<AccessLog>): (r: seq<LogView>)
    ensures |r| == |ls| && forall k :: 0 <= k < |ls| ==>
      r[k] == LogView(ls[k].createdAt, ls[k].actorRole, ls[k].action, ls[k].resource, ls[k].decision)
  {
    seq(|ls|, k requires 0 <= k < |ls| => LogView(ls[k].createdAt, ls[k].actorRole, ls[k].action, ls[k].resource, ls[k].decision))
  }

  /** `WHERE patient_id=$1 ORDER BY created_at DESC` (a null parameter matches no row). */
  function PatientLogs(logs: seq<AccessLog>, patientId: Option<string>): seq<AccessLog> {
    NewestFirst(logs, (l: AccessLog) => patientId.Some? && l.patientId == patientId)
  }

  /** GET /audit/logs: at most 200 rows, newest first. */
  function ReadLogs(u: Claims, queryPatientId: Option<string>, logs: seq<AccessLog>, cs: seq<Consent>): (r: Response<seq<LogView>>)
    ensures r.Ok? || r.Fail?
    ensures u.role.Patient? ==> r == Ok(LogViews(Take(PatientLogs(logs, u.patientId), 200)))
    ensures !u.role.Patient? && !Truthy(queryPatientId) ==> r == Fail(400, "patientId required")
    ensures !u.role.Patient? && Truthy(queryPatientId) && !Truthy(u.hospitalId) ==> r == Fail(400, "missing hospital")
    ensures !u.role.Patient? && Truthy(queryPatientId) && Truthy(u.hospitalId) ==>
      if ConsentGranted(cs, queryPatientId.value, u.hospitalId.value)
      then r == Ok(LogViews(Take(PatientLogs(logs, queryPatientId), 200)))
      else r == Fail(403, "Consent denied")
    ensures r.Ok? ==> |r.body| <= 200
  {
    if u.role.Patient? then Ok(LogViews(Take(PatientLogs(logs, u.patientId), 200)))
    else if !Truthy(queryPatientId) then Fail(400, "patientId required")
    else if !Truthy(u.hospitalId) then Fail(400, "missing hospital")
    else if !ConsentGranted(cs, queryPatientId.value, u.hospitalId.value) then Fail(403, "Consent denied")
    else Ok(LogViews(Take(PatientLogs(logs, queryPatientId), 200)))
  }

  /** Whoever reads, every row served is about one patient: the caller
      themself, or the named patient whose consent the caller's hospital holds.
      There is no emergency override. */
  lemma ServedLogsAreAuthorised(u: Claims, queryPatientId: Option<string>, logs: seq<AccessLog>, cs: seq<Consent>, k: nat)
    requires ReadLogs(u, queryPatientId, logs, cs).Ok? && k < |ReadLogs(u, queryPatientId, logs, cs).body|
    ensures var served := Take(PatientLogs(logs, if u.role.Patient? then u.patientId else queryPatientId), 200)[k];
      && served in logs
      && (u.role.Patient? ==> u.patientId.Some? && served.patientId == u.patientId)
      && (!u.role.Patient? ==>
            served.patientId == queryPatientId && Truthy(u.hospitalId)
            && ConsentGranted(cs, queryPatientId.value, u.hospitalId.value))
  {
    var p := if u.role.Patient? then u.patientId else queryPatientId;
    var all := PatientLogs(logs, p);
    assert Take(all, 200)[k] == all[k] && all[k] in all;
  }

  /** A caller who is not a patient and carries no hospital (a premed's token
      carries none) never reads a row: it gets 400 whatever it names. */
  lemma NoHospitalReadsNothing(u: Claims, queryPatientId: Option<string>, logs: seq<AccessLog>, cs: seq<Consent>)
    requires !u.role.Patient? && !Truthy(u.hospitalId)
    ensures ReadLogs(u, queryPatientId, logs, cs).Fail?
    ensures ReadLogs(u, queryPatientId, logs, cs).status == 400
  {
  }

  /** Over a chronological log the rows served are strictly newest first. */
  lemma ReadLogsNewestFirst(logs: seq<AccessLog>, patientId: Option<string>)
    requires Increasing(logs, LogAt)
    ensures Descending(PatientLogs(logs, patientId), LogAt)
  {
    NewestFirstDescending(logs, (l: AccessLog) => patientId.Some? && l.patientId == patientId, LogAt);
  }
}
