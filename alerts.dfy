/** The alert store of backend/src/modules/alerts.ts: `createAlert` persists an
    alert and pushes it to the room of its hospital code, doctors list their
    hospital's alerts, and anyone with the role acknowledges one. The socket
    server is the `AlertBus`; what it has been asked to emit is recorded in
    the ghost log `published`. */
module Alerts {
  import opened Wrappers
  import opened Jwt
  import opened Tables
  import opened Middleware

  /** The parameters of `createAlert`. */
  datatype AlertParams = AlertParams(
    hospitalCode: string, patientUhid: Option<string>, caseId: Id,
    severity: string, title: string, body: string)

  /** One `io.to(room).emit('alert', {id, createdAt, ...params})`. */
  datatype Emitted = Emitted(room: string, id: Id, createdAt: nat, params: AlertParams)

  /** The module-level `io` server, attached at most once at start-up. */
  class AlertBus {
    var attached: bool
    ghost var published: seq<Emitted>

    constructor ()
      ensures !attached && published == []
    {
      attached := false;
      published := [];
    }

    /** `attachIo(server)` */
    method AttachIo()
      modifies this`attached
      ensures attached
    {
      attached := true;
    }
  }

  /** `h.rows?.[0]?.id ?? null` for the hospital code. */
  function AlertHospitalId(hs: seq<Hospital>, code: string): (r: Option<Id>)
    ensures r.None? <==> forall i :: 0 <= i < |hs| ==> hs[i].code != code
    ensures r.Some? ==> exists i :: 0 <= i < |hs| && hs[i].code == code && hs[i].id == r.value
  {
    match HospitalByCode(hs, code)
    case None => None
    case Some(i) => Some(hs[i].id)
  }

  /** The patient id looked up by UHID, only when the UHID is truthy. */
  function AlertPatientId(ps: seq<Patient>, uhid: Option<string>): (r: Option<Id>)
    ensures r.Some? ==> Truthy(uhid) && exists i :: 0 <= i < |ps| && ps[i].uhid == uhid.value && ps[i].id == r.value
    ensures r.None? <==> !Truthy(uhid) || forall i :: 0 <= i < |ps| ==> ps[i].uhid != uhid.value
  {
    if !Truthy(uhid) then None
    else match PatientByUhid(ps, uhid.value)
      case None => None
      case Some(i) => Some(ps[i].id)
  }

  /** The columns of `RETURNING id, created_at`. */
  datatype Inserted = Inserted(id: Id, createdAt: nat)

  /** `createAlert`: insert one row, then emit it to the hospital code's room
      when a server is attached; answers the new row's id and creation time. */
  method CreateAlert(db: Db, bus: AlertBus, params: AlertParams) returns (ins: Inserted)
    requires db.Valid()
    modifies db`alerts, db`clock, bus`published
    ensures db.Valid() && db.clock == old(db.clock) + 1
    ensures ins.createdAt == old(db.clock)
    ensures forall i :: 0 <= i < |old(db.alerts)| ==> old(db.alerts)[i].id != ins.id
    ensures db.alerts == old(db.alerts)
      + [Alert(ins.id, AlertPatientId(db.patients, params.patientUhid), AlertHospitalId(db.hospitals, params.hospitalCode),
               params.caseId, params.severity, params.title, params.body, false, ins.createdAt)]
    ensures bus.published == old(bus.published)
      + (if bus.attached then [Emitted(params.hospitalCode, ins.id, ins.createdAt, params)] else [])
  {
    var hospitalId := AlertHospitalId(db.hospitals, params.hospitalCode);
    var patientId := AlertPatientId(db.patients, params.patientUhid);
    var a := db.InsertAlert(patientId, hospitalId, params.caseId, params.severity, params.title, params.body);
    ins := Inserted(a.id, a.createdAt);
    if bus.attached {
      bus.published := bus.published + [Emitted(params.hospitalCode, ins.id, ins.createdAt, params)];
    }
  }

  // ---------------------------------------------------------------------
  // Listing

  /** A row of the alert listing. */
  datatype AlertView = AlertView(
    id: Id, severity: string, title: string, body: string, acked: bool, createdAt: nat,
    patientUhid: Option<string>)

  /** `JOIN hospitals h ON h.id=a.hospital_id WHERE h.hospital_code=$1`: a null
      hospital id joins no row. */
  predicate AtHospital(hs: seq<Hospital>, code: string, a: Alert) {
    a.hospitalId.Some? && var h := FindHospital(hs, a.hospitalId.value); h.Some? && hs[h.value].code == code
  }

  /** `LEFT JOIN patients p ON p.id=a.patient_id` */
  function ViewOf(ps: seq<Patient>, a: Alert): AlertView {
    var p := if a.patientId.Some? then FindPatient(ps, a.patientId.value) else None;
    AlertView(a.id, a.severity, a.title, a.body, a.acked, a.createdAt, if p.Some? then Some(ps[p.value].uhid) else None)
  }

  function Views(ps: seq<Patient>, xs: seq<Alert>): (r: seq<AlertView>)
    ensures |r| == |xs| && forall i :: 0 <= i < |xs| ==> r[i] == ViewOf(ps, xs[i])
  {
    if xs == [] then [] else [ViewOf(ps, xs[0])] + Views(ps, xs[1..])
  }

  /** The alerts of one hospital code, newest first. */
  function HospitalAlerts(db: seq<Alert>, hs: seq<Hospital>, code: string): seq<Alert> {
    NewestFirst(db, a => AtHospital(hs, code, a))
  }

  /** GET /alerts (doctor/admin): at most 100 alerts of the caller's hospital code. */
  function ListAlerts(u: Claims, alerts: seq<Alert>, hs: seq<Hospital>, ps: seq<Patient>): (r: Response<seq<AlertView>>)
    ensures r.Ok? <==> u.role in {Doctor, Admin} && Truthy(u.hospitalCode)
    ensures u.role in {Doctor, Admin} && !Truthy(u.hospitalCode) ==> r == Fail(400, "Missing hospitalCode")
    ensures !(u.role in {Doctor, Admin}) ==> r == Fail(403, "Forbidden")
    ensures r.Ok? ==> |r.body| <= 100
    ensures r.Ok? ==> r.body == Views(ps, Take(HospitalAlerts(alerts, hs, u.hospitalCode.value), 100))
  {
    var allowed := RequireRole(Some(u), [Doctor, Admin]);
    if allowed.Fail? then Fail(allowed.status, allowed.error)
    else if !Truthy(u.hospitalCode) then Fail(400, "Missing hospitalCode")
    else Ok(Views(ps, Take(HospitalAlerts(alerts, hs, u.hospitalCode.value), 100)))
  }

  /** Before the limit, the listing holds exactly the alerts of the code's
      hospital (so an alert stored with a null hospital id is never listed),
      newest first. */
  lemma HospitalAlertsExact(alerts: seq<Alert>, hs: seq<Hospital>, code: string)
    requires Increasing(alerts, AlertAt)
    ensures var r := HospitalAlerts(alerts, hs, code);
      && (forall a :: a in r ==> a in alerts && a.hospitalId.Some? && AtHospital(hs, code, a))
      && (forall i :: 0 <= i < |alerts| && AtHospital(hs, code, alerts[i]) ==> alerts[i] in r)
      && Descending(r, AlertAt)
  {
    NewestFirstDescending(alerts, a => AtHospital(hs, code, a), AlertAt);
  }

  /** A freshly created alert whose code names a hospital heads that hospital's listing. */
  lemma CreatedAlertListedFirst(alerts: seq<Alert>, hs: seq<Hospital>, code: string, a: Alert)
    requires AtHospital(hs, code, a)
    ensures HospitalAlerts(alerts + [a], hs, code)[0] == a
  {
    assert (alerts + [a])[..|alerts + [a]| - 1] == alerts;
  }

  // ---------------------------------------------------------------------
  // Acknowledgement

  /** `UPDATE alerts SET acked=true WHERE id=$1` */
  function AckRows(alerts: seq<Alert>, id: Id): (r: seq<Alert>)
    ensures |r| == |alerts|
    ensures forall i :: 0 <= i < |alerts| ==>
      r[i] == if alerts[i].id == id then alerts[i].(acked := true) else alerts[i]
  {
    seq(|alerts|, i requires 0 <= i < |alerts| => if alerts[i].id == id then alerts[i].(acked := true) else alerts[i])
  }

  /** Acknowledging twice is acknowledging once. */
  lemma AckIdempotent(alerts: seq<Alert>, id: Id)
    ensures AckRows(AckRows(alerts, id), id) == AckRows(alerts, id)
  {
  }

  /** An unknown id changes nothing. */
  lemma AckUnknown(alerts: seq<Alert>, id: Id)
    requires forall i :: 0 <= i < |alerts| ==> alerts[i].id != id
    ensures AckRows(alerts, id) == alerts
  {
  }

  /** POST /alerts/:alertId/ack (doctor/admin): answers ok whether or not the id exists. */
  method Ack(db: Db, u: Claims, alertId: Id) returns (resp: Response<bool>)
    requires db.Valid()
    modifies db`alerts
    ensures db.Valid()
    ensures u.role in {Doctor, Admin} ==> resp == Ok(true) && db.alerts == AckRows(old(db.alerts), alertId)
    ensures !(u.role in {Doctor, Admin}) ==> resp == Fail(403, "Forbidden") && db.alerts == old(db.alerts)
  {
    var allowed := RequireRole(Some(u), [Doctor, Admin]);
    if allowed.Fail? {
      return Fail(allowed.status, allowed.error);
    }
    db.alerts := AckRows(db.alerts, alertId);
    resp := Ok(true);
  }
}
