/** The FHIR export of backend/src/modules/fhir.ts: Patient, Encounter and
    Observation resources (HL7 FHIR R4 shapes) built from the tables, each
    behind the consent gate. */
module Fhir {
  import opened Wrappers
  import opened Json
  import opened Jwt
  import opened Text
  import opened Tables
  import opened Middleware
  import Ehr

  datatype Identifier = Identifier(system: string, value: string)
  datatype ContactPoint = ContactPoint(system: string, value: Option<string>)

  datatype PatientResource = PatientResource(
    resourceType: string, id: Id, identifier: seq<Identifier>, name: seq<string>,
    gender: string, birthDate: Option<string>, telecom: seq<ContactPoint>)

  datatype EncounterResource = EncounterResource(
    resourceType: string, id: Id, status: string, classCode: string,
    subject: string, periodStart: nat, serviceProvider: string)

  /** `valueString` is `JSON.stringify` of `value`. */
  datatype ObservationResource = ObservationResource(
    resourceType: string, id: Id, status: string, subject: string,
    effectiveDateTime: nat, value: Json)

  /** `p.sex?.toLowerCase()` compared with "m" and "f": the AdministrativeGender code. */
  function Gender(sex: Option<string>): (g: string)
    ensures g == "male" <==> sex == Some("m") || sex == Some("M")
    ensures g == "female" <==> sex == Some("f") || sex == Some("F")
    ensures g in {"male", "female", "unknown"}
  {
    LowerLetter(sex.GetOr(""), 'm', 'M');
    LowerLetter(sex.GetOr(""), 'f', 'F');
    if sex.Some? && Lower(sex.value) == "m" then "male"
    else if sex.Some? && Lower(sex.value) == "f" then "female"
    else "unknown"
  }

  /** A string folds to one lower-case letter exactly when it is that letter in either case. */
  lemma LowerLetter(s: string, lo: char, up: char)
    requires 'A' <= up <= 'Z' && lo as int == up as int + 32
    ensures Lower(s) == [lo] <==> s == [lo] || s == [up]
  {
    if Lower(s) == [lo] {
      assert |s| == 1 && LowerChar(s[0]) == lo;
      assert s == [s[0]];
    }
  }

  /** `Patient/<id>` */
  function Reference(patientId: Id): string {
    "Patient/" + patientId
  }

  function PatientOf(patientId: Id, p: Patient): (r: PatientResource)
    ensures r.resourceType == "Patient" && r.id == patientId
    ensures r.identifier == [Identifier("urn:uhi", p.uhid)]
  {
    PatientResource("Patient", patientId, [Identifier("urn:uhi", p.uhid)], [p.fullName],
                    Gender(p.sex), p.dob, [ContactPoint("phone", p.phone)])
  }

  /** GET /fhir/patient/:patientId: the gate runs first, the lookup after it. */
  method GetPatient(db: Db, u: Claims, req: Request, patientId: Id, logOk: bool)
    returns (resp: Response<PatientResource>)
    requires db.Valid()
    modifies db`accessLogs, db`clock
    ensures db.Valid()
    ensures var r := WithPatient(req, patientId);
      var v := Decide(Some(u), ResolvePatientId(r), ResolveOverride(r), old(db.consents));
      var f := FindPatient(db.patients, patientId);
      && db.accessLogs == old(db.accessLogs) + GateLog(Some(u), r, "fhir_patient", v, logOk, old(db.clock))
      && resp == if !v.Proceed? then Refusal(v)
                 else if f.None? then Fail(404, "Not found")
                 else Ok(PatientOf(patientId, db.patients[f.value]))
  {
    var r := WithPatient(req, patientId);
    var v := EnforceConsent(db, Some(u), r, "fhir_patient", logOk);
    if !v.Proceed? {
      return Refusal(v);
    }
    var f := FindPatient(db.patients, patientId);
    if f.None? {
      return Fail(404, "Not found");
    }
    resp := Ok(PatientOf(patientId, db.patients[f.value]));
  }

  function EncounterOf(e: Encounter, h: Hospital): (r: EncounterResource)
    ensures r.resourceType == "Encounter" && r.id == e.id && r.status == "finished"
    ensures r.classCode == e.encounterType && r.subject == Reference(e.patientId)
    ensures r.serviceProvider == h.code && r.periodStart == e.startedAt
  {
    EncounterResource("Encounter", e.id, "finished", e.encounterType, Reference(e.patientId), e.startedAt, h.code)
  }

  /** GET /fhir/encounter/:encounterId: an encounter that is missing, or whose
      hospital is, answers 404 before the gate. */
  method GetEncounter(db: Db, u: Claims, req: Request, encounterId: Id, logOk: bool)
    returns (resp: Response<EncounterResource>)
    requires db.Valid()
    modifies db`accessLogs, db`clock
    ensures db.Valid()
    ensures var f := Ehr.FindEncounter(old(db.encounters), encounterId);
      var h := if f.Some? then FindHospital(db.hospitals, old(db.encounters)[f.value].hospitalId) else None;
      if f.None? || h.None? then
        resp == Fail(404, "Not found") && db.accessLogs == old(db.accessLogs)
      else
        var e := old(db.encounters)[f.value];
        var r := WithPatient(req, e.patientId);
        var v := Decide(Some(u), ResolvePatientId(r), ResolveOverride(r), old(db.consents));
        && db.accessLogs == old(db.accessLogs) + GateLog(Some(u), r, "fhir_encounter", v, logOk, old(db.clock))
        && resp == if v.Proceed? then Ok(EncounterOf(e, db.hospitals[h.value])) else Refusal(v)
  {
    var f := Ehr.FindEncounter(db.encounters, encounterId);
    if f.None? {
      return Fail(404, "Not found");
    }
    var e := db.encounters[f.value];
    var h := FindHospital(db.hospitals, e.hospitalId);
    if h.None? {
      return Fail(404, "Not found");
    }
    var r := WithPatient(req, e.patientId);
    var v := EnforceConsent(db, Some(u), r, "fhir_encounter", logOk);
    if !v.Proceed? {
      return Refusal(v);
    }
    resp := Ok(EncounterOf(e, db.hospitals[h.value]));
  }

  function ObservationOf(versionId: Id, v: Version): (r: ObservationResource)
    ensures r.resourceType == "Observation" && r.id == versionId && r.status == "final"
    ensures r.subject == Reference(v.patientId) && r.value == v.data && r.effectiveDateTime == v.createdAt
  {
    ObservationResource("Observation", versionId, "final", Reference(v.patientId), v.createdAt, v.data)
  }

  /** GET /fhir/observation/:versionId: a missing version answers 404 before the gate. */
  method GetObservation(db: Db, u: Claims, req: Request, versionId: Id, logOk: bool)
    returns (resp: Response<ObservationResource>)
    requires db.Valid()
    modifies db`accessLogs, db`clock
    ensures db.Valid()
    ensures var f := Ehr.FindVersion(old(db.versions), versionId);
      if f.None? then
        resp == Fail(404, "Not found") && db.accessLogs == old(db.accessLogs)
      else
        var row := old(db.versions)[f.value];
        var r := WithPatient(req, row.patientId);
        var v := Decide(Some(u), ResolvePatientId(r), ResolveOverride(r), old(db.consents));
        && db.accessLogs == old(db.accessLogs) + GateLog(Some(u), r, "fhir_observation", v, logOk, old(db.clock))
        && resp == if v.Proceed? then Ok(ObservationOf(versionId, row)) else Refusal(v)
  {
    var f := Ehr.FindVersion(db.versions, versionId);
    if f.None? {
      return Fail(404, "Not found");
    }
    var row := db.versions[f.value];
    var r := WithPatient(req, row.patientId);
    var v := EnforceConsent(db, Some(u), r, "fhir_observation", logOk);
    if !v.Proceed? {
      return Refusal(v);
    }
    resp := Ok(ObservationOf(versionId, row));
  }

  /** The subject reference names the patient it was built from. */
  lemma ReferenceInjective(a: Id, b: Id)
    requires Reference(a) == Reference(b)
    ensures a == b
  {
    assert a == Reference(a)[8..];
    assert b == Reference(b)[8..];
  }
}
