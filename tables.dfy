/** The backend's storage as in-memory tables: the relational tables the
    handlers query and the document collection that holds ambulance media.
    `now()` is the clock `clock`, which every insert advances, so rows of one
    table are created at strictly increasing times. */
module Tables {
  import opened Wrappers
  import opened Json
  import opened Jwt

  type Id = string

  /** The decision recorded for one pass through the consent gate. */
  datatype Decision = Allowed | Blocked | EmergencyOverride

  datatype Hospital = Hospital(id: Id, code: string, name: string)

  datatype Patient = Patient(
    id: Id, uhid: string, fullName: string,
    dob: Option<string>, sex: Option<string>, phone: Option<string>)

  datatype Encounter = Encounter(
    id: Id, patientId: Id, hospitalId: Id, encounterType: string,
    createdBy: string, startedAt: nat)

  datatype Version = Version(
    id: Id, encounterId: Id, patientId: Id, hospitalId: Id,
    parentVersionId: Option<Id>, commitMessage: string, data: Json,
    createdBy: string, createdAt: nat)

  datatype Consent = Consent(
    id: Id, patientId: Id, hospitalId: Id, scope: string,
    granted: bool, updatedAt: nat)

  datatype AccessLog = AccessLog(
    actorUserId: string, actorRole: Role, patientId: Option<string>,
    hospitalId: Option<string>, action: string, resource: string,
    decision: Decision, ip: string, createdAt: nat)

  datatype Alert = Alert(
    id: Id, patientId: Option<Id>, hospitalId: Option<Id>, caseId: Id,
    severity: string, title: string, body: string, acked: bool, createdAt: nat)

  /** A photo or voice note attached to an ambulance case. */
  datatype Attachment = Attachment(name: string, base64: string)

  datatype CaseVitals = CaseVitals(hr: Option<real>, bp: Option<string>, spo2: Option<real>, rr: Option<real>)

  datatype Location = Location(lat: real, lng: real, etaMin: Option<real>)

  /** The validated body of an ambulance case submission. */
  datatype CaseBody = CaseBody(
    patientUhid: Option<string>, symptoms: seq<string>, vitals: CaseVitals,
    age: Option<real>, traumaType: Option<string>, location: Option<Location>,
    photos: seq<Attachment>, voiceNotes: seq<Attachment>)

  datatype Routing = Routing(hospitalCode: Option<string>, rationale: Option<string>)

  /** The classifier's reply as the backend reads it (every field may be absent). */
  datatype Classification = Classification(
    emergencyType: Option<string>, emergencyClass: Option<string>,
    urgencyScore: Option<int>, recommendedSetup: Option<seq<string>>,
    hospitalRouting: Option<Routing>)

  datatype AmbulanceCase = AmbulanceCase(
    id: Id, ambulanceId: string, staffCode: string, patientUhid: Option<string>,
    payload: CaseBody, mediaIds: seq<Id>, aiResult: Classification,
    status: string, createdAt: nat)

  datatype MediaDoc = MediaDoc(
    id: Id, ambulanceId: string, patientUhid: Option<string>,
    name: string, base64: string, createdAt: nat)

  /** The status a new ambulance case is read back with. The insert names no
      status; the model assumes the column's default is "new". */
  const NewCaseStatus := "new"

  function EncounterAt(e: Encounter): nat { e.startedAt }
  function VersionAt(v: Version): nat { v.createdAt }
  function LogAt(l: AccessLog): nat { l.createdAt }
  function AlertAt(a: Alert): nat { a.createdAt }
  function CaseAt(c: AmbulanceCase): nat { c.createdAt }
  function MediaAt(m: MediaDoc): nat { m.createdAt }

  function HospitalKey(h: Hospital): Id { h.id }
  function PatientKey(p: Patient): Id { p.id }
  function EncounterKey(e: Encounter): Id { e.id }
  function VersionKey(v: Version): Id { v.id }
  function ConsentKey(c: Consent): Id { c.id }
  function AlertKey(a: Alert): Id { a.id }
  function CaseKey(c: AmbulanceCase): Id { c.id }
  function MediaKey(m: MediaDoc): Id { m.id }

  /** Strictly increasing times along a sequence of rows. */
  ghost predicate Increasing<T>(t: seq<T>, at: T -> nat) {
    forall i, j :: 0 <= i < j < |t| ==> at(t[i]) < at(t[j])
  }

  /** Rows appear in the table in creation order, all before `clock`. */
  ghost predicate Chronological<T>(t: seq<T>, at: T -> nat, clock: nat) {
    Increasing(t, at) && forall i :: 0 <= i < |t| ==> at(t[i]) < clock
  }

  /** A row stamped with the current time extends a chronological table. */
  lemma ChronologicalAppend<T>(t: seq<T>, at: T -> nat, x: T, clock: nat)
    requires Chronological(t, at, clock) && at(x) == clock
    ensures Chronological(t + [x], at, clock + 1)
  {
    var r := t + [x];
    forall i, j | 0 <= i < j < |r| ensures at(r[i]) < at(r[j]) {
      assert r[i] == t[i];
      if j < |t| {
        assert r[j] == t[j];
      }
    }
  }

  /** A row with a new key keeps the keys distinct. */
  lemma DistinctAppend<T>(t: seq<T>, id: T -> Id, x: T)
    requires DistinctIds(t, id) && forall i :: 0 <= i < |t| ==> id(t[i]) != id(x)
    ensures DistinctIds(t + [x], id)
  {
    var r := t + [x];
    forall i, j | 0 <= i < j < |r| ensures id(r[i]) != id(r[j]) {
      assert r[i] == t[i];
      if j < |t| {
        assert r[j] == t[j];
      }
    }
  }

  /** The primary key is unique. */
  ghost predicate DistinctIds<T>(t: seq<T>, id: T -> Id) {
    forall i, j :: 0 <= i < j < |t| ==> id(t[i]) != id(t[j])
  }

  /** Longest id in the table. */
  function MaxIdLength<T>(t: seq<T>, id: T -> Id): (m: nat)
    ensures forall i :: 0 <= i < |t| ==> |id(t[i])| <= m
  {
    if t == [] then 0
    else
      var m := MaxIdLength(t[1..], id);
      assert forall i :: 1 <= i < |t| ==> t[i] == t[1..][i - 1];
      if |id(t[0])| > m then |id(t[0])| else m
  }

  /** A key no row of the table has: the stand-in for generated UUIDs. */
  function FreshId<T>(t: seq<T>, id: T -> Id): (r: Id)
    ensures forall i :: 0 <= i < |t| ==> id(t[i]) != r
  {
    seq(MaxIdLength(t, id) + 1, _ => '0')
  }

  /** `UNIQUE (patient_id, hospital_id, scope)` on consents. */
  ghost predicate UniqueConsentKeys(cs: seq<Consent>) {
    forall i, j :: 0 <= i < j < |cs| ==>
      !(cs[i].patientId == cs[j].patientId && cs[i].hospitalId == cs[j].hospitalId && cs[i].scope == cs[j].scope)
  }

  // ---------------------------------------------------------------------
  // Lookups and listings shared by the handlers

  /** Position of the first row whose `key` is `k`: what a `WHERE col=$1`
      query returns as its first row. */
  function FindFirst<T, K(==)>(t: seq<T>, key: T -> K, k: K): (r: Option<nat>)
    ensures r.Some? ==> r.value < |t| && key(t[r.value]) == k
    ensures r.Some? ==> forall i :: 0 <= i < r.value ==> key(t[i]) != k
    ensures r.None? <==> forall i :: 0 <= i < |t| ==> key(t[i]) != k
  {
    if t == [] then None
    else if key(t[0]) == k then Some(0)
    else match FindFirst(t[1..], key, k)
      case None => None
      case Some(i) => Some(i + 1)
  }

  /** `JOIN hospitals h ON h.id = ...` */
  function FindHospital(hs: seq<Hospital>, id: Id): Option<nat> {
    FindFirst(hs, HospitalKey, id)
  }

  function HospitalCode(h: Hospital): string { h.code }

  /** `SELECT id FROM hospitals WHERE hospital_code=$1` */
  function HospitalByCode(hs: seq<Hospital>, code: string): Option<nat> {
    FindFirst(hs, HospitalCode, code)
  }

  function PatientUhid(p: Patient): string { p.uhid }

  /** `SELECT id FROM patients WHERE uhid=$1` */
  function PatientByUhid(ps: seq<Patient>, uhid: string): Option<nat> {
    FindFirst(ps, PatientUhid, uhid)
  }

  /** `... WHERE id=$1` on patients. */
  function FindPatient(ps: seq<Patient>, id: Id): Option<nat> {
    FindFirst(ps, PatientKey, id)
  }

  /** `WHERE keep ORDER BY created_at DESC` over a chronological table: the kept
      rows, last inserted first. */
  function NewestFirst<T>(t: seq<T>, keep: T -> bool): (r: seq<T>)
    ensures |r| <= |t|
    ensures forall x :: x in r ==> x in t && keep(x)
    ensures forall i :: 0 <= i < |t| && keep(t[i]) ==> t[i] in r
  {
    if t == [] then []
    else
      var last := t[|t| - 1];
      var rest := NewestFirst(t[..|t| - 1], keep);
      assert forall i :: 0 <= i < |t| - 1 ==> t[i] == t[..|t| - 1][i];
      if keep(last) then [last] + rest else rest
  }

  /** Strictly decreasing creation times. */
  ghost predicate Descending<T>(r: seq<T>, at: T -> nat) {
    forall i, j :: 0 <= i < j < |r| ==> at(r[i]) > at(r[j])
  }

  /** Over a chronological table the listing is strictly newest first. */
  lemma {:induction false} NewestFirstDescending<T>(t: seq<T>, keep: T -> bool, at: T -> nat)
    requires Increasing(t, at)
    ensures Descending(NewestFirst(t, keep), at)
  {
    if t != [] {
      var init := t[..|t| - 1];
      var last := t[|t| - 1];
      assert Increasing(init, at);
      NewestFirstDescending(init, keep, at);
      var rest := NewestFirst(init, keep);
      assert Descending(rest, at);
      forall x | x in rest ensures at(x) < at(last) {
        var k :| 0 <= k < |init| && init[k] == x;
        assert t[k] == x;
      }
      if keep(last) {
        var r := [last] + rest;
        assert NewestFirst(t, keep) == r;
        forall i, j | 0 <= i < j < |r| ensures at(r[i]) > at(r[j]) {
          assert r[j] == rest[j - 1] && rest[j - 1] in rest;
          if i > 0 {
            assert r[i] == rest[i - 1];
          }
        }
      }
    }
  }

  /** `LIMIT n` */
  function Take<T>(xs: seq<T>, n: nat): (r: seq<T>)
    ensures |r| == if |xs| <= n then |xs| else n
    ensures r == xs[..|r|]
  {
    if |xs| <= n then xs else xs[..n]
  }

  class Db {
    var hospitals: seq<Hospital>
    var patients: seq<Patient>
    var encounters: seq<Encounter>
    var versions: seq<Version>
    var consents: seq<Consent>
    var accessLogs: seq<AccessLog>
    var alerts: seq<Alert>
    var cases: seq<AmbulanceCase>
    var media: seq<MediaDoc>
    var clock: nat

    ghost predicate Valid()
      reads this
    {
      && DistinctIds(hospitals, HospitalKey)
      && DistinctIds(patients, PatientKey)
      && DistinctIds(encounters, EncounterKey) && Chronological(encounters, EncounterAt, clock)
      && DistinctIds(versions, VersionKey) && Chronological(versions, VersionAt, clock)
      && DistinctIds(consents, ConsentKey) && UniqueConsentKeys(consents)
      && Chronological(accessLogs, LogAt, clock)
      && DistinctIds(alerts, AlertKey) && Chronological(alerts, AlertAt, clock)
      && DistinctIds(cases, CaseKey) && Chronological(cases, CaseAt, clock)
      && DistinctIds(media, MediaKey) && Chronological(media, MediaAt, clock)
    }

    constructor (hospitals: seq<Hospital>, patients: seq<Patient>)
      requires DistinctIds(hospitals, HospitalKey) && DistinctIds(patients, PatientKey)
      ensures Valid()
      ensures this.hospitals == hospitals && this.patients == patients
      ensures encounters == [] && versions == [] && consents == [] && accessLogs == []
      ensures alerts == [] && cases == [] && media == [] && clock == 0
    {
      this.hospitals := hospitals;
      this.patients := patients;
      encounters, versions, consents, accessLogs := [], [], [], [];
      alerts, cases, media := [], [], [];
      clock := 0;
    }

    /** `INSERT INTO access_logs ...` */
    method InsertAccessLog(
      actor: string, role: Role, patientId: Option<string>, hospitalId: Option<string>,
      action: string, resource: string, decision: Decision, ip: string)
      requires Valid()
      modifies this`accessLogs, this`clock
      ensures Valid() && clock == old(clock) + 1
      ensures accessLogs == old(accessLogs)
        + [AccessLog(actor, role, patientId, hospitalId, action, resource, decision, ip, old(clock))]
    {
      var l := AccessLog(actor, role, patientId, hospitalId, action, resource, decision, ip, clock);
      ChronologicalAppend(accessLogs, LogAt, l, clock);
      accessLogs := accessLogs + [l];
      clock := clock + 1;
    }

    /** One write to the consent table, which then holds `cs`; it takes the
        current time. */
    method ReplaceConsents(cs: seq<Consent>)
      requires Valid() && DistinctIds(cs, ConsentKey) && UniqueConsentKeys(cs)
      modifies this`consents, this`clock
      ensures Valid() && consents == cs && clock == old(clock) + 1
    {
      consents := cs;
      clock := clock + 1;
    }

    /** `INSERT INTO encounters (...) RETURNING id`. The insert names no
        `started_at`; the model assumes the column defaults to now (`clock`). */
    method InsertEncounter(patientId: Id, hospitalId: Id, encounterType: string, createdBy: string)
      returns (e: Encounter)
      requires Valid()
      modifies this`encounters, this`clock
      ensures Valid() && clock == old(clock) + 1
      ensures e == Encounter(e.id, patientId, hospitalId, encounterType, createdBy, old(clock))
      ensures forall i :: 0 <= i < |old(encounters)| ==> old(encounters)[i].id != e.id
      ensures encounters == old(encounters) + [e]
    {
      e := Encounter(FreshId(encounters, EncounterKey), patientId, hospitalId, encounterType, createdBy, clock);
      ChronologicalAppend(encounters, EncounterAt, e, clock);
      DistinctAppend(encounters, EncounterKey, e);
      encounters := encounters + [e];
      clock := clock + 1;
    }

    /** `INSERT INTO ehr_versions (...) RETURNING id, created_at` */
    method InsertVersion(
      encounterId: Id, patientId: Id, hospitalId: Id, parent: Option<Id>,
      message: string, data: Json, createdBy: string)
      returns (v: Version)
      requires Valid()
      modifies this`versions, this`clock
      ensures Valid() && clock == old(clock) + 1
      ensures v == Version(v.id, encounterId, patientId, hospitalId, parent, message, data, createdBy, old(clock))
      ensures forall i :: 0 <= i < |old(versions)| ==> old(versions)[i].id != v.id
      ensures versions == old(versions) + [v]
    {
      v := Version(FreshId(versions, VersionKey), encounterId, patientId, hospitalId, parent, message, data, createdBy, clock);
      ChronologicalAppend(versions, VersionAt, v, clock);
      DistinctAppend(versions, VersionKey, v);
      versions := versions + [v];
      clock := clock + 1;
    }

    /** `INSERT INTO alerts (...) RETURNING id, created_at`. The insert names no
        `acked`; the model assumes the column defaults to false. */
    method InsertAlert(
      patientId: Option<Id>, hospitalId: Option<Id>, caseId: Id,
      severity: string, title: string, body: string)
      returns (a: Alert)
      requires Valid()
      modifies this`alerts, this`clock
      ensures Valid() && clock == old(clock) + 1
      ensures a == Alert(a.id, patientId, hospitalId, caseId, severity, title, body, false, old(clock))
      ensures forall i :: 0 <= i < |old(alerts)| ==> old(alerts)[i].id != a.id
      ensures alerts == old(alerts) + [a]
    {
      a := Alert(FreshId(alerts, AlertKey), patientId, hospitalId, caseId, severity, title, body, false, clock);
      ChronologicalAppend(alerts, AlertAt, a, clock);
      DistinctAppend(alerts, AlertKey, a);
      alerts := alerts + [a];
      clock := clock + 1;
    }

    /** `INSERT INTO ambulance_cases (...) RETURNING id, created_at` */
    method InsertCase(
      ambulanceId: string, staffCode: string, patientUhid: Option<string>,
      payload: CaseBody, mediaIds: seq<Id>, aiResult: Classification)
      returns (c: AmbulanceCase)
      requires Valid()
      modifies this`cases, this`clock
      ensures Valid() && clock == old(clock) + 1
      ensures c == AmbulanceCase(c.id, ambulanceId, staffCode, patientUhid, payload, mediaIds, aiResult, NewCaseStatus, old(clock))
      ensures forall i :: 0 <= i < |old(cases)| ==> old(cases)[i].id != c.id
      ensures cases == old(cases) + [c]
    {
      c := AmbulanceCase(FreshId(cases, CaseKey), ambulanceId, staffCode, patientUhid, payload, mediaIds, aiResult, NewCaseStatus, clock);
      ChronologicalAppend(cases, CaseAt, c, clock);
      DistinctAppend(cases, CaseKey, c);
      cases := cases + [c];
      clock := clock + 1;
    }

    /** `media.insertOne(...)`, answering the new document's id. */
    method InsertMedia(ambulanceId: string, patientUhid: Option<string>, name: string, base64: string)
      returns (m: MediaDoc)
      requires Valid()
      modifies this`media, this`clock
      ensures Valid() && clock == old(clock) + 1
      ensures m == MediaDoc(m.id, ambulanceId, patientUhid, name, base64, old(clock))
      ensures forall i :: 0 <= i < |old(media)| ==> old(media)[i].id != m.id
      ensures media == old(media) + [m]
    {
      m := MediaDoc(FreshId(media, MediaKey), ambulanceId, patientUhid, name, base64, clock);
      ChronologicalAppend(media, MediaAt, m, clock);
      DistinctAppend(media, MediaKey, m);
      media := media + [m];
      clock := clock + 1;
    }
  }
}
