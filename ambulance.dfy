/** The ambulance intake of backend/src/modules/ambulance.ts: a premed submits a
    case; its photos and voice notes are stored one document each, the
    classifier is asked for a triage, the case is stored with the media ids and
    the classifier's reply, and an alert goes out when urgency reaches 70. */
module Ambulance {
  import opened Wrappers
  import opened Jwt
  import opened Text
  import opened Tables
  import opened Middleware
  import opened Alerts
  import Triage

  /** The classifier's answer to the POST: a reply, or a non-2xx status with its text. */
  datatype ClassifierReply = Replied(ai: Classification) | ServiceError(details: string)

  datatype CaseReply = CaseReply(caseId: Id, createdAt: nat, ai: Classification, mediaIds: seq<Id>)

  /** The urgency threshold for a pre-alert. */
  const AlertThreshold := 70

  /** `Number(ai.urgency_score ?? 0)` */
  function Urgency(ai: Classification): int {
    ai.urgencyScore.GetOr(0)
  }

  /** `ai.hospital_routing?.hospital_code ?? 'HOSP-001'` */
  function AlertCode(ai: Classification): (code: string)
    ensures ai.hospitalRouting.Some? && ai.hospitalRouting.value.hospitalCode.Some? ==>
      code == ai.hospitalRouting.value.hospitalCode.value
    ensures ai.hospitalRouting.None? || ai.hospitalRouting.value.hospitalCode.None? ==> code == "HOSP-001"
  {
    if ai.hospitalRouting.Some? && ai.hospitalRouting.value.hospitalCode.Some?
    then ai.hospitalRouting.value.hospitalCode.value
    else "HOSP-001"
  }

  /** The pre-alert `createAlert` is called with for a stored case. An absent
      emergency type prints as "undefined"; an absent setup list as "N/A". */
  function PreAlert(ai: Classification, patientUhid: Option<string>, caseId: Id): (p: AlertParams)
    ensures p.severity == "HIGH" && p.caseId == caseId && p.patientUhid == patientUhid
    ensures p.hospitalCode == AlertCode(ai)
    ensures "ER Pre-alert: " <= p.title
  {
    AlertParams(
      AlertCode(ai), patientUhid, caseId, "HIGH",
      "ER Pre-alert: " + ai.emergencyType.GetOr("undefined"),
      "Urgency " + IntToString(Urgency(ai)) + "/100 \U{2022} Setup: "
        + (if ai.recommendedSetup.Some? then Join(ai.recommendedSetup.value, ", ") else "N/A"))
  }

  /** The title names the predicted emergency type, and the body opens with the
      urgency out of 100. */
  lemma PreAlertText(ai: Classification, patientUhid: Option<string>, caseId: Id)
    ensures var p := PreAlert(ai, patientUhid, caseId);
      && (ai.emergencyType.Some? ==> p.title == "ER Pre-alert: " + ai.emergencyType.value)
      && "Urgency " + IntToString(Urgency(ai)) + "/100 \U{2022} Setup: " <= p.body
  {
  }

  /** The media documents the loop stores for `items`, the k-th with id `ids[k]`
      at time `t0 + k`. */
  function MediaFor(ids: seq<Id>, ambulanceId: string, uhid: Option<string>, items: seq<Attachment>, t0: nat): (r: seq<MediaDoc>)
    requires |ids| == |items|
    ensures |r| == |items|
    ensures forall k :: 0 <= k < |items| ==>
      r[k] == MediaDoc(ids[k], ambulanceId, uhid, items[k].name, items[k].base64, t0 + k)
  {
    seq(|items|, k requires 0 <= k < |items| => MediaDoc(ids[k], ambulanceId, uhid, items[k].name, items[k].base64, t0 + k))
  }

  /** The ids of a run of media documents, in order. */
  function MediaIds(ms: seq<MediaDoc>): (r: seq<Id>)
    ensures |r| == |ms| && forall k :: 0 <= k < |ms| ==> r[k] == ms[k].id
  {
    seq(|ms|, k requires 0 <= k < |ms| => ms[k].id)
  }

  /** The media loop: one document per photo, then one per voice note; the
      returned ids name them in that order. */
  method StoreMedia(db: Db, ambulanceId: string, uhid: Option<string>, items: seq<Attachment>)
    returns (mediaIds: seq<Id>)
    requires db.Valid()
    modifies db`media, db`clock
    ensures db.Valid()
    ensures |mediaIds| == |items| && db.clock == old(db.clock) + |items|
    ensures db.media == old(db.media) + MediaFor(mediaIds, ambulanceId, uhid, items, old(db.clock))
    ensures mediaIds == MediaIds(db.media[|old(db.media)|..])
  {
    mediaIds := [];
    var i := 0;
    while i < |items|
      invariant 0 <= i <= |items|
      invariant db.Valid()
      invariant |mediaIds| == i && db.clock == old(db.clock) + i
      invariant db.media == old(db.media) + MediaFor(mediaIds, ambulanceId, uhid, items[..i], old(db.clock))
    {
      var doc := db.InsertMedia(ambulanceId, uhid, items[i].name, items[i].base64);
      assert items[..i + 1] == items[..i] + [items[i]];
      mediaIds := mediaIds + [doc.id];
      i := i + 1;
    }
    assert items[..i] == items;
  }

  /** POST /ambulance/case (premed only). */
  method SubmitCase(db: Db, bus: AlertBus, u: Claims, body: CaseBody, reply: ClassifierReply)
    returns (resp: Response<CaseReply>)
    requires db.Valid()
    modifies db`media, db`cases, db`alerts, db`clock, bus`published
    ensures db.Valid()
    ensures !u.role.Premed? ==> resp == Fail(403, "Forbidden") && unchanged(db) && unchanged(bus)
    ensures u.role.Premed? ==>
      var items := body.photos + body.voiceNotes;
      && |db.media| == |old(db.media)| + |items|
      && db.media[..|old(db.media)|] == old(db.media)
      && var ids := MediaIds(db.media[|old(db.media)|..]);
      && db.media[|old(db.media)|..] == MediaFor(ids, u.loginId, body.patientUhid, items, old(db.clock))
      && (reply.ServiceError? ==>
            resp == Fail(502, "AI service error") && db.cases == old(db.cases)
            && db.alerts == old(db.alerts) && bus.published == old(bus.published))
      && (reply.Replied? ==>
            && |db.cases| == |old(db.cases)| + 1 && db.cases[..|old(db.cases)|] == old(db.cases)
            && var c := db.cases[|old(db.cases)|];
            && c == AmbulanceCase(c.id, u.loginId, "premed", body.patientUhid, body, ids, reply.ai,
                                  NewCaseStatus, old(db.clock) + |items|)
            && resp == Ok(CaseReply(c.id, c.createdAt, reply.ai, ids))
            && (Urgency(reply.ai) < AlertThreshold ==> db.alerts == old(db.alerts) && bus.published == old(bus.published))
            && (Urgency(reply.ai) >= AlertThreshold ==>
                  var p := PreAlert(reply.ai, body.patientUhid, c.id);
                  && |db.alerts| == |old(db.alerts)| + 1 && db.alerts[..|old(db.alerts)|] == old(db.alerts)
                  && var a := db.alerts[|old(db.alerts)|];
                  && a == Alert(a.id, AlertPatientId(db.patients, p.patientUhid), AlertHospitalId(db.hospitals, p.hospitalCode),
                                c.id, "HIGH", p.title, p.body, false, c.createdAt + 1)
                  && bus.published == old(bus.published)
                       + (if bus.attached then [Emitted(p.hospitalCode, a.id, a.createdAt, p)] else [])))
  {
    var allowed := RequireRole(Some(u), [Premed]);
    if allowed.Fail? {
      return Fail(allowed.status, allowed.error);
    }
    var ambulanceId := u.loginId;
    var items := body.photos + body.voiceNotes;
    var mediaIds := StoreMedia(db, ambulanceId, body.patientUhid, items);

    if reply.ServiceError? {
      return Fail(502, "AI service error");
    }
    var ai := reply.ai;
    var c := db.InsertCase(ambulanceId, "premed", body.patientUhid, body, mediaIds, ai);

    AlertIfUrgent(db, bus, ai, body.patientUhid, c.id);
    resp := Ok(CaseReply(c.id, c.createdAt, ai, mediaIds));
  }

  /** `if (urgency >= 70) await createAlert(...)` with the pre-alert for case `caseId`. */
  method AlertIfUrgent(db: Db, bus: AlertBus, ai: Classification, patientUhid: Option<string>, caseId: Id)
    requires db.Valid()
    modifies db`alerts, db`clock, bus`published
    ensures db.Valid()
    ensures Urgency(ai) < AlertThreshold ==>
      db.alerts == old(db.alerts) && bus.published == old(bus.published) && db.clock == old(db.clock)
    ensures Urgency(ai) >= AlertThreshold ==>
      var p := PreAlert(ai, patientUhid, caseId);
      && |db.alerts| == |old(db.alerts)| + 1 && db.alerts[..|old(db.alerts)|] == old(db.alerts)
      && var a := db.alerts[|old(db.alerts)|];
      && a == Alert(a.id, AlertPatientId(db.patients, p.patientUhid), AlertHospitalId(db.hospitals, p.hospitalCode),
                    caseId, "HIGH", p.title, p.body, false, old(db.clock))
      && bus.published == old(bus.published)
           + (if bus.attached then [Emitted(p.hospitalCode, a.id, a.createdAt, p)] else [])
  {
    if Urgency(ai) >= AlertThreshold {
      var p := PreAlert(ai, patientUhid, caseId);
      var ins := CreateAlert(db, bus, p);
      assert db.alerts[..|old(db.alerts)|] == old(db.alerts);
    }
  }

  /** The classifier reply for a prediction of the scorer. */
  function FromPrediction(p: Triage.Prediction): Classification {
    Classification(Some(p.emergencyType), Some(p.emergencyClass), Some(p.urgencyScore),
                   Some(p.recommendedSetup), Some(Routing(Some(p.hospitalCode), Some(p.rationale))))
  }

  /** When the classifier is the rule-based scorer, every pre-alert it triggers
      goes to HOSP-001 and names the predicted type. */
  lemma ScorerAlertsGoToFirstHospital(inp: Triage.PredictIn, uhid: Option<string>, caseId: Id)
    requires Urgency(FromPrediction(Triage.Assess(inp))) >= AlertThreshold
    ensures var p := PreAlert(FromPrediction(Triage.Assess(inp)), uhid, caseId);
      p.hospitalCode == "HOSP-001" && p.title == "ER Pre-alert: " + Triage.Assess(inp).emergencyType
  {
  }

  // ---------------------------------------------------------------------
  // Listing

  datatype CaseView = CaseView(id: Id, patientUhid: Option<string>, aiResult: Classification, status: string, createdAt: nat)

  function CaseViews(cs: seq<AmbulanceCase>): (r: seq<CaseView>)
    ensures |r| == |cs| && forall k :: 0 <= k < |cs| ==>
      r[k] == CaseView(cs[k].id, cs[k].patientUhid, cs[k].aiResult, cs[k].status, cs[k].createdAt)
  {
    seq(|cs|, k requires 0 <= k < |cs| => CaseView(cs[k].id, cs[k].patientUhid, cs[k].aiResult, cs[k].status, cs[k].createdAt))
  }

  /** The caller's own cases, newest first. */
  function OwnCases(cs: seq<AmbulanceCase>, ambulanceId: string): seq<AmbulanceCase> {
    NewestFirst(cs, (c: AmbulanceCase) => c.ambulanceId == ambulanceId)
  }

  /** GET /ambulance/cases (premed only): at most 50 of the caller's own cases. */
  function ListCases(u: Claims, cs: seq<AmbulanceCase>): (r: Response<seq<CaseView>>)
    ensures r.Ok? <==> u.role.Premed?
    ensures !u.role.Premed? ==> r == Fail(403, "Forbidden")
    ensures r.Ok? ==> |r.body| <= 50 && r.body == CaseViews(Take(OwnCases(cs, u.loginId), 50))
  {
    var allowed := RequireRole(Some(u), [Premed]);
    if allowed.Fail? then Fail(allowed.status, allowed.error)
    else Ok(CaseViews(Take(OwnCases(cs, u.loginId), 50)))
  }

  /** Before the limit, the listing holds exactly the caller's cases, newest first. */
  lemma OwnCasesExact(cs: seq<AmbulanceCase>, ambulanceId: string)
    requires Increasing(cs, CaseAt)
    ensures var r := OwnCases(cs, ambulanceId);
      && (forall c :: c in r ==> c in cs && c.ambulanceId == ambulanceId)
      && (forall k :: 0 <= k < |cs| && cs[k].ambulanceId == ambulanceId ==> cs[k] in r)
      && Descending(r, CaseAt)
  {
    NewestFirstDescending(cs, (c: AmbulanceCase) => c.ambulanceId == ambulanceId, CaseAt);
  }
}
