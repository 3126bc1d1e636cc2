/** The record store of backend/src/modules/ehr.ts: encounters and their
    append-only versions. Every handler runs behind an authenticated user
    (`requireAuth` already passed) and routes through the consent gate with the
    patient id it looked up itself. */
module Ehr {
  import opened Wrappers
  import opened Json
  import opened Jwt
  import opened Tables
  import opened Middleware
  import Diff

  // ---------------------------------------------------------------------
  // Queries over the tables

  /** `SELECT ... FROM encounters WHERE id=$1` */
  function FindEncounter(es: seq<Encounter>, id: Id): Option<nat> {
    FindFirst(es, EncounterKey, id)
  }

  /** `SELECT ... FROM ehr_versions WHERE id=$1` */
  function FindVersion(vs: seq<Version>, id: Id): Option<nat> {
    FindFirst(vs, VersionKey, id)
  }

  /** `WHERE encounter_id=$1 ORDER BY created_at ASC`: because the table is
      chronological, the filter in table order is already that order. */
  function EncounterVersions(vs: seq<Version>, encounterId: Id): (r: seq<Version>)
    ensures forall i :: 0 <= i < |r| ==> r[i].encounterId == encounterId
    ensures forall i :: 0 <= i < |vs| && vs[i].encounterId == encounterId ==> vs[i] in r
    ensures forall v :: v in r ==> v in vs
  {
    if vs == [] then []
    else
      var rest := EncounterVersions(vs[..|vs| - 1], encounterId);
      var last := vs[|vs| - 1];
      assert forall i :: 0 <= i < |vs| - 1 ==> vs[i] == vs[..|vs| - 1][i];
      if last.encounterId == encounterId then rest + [last] else rest
  }

  /** Strictly increasing `created_at` along a list of versions. */
  ghost predicate Ascending(vs: seq<Version>) {
    Increasing(vs, VersionAt)
  }

  /** Over a chronological table the listing is in ascending creation order. */
  lemma {:induction false} EncounterVersionsAscending(vs: seq<Version>, encounterId: Id)
    requires Ascending(vs)
    ensures Ascending(EncounterVersions(vs, encounterId))
  {
    if vs != [] {
      var init := vs[..|vs| - 1];
      assert Ascending(init);
      EncounterVersionsAscending(init, encounterId);
      var rest := EncounterVersions(init, encounterId);
      forall v | v in rest ensures v.createdAt < vs[|vs| - 1].createdAt {
        var i :| 0 <= i < |init| && init[i] == v;
      }
    }
  }

  /** A commit extends exactly one listing, by exactly the new version at its end;
      what was listed before is listed unchanged. */
  lemma {:induction false} EncounterVersionsAppend(vs: seq<Version>, v: Version, encounterId: Id)
    ensures EncounterVersions(vs + [v], encounterId)
            == EncounterVersions(vs, encounterId) + (if v.encounterId == encounterId then [v] else [])
  {
    assert (vs + [v])[..|vs + [v]| - 1] == vs;
  }

  /** The encounter's head: its most recently created version, if any. */
  function LatestVersion(vs: seq<Version>, encounterId: Id): (r: Option<Version>)
    ensures r.None? <==> forall i :: 0 <= i < |vs| ==> vs[i].encounterId != encounterId
    ensures r.Some? ==> r.value in vs && r.value.encounterId == encounterId
  {
    var listed := EncounterVersions(vs, encounterId);
    if listed == [] then None
    else
      var head := listed[|listed| - 1];
      assert head in vs;
      Some(head)
  }

  /** Over a chronological table the head has the greatest `created_at` of the
      encounter's versions. */
  lemma LatestIsNewest(vs: seq<Version>, encounterId: Id)
    requires Ascending(vs)
    ensures var r := LatestVersion(vs, encounterId);
            r.Some? ==> forall i :: 0 <= i < |vs| && vs[i].encounterId == encounterId ==> vs[i].createdAt <= r.value.createdAt
  {
    EncounterVersionsAscending(vs, encounterId);
    var listed := EncounterVersions(vs, encounterId);
    forall i | 0 <= i < |vs| && vs[i].encounterId == encounterId
      ensures vs[i].createdAt <= listed[|listed| - 1].createdAt
    {
      var j :| 0 <= j < |listed| && listed[j] == vs[i];
    }
  }

  /** Committing to an encounter makes the new version its head, and leaves
      every other encounter's head as it was. */
  lemma CommitMovesHead(vs: seq<Version>, v: Version, encounterId: Id)
    ensures LatestVersion(vs + [v], encounterId)
            == if v.encounterId == encounterId then Some(v) else LatestVersion(vs, encounterId)
  {
    EncounterVersionsAppend(vs, v, encounterId);
  }

  /** Appending leaves every existing version readable, unchanged, under its id. */
  lemma {:induction false} AppendKeepsVersions(vs: seq<Version>, v: Version, id: Id)
    requires FindVersion(vs, id).Some?
    ensures FindVersion(vs + [v], id) == FindVersion(vs, id)
  {
    if vs[0].id != id {
      assert (vs + [v])[1..] == vs[1..] + [v];
      AppendKeepsVersions(vs[1..], v, id);
    }
  }

  // ---------------------------------------------------------------------
  // Handlers

  /** A row of the version listing. */
  datatype VersionSummary = VersionSummary(
    id: Id, parentVersionId: Option<Id>, commitMessage: string, createdAt: nat, createdBy: string)

  function Summaries(vs: seq<Version>): (r: seq<VersionSummary>)
    ensures |r| == |vs|
    ensures forall i :: 0 <= i < |vs| ==>
      r[i] == VersionSummary(vs[i].id, vs[i].parentVersionId, vs[i].commitMessage, vs[i].createdAt, vs[i].createdBy)
  {
    if vs == [] then []
    else [VersionSummary(vs[0].id, vs[0].parentVersionId, vs[0].commitMessage, vs[0].createdAt, vs[0].createdBy)]
         + Summaries(vs[1..])
  }

  /** The columns the single-version read returns. */
  datatype VersionRecord = VersionRecord(
    id: Id, encounterId: Id, patientId: Id, hospitalId: Id, parentVersionId: Option<Id>,
    commitMessage: string, data: Json, createdAt: nat)

  function Record(v: Version): VersionRecord {
    VersionRecord(v.id, v.encounterId, v.patientId, v.hospitalId, v.parentVersionId, v.commitMessage, v.data, v.createdAt)
  }

  datatype DiffReply = DiffReply(from: Id, to: Id, diff: Diff.Delta)

  datatype CommitReply = CommitReply(versionId: Id, createdAt: nat)

  /** The body a commit request carries once validated. */
  datatype CommitBody = CommitBody(
    encounterId: Id, parentVersionId: Option<Id>, commitMessage: string, data: Json,
    emergencyOverride: Option<bool>)

  /** GET /encounter/:encounterId/versions */
  method ListVersions(db: Db, u: Claims, req: Request, encounterId: Id, logOk: bool)
    returns (resp: Response<seq<VersionSummary>>)
    requires db.Valid()
    modifies db`accessLogs, db`clock
    ensures db.Valid()
    ensures var e := FindEncounter(old(db.encounters), encounterId);
      if e.None? || old(db.encounters)[e.value].patientId == "" then
        resp == Fail(404, "Encounter not found") && db.accessLogs == old(db.accessLogs)
      else
        var r := WithPatient(req, old(db.encounters)[e.value].patientId);
        var v := Decide(Some(u), ResolvePatientId(r), ResolveOverride(r), old(db.consents));
        && db.accessLogs == old(db.accessLogs) + GateLog(Some(u), r, "read_versions", v, logOk, old(db.clock))
        && resp == if v.Proceed? then Ok(Summaries(EncounterVersions(db.versions, encounterId))) else Refusal(v)
  {
    var e := FindEncounter(db.encounters, encounterId);
    if e.None? || db.encounters[e.value].patientId == "" {
      return Fail(404, "Encounter not found");
    }
    var r := WithPatient(req, db.encounters[e.value].patientId);
    var v := EnforceConsent(db, Some(u), r, "read_versions", logOk);
    if !v.Proceed? {
      return Refusal(v);
    }
    resp := Ok(Summaries(EncounterVersions(db.versions, encounterId)));
  }

  /** GET /version/:versionId */
  method GetVersion(db: Db, u: Claims, req: Request, versionId: Id, logOk: bool)
    returns (resp: Response<VersionRecord>)
    requires db.Valid()
    modifies db`accessLogs, db`clock
    ensures db.Valid()
    ensures var f := FindVersion(old(db.versions), versionId);
      if f.None? then
        resp == Fail(404, "Not found") && db.accessLogs == old(db.accessLogs)
      else
        var row := old(db.versions)[f.value];
        var r := WithPatient(req, row.patientId);
        var v := Decide(Some(u), ResolvePatientId(r), ResolveOverride(r), old(db.consents));
        && db.accessLogs == old(db.accessLogs) + GateLog(Some(u), r, "read_version", v, logOk, old(db.clock))
        && resp == if v.Proceed? then Ok(Record(row)) else Refusal(v)
  {
    var f := FindVersion(db.versions, versionId);
    if f.None? {
      return Fail(404, "Not found");
    }
    var row := db.versions[f.value];
    var r := WithPatient(req, row.patientId);
    var v := EnforceConsent(db, Some(u), r, "read_version", logOk);
    if !v.Proceed? {
      return Refusal(v);
    }
    resp := Ok(Record(row));
  }

  /** GET /diff?from&to: both versions must exist; only `from`'s patient is gated. */
  method DiffVersions(db: Db, u: Claims, req: Request, from: Id, to: Id, logOk: bool)
    returns (resp: Response<DiffReply>)
    requires db.Valid()
    modifies db`accessLogs, db`clock
    ensures db.Valid()
    ensures var fa := FindVersion(old(db.versions), from);
      var fb := FindVersion(old(db.versions), to);
      if fa.None? || fb.None? then
        resp == Fail(404, "Version not found") && db.accessLogs == old(db.accessLogs)
      else
        var a := old(db.versions)[fa.value];
        var b := old(db.versions)[fb.value];
        var r := WithPatient(req, a.patientId);
        var v := Decide(Some(u), ResolvePatientId(r), ResolveOverride(r), old(db.consents));
        && db.accessLogs == old(db.accessLogs) + GateLog(Some(u), r, "read_diff", v, logOk, old(db.clock))
        && resp == if v.Proceed? then Ok(DiffReply(from, to, Diff.Diff(a.data, b.data, ""))) else Refusal(v)
  {
    var fa := FindVersion(db.versions, from);
    var fb := FindVersion(db.versions, to);
    if fa.None? || fb.None? {
      return Fail(404, "Version not found");
    }
    var a := db.versions[fa.value];
    var b := db.versions[fb.value];
    var r := WithPatient(req, a.patientId);
    var v := EnforceConsent(db, Some(u), r, "read_diff", logOk);
    if !v.Proceed? {
      return Refusal(v);
    }
    var d := Diff.DiffJson(a.data, b.data, "");
    resp := Ok(DiffReply(from, to, d));
  }

  /** POST /encounter (doctor/admin). `encounterType` defaults to "OPD". */
  method CreateEncounter(db: Db, u: Claims, req: Request, patientId: Id, encounterType: Option<string>, logOk: bool)
    returns (resp: Response<Id>)
    requires db.Valid()
    modifies db`accessLogs, db`encounters, db`clock
    ensures db.Valid()
    ensures !(u.role in {Doctor, Admin}) ==>
      resp == Fail(403, "Forbidden") && db.accessLogs == old(db.accessLogs) && db.encounters == old(db.encounters)
    ensures u.role in {Doctor, Admin} && !Truthy(u.hospitalId) ==>
      resp == Fail(400, "Doctor missing hospital") && db.accessLogs == old(db.accessLogs) && db.encounters == old(db.encounters)
    ensures u.role in {Doctor, Admin} && Truthy(u.hospitalId) ==>
      var r := WithPatient(req, patientId);
      var v := Decide(Some(u), ResolvePatientId(r), ResolveOverride(r), old(db.consents));
      var logged := GateLog(Some(u), r, "create_encounter", v, logOk, old(db.clock));
      && db.accessLogs == old(db.accessLogs) + logged
      && if v.Proceed? then
           && |db.encounters| == |old(db.encounters)| + 1
           && db.encounters[..|old(db.encounters)|] == old(db.encounters)
           && var e := db.encounters[|old(db.encounters)|];
              && e == Encounter(e.id, patientId, u.hospitalId.value, encounterType.GetOr("OPD"), u.sub, old(db.clock) + |logged|)
              && FindEncounter(old(db.encounters), e.id).None?
              && resp == Ok(e.id)
         else db.encounters == old(db.encounters) && resp == Refusal(v)
  {
    var allowed := RequireRole(Some(u), [Doctor, Admin]);
    if allowed.Fail? {
      return Fail(allowed.status, allowed.error);
    }
    if !Truthy(u.hospitalId) {
      return Fail(400, "Doctor missing hospital");
    }
    var r := WithPatient(req, patientId);
    var v := EnforceConsent(db, Some(u), r, "create_encounter", logOk);
    if !v.Proceed? {
      return Refusal(v);
    }
    var e := db.InsertEncounter(patientId, u.hospitalId.value, encounterType.GetOr("OPD"), u.sub);
    resp := Ok(e.id);
  }

  /** `req.params.patientId`, `req.body.patientId` and `req.body.emergencyOverride`
      as the commit handler overwrites them before calling the gate. */
  function CommitRequest(req: Request, p: Id, body: CommitBody): Request {
    req.(paramPatientId := Some(p), bodyPatientId := Some(p),
         bodyOverride := Some(JBool(body.emergencyOverride.GetOr(false))))
  }

  /** POST /commit (doctor/admin): checks, in order, the role, the message,
      the actor's hospital, the encounter, the encounter's hospital, then the gate;
      only then inserts one version. The parent id is stored as given. */
  method Commit(db: Db, u: Claims, req: Request, body: CommitBody, logOk: bool)
    returns (resp: Response<CommitReply>)
    requires db.Valid()
    modifies db`accessLogs, db`versions, db`clock
    ensures db.Valid()
    ensures var e := FindEncounter(old(db.encounters), body.encounterId);
      var early := !(u.role in {Doctor, Admin}) || body.commitMessage == "" || !Truthy(u.hospitalId)
                   || e.None? || old(db.encounters)[e.value].hospitalId != u.hospitalId.value;
      && (early ==> db.accessLogs == old(db.accessLogs) && db.versions == old(db.versions))
      && (!(u.role in {Doctor, Admin}) ==> resp == Fail(403, "Forbidden"))
      && (u.role in {Doctor, Admin} && body.commitMessage == "" ==> resp == Invalid("commitMessage"))
      && (u.role in {Doctor, Admin} && body.commitMessage != "" && !Truthy(u.hospitalId) ==>
            resp == Fail(400, "Doctor missing hospital"))
      && (u.role in {Doctor, Admin} && body.commitMessage != "" && Truthy(u.hospitalId) && e.None? ==>
            resp == Fail(404, "Encounter not found"))
      && (u.role in {Doctor, Admin} && body.commitMessage != "" && Truthy(u.hospitalId) && e.Some?
          && old(db.encounters)[e.value].hospitalId != u.hospitalId.value ==>
            resp == Fail(403, "Encounter belongs to different hospital"))
      && (!early ==>
            var row := old(db.encounters)[e.value];
            var r := CommitRequest(req, row.patientId, body);
            var v := Decide(Some(u), ResolvePatientId(r), ResolveOverride(r), old(db.consents));
            var logged := GateLog(Some(u), r, "commit_ehr", v, logOk, old(db.clock));
            && db.accessLogs == old(db.accessLogs) + logged
            && if v.Proceed? then
                 && |db.versions| == |old(db.versions)| + 1
                 && db.versions[..|old(db.versions)|] == old(db.versions)
                 && var nv := db.versions[|old(db.versions)|];
                    && nv == Version(nv.id, body.encounterId, row.patientId, u.hospitalId.value,
                                     body.parentVersionId, body.commitMessage, body.data, u.sub,
                                     old(db.clock) + |logged|)
                    && FindVersion(old(db.versions), nv.id).None?
                    && resp == Ok(CommitReply(nv.id, nv.createdAt))
               else db.versions == old(db.versions) && resp == Refusal(v))
  {
    var allowed := RequireRole(Some(u), [Doctor, Admin]);
    if allowed.Fail? {
      return Fail(allowed.status, allowed.error);
    }
    if body.commitMessage == "" {
      return Invalid("commitMessage");
    }
    if !Truthy(u.hospitalId) {
      return Fail(400, "Doctor missing hospital");
    }
    var e := FindEncounter(db.encounters, body.encounterId);
    if e.None? {
      return Fail(404, "Encounter not found");
    }
    var row := db.encounters[e.value];
    if row.hospitalId != u.hospitalId.value {
      return Fail(403, "Encounter belongs to different hospital");
    }
    var r := CommitRequest(req, row.patientId, body);
    var v := EnforceConsent(db, Some(u), r, "commit_ehr", logOk);
    if !v.Proceed? {
      return Refusal(v);
    }
    var nv := db.InsertVersion(body.encounterId, row.patientId, u.hospitalId.value,
                               body.parentVersionId, body.commitMessage, body.data, u.sub);
    resp := Ok(CommitReply(nv.id, nv.createdAt));
  }
}
