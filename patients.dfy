/** The patient reads of backend/src/modules/patients.ts: search by UHID or
    name, the caller's own profile, and the gated cross-hospital timeline. */
module Patients {
  import opened Wrappers
  import opened Jwt
  import opened Text
  import opened Tables
  import opened Middleware
  import Ehr

  // ---------------------------------------------------------------------
  // ILIKE

  /** SQL `LIKE` with `%` (any run), `_` (any one character) and `\` (take the
      next character literally). */
  predicate Like(s: string, p: string)
    decreases |s| + |p|
  {
    if p == [] then s == []
    else if p[0] == '%' then Like(s, p[1..]) || (s != [] && Like(s[1..], p))
    else if p[0] == '_' then s != [] && Like(s[1..], p[1..])
    else if p[0] == '\\' && |p| >= 2 then s != [] && s[0] == p[1] && Like(s[1..], p[2..])
    else s != [] && s[0] == p[0] && Like(s[1..], p[1..])
  }

  /** `s ILIKE p`, folding ASCII case on both sides. */
  predicate ILike(s: string, p: string) {
    Like(Lower(s), Lower(p))
  }

  /** No character of `q` is special in a pattern. */
  predicate Plain(q: string) {
    forall i :: 0 <= i < |q| ==> q[i] != '%' && q[i] != '_' && q[i] != '\\'
  }

  lemma {:induction false} LikeAnyRun(s: string)
    ensures Like(s, "%")
  {
    if s != [] {
      LikeAnyRun(s[1..]);
    }
  }

  /** A plain prefix followed by `%` matches exactly the strings it starts. */
  lemma {:induction false} LikePlainPrefix(s: string, q: string)
    requires Plain(q)
    ensures Like(s, q + "%") <==> q <= s
  {
    if q == [] {
      assert q + "%" == "%";
      LikeAnyRun(s);
    } else {
      assert (q + "%")[1..] == q[1..] + "%";
      LikePlainPrefix(if s == [] then s else s[1..], q[1..]);
      if s != [] {
        LikePlainPrefix(s[1..], q[1..]);
      }
    }
  }

  /** A leading `%` tries every suffix. */
  lemma {:induction false} LikeLeadingRun(s: string, p: string)
    ensures Like(s, "%" + p) <==> exists i :: 0 <= i <= |s| && Like(s[i..], p)
  {
    assert ("%" + p)[1..] == p;
    if s == [] {
      assert s[0..] == s;
    } else {
      LikeLeadingRun(s[1..], p);
      assert s[0..] == s;
      if exists i :: 0 <= i <= |s| && Like(s[i..], p) {
        var i :| 0 <= i <= |s| && Like(s[i..], p);
        if i > 0 {
          assert s[1..][i - 1..] == s[i..];
        }
      }
      if exists i :: 0 <= i <= |s[1..]| && Like(s[1..][i..], p) {
        var i :| 0 <= i <= |s[1..]| && Like(s[1..][i..], p);
        assert s[1..][i..] == s[i + 1..];
      }
    }
  }

  /** `ILIKE '%' || q || '%'` for a plain `q` is case-insensitive containment. */
  lemma SearchPatternIsContainment(s: string, q: string)
    requires Plain(q)
    ensures ILike(s, "%" + q + "%") <==> Contains(Lower(s), Lower(q))
  {
    var ls, lq := Lower(s), Lower(q);
    assert Lower("%" + q + "%") == "%" + lq + "%" by {
      LowerConcat("%", q + "%");
      LowerConcat(q, "%");
      assert "%" + q + "%" == "%" + (q + "%");
    }
    assert Plain(lq);
    assert "%" + lq + "%" == "%" + (lq + "%");
    LikeLeadingRun(ls, lq + "%");
    forall i | 0 <= i <= |ls| ensures Like(ls[i..], lq + "%") <==> lq <= ls[i..] {
      LikePlainPrefix(ls[i..], lq);
    }
  }

  lemma LowerConcat(a: string, b: string)
    ensures Lower(a + b) == Lower(a) + Lower(b)
  {
    var l, r := Lower(a + b), Lower(a) + Lower(b);
    forall i | 0 <= i < |l| ensures l[i] == r[i] {
      if i < |a| {
        assert (a + b)[i] == a[i];
      } else {
        assert (a + b)[i] == b[i - |a|];
      }
    }
  }

  // ---------------------------------------------------------------------
  // Search and profile

  /** The rows whose UHID or name matches the pattern, in table order. */
  function Matching(ps: seq<Patient>, pattern: string): (r: seq<Patient>)
    ensures forall x :: x in r ==> x in ps && (ILike(x.uhid, pattern) || ILike(x.fullName, pattern))
    ensures forall i :: 0 <= i < |ps| && (ILike(ps[i].uhid, pattern) || ILike(ps[i].fullName, pattern)) ==> ps[i] in r
  {
    if ps == [] then []
    else
      var rest := Matching(ps[1..], pattern);
      assert forall i :: 1 <= i < |ps| ==> ps[i] == ps[1..][i - 1];
      if ILike(ps[0].uhid, pattern) || ILike(ps[0].fullName, pattern) then [ps[0]] + rest else rest
  }

  /** GET /patients/search?q (doctor/admin): the trimmed query must not be
      empty; at most 20 patients whose UHID or name matches `%q%`. */
  function Search(u: Claims, q: Option<string>, ps: seq<Patient>): (r: Response<seq<Patient>>)
    ensures r.Ok? <==> u.role in {Doctor, Admin} && Trim(q.GetOr(""), JsSpace) != ""
    ensures !(u.role in {Doctor, Admin}) ==> r == Fail(403, "Forbidden")
    ensures u.role in {Doctor, Admin} && Trim(q.GetOr(""), JsSpace) == "" ==> r == Fail(400, "Missing q")
    ensures r.Ok? ==> |r.body| <= 20
    ensures r.Ok? ==> r.body == Take(Matching(ps, "%" + Trim(q.GetOr(""), JsSpace) + "%"), 20)
  {
    var allowed := RequireRole(Some(u), [Doctor, Admin]);
    if allowed.Fail? then Fail(allowed.status, allowed.error)
    else
      var t := Trim(q.GetOr(""), JsSpace);
      if t == "" then Fail(400, "Missing q")
      else Ok(Take(Matching(ps, "%" + t + "%"), 20))
  }

  /** For a query without pattern characters, what search serves are patients
      whose UHID or name contains the trimmed query, ignoring ASCII case. */
  lemma SearchFindsSubstrings(u: Claims, q: Option<string>, ps: seq<Patient>, k: nat)
    requires Search(u, q, ps).Ok? && k < |Search(u, q, ps).body|
    requires Plain(Trim(q.GetOr(""), JsSpace))
    ensures var t := Lower(Trim(q.GetOr(""), JsSpace));
      var x := Search(u, q, ps).body[k];
      x in ps && (Contains(Lower(x.uhid), t) || Contains(Lower(x.fullName), t))
  {
    var t := Trim(q.GetOr(""), JsSpace);
    var all := Matching(ps, "%" + t + "%");
    var x := all[k];
    assert x in all;
    SearchPatternIsContainment(x.uhid, t);
    SearchPatternIsContainment(x.fullName, t);
  }

  /** GET /patients/me (patient only): the caller's own row, or nothing. */
  function Me(u: Claims, ps: seq<Patient>): (r: Response<Option<Patient>>)
    ensures r.Ok? <==> u.role.Patient?
    ensures !u.role.Patient? ==> r == Fail(403, "Forbidden")
    ensures r.Ok? && r.body.Some? ==> r.body.value in ps && Some(r.body.value.id) == u.patientId
    ensures r.Ok? && r.body.None? ==> u.patientId.None? || forall i :: 0 <= i < |ps| ==> ps[i].id != u.patientId.value
  {
    var allowed := RequireRole(Some(u), [Role.Patient]);
    if allowed.Fail? then Fail(allowed.status, allowed.error)
    else if u.patientId.None? then Ok(None)
    else match FindPatient(ps, u.patientId.value)
      case None => Ok(None)
      case Some(i) => Ok(Some(ps[i]))
  }

  // ---------------------------------------------------------------------
  // Timeline

  datatype TimelineEntry = TimelineEntry(
    encounterId: Id, encounterType: string, startedAt: nat,
    hospitalCode: string, hospitalName: string, latestVersionId: Option<Id>)

  /** `JOIN hospitals h ON h.id=e.hospital_id WHERE e.patient_id=$1` */
  predicate OfPatient(hs: seq<Hospital>, patientId: Id, e: Encounter) {
    e.patientId == patientId && FindHospital(hs, e.hospitalId).Some?
  }

  function Entry(hs: seq<Hospital>, vs: seq<Version>, e: Encounter): TimelineEntry
    requires FindHospital(hs, e.hospitalId).Some?
  {
    var h := hs[FindHospital(hs, e.hospitalId).value];
    var latest := Ehr.LatestVersion(vs, e.id);
    TimelineEntry(e.id, e.encounterType, e.startedAt, h.code, h.name, if latest.Some? then Some(latest.value.id) else None)
  }

  function Entries(hs: seq<Hospital>, vs: seq<Version>, es: seq<Encounter>): (r: seq<TimelineEntry>)
    requires forall k :: 0 <= k < |es| ==> FindHospital(hs, es[k].hospitalId).Some?
    ensures |r| == |es| && forall k :: 0 <= k < |es| ==> r[k] == Entry(hs, vs, es[k])
  {
    seq(|es|, k requires 0 <= k < |es| => Entry(hs, vs, es[k]))
  }

  /** The patient's encounters, newest first. */
  function PatientEncounters(es: seq<Encounter>, hs: seq<Hospital>, patientId: Id): (r: seq<Encounter>)
    ensures forall k :: 0 <= k < |r| ==> OfPatient(hs, patientId, r[k])
  {
    var r := NewestFirst(es, (e: Encounter) => OfPatient(hs, patientId, e));
    assert forall k :: 0 <= k < |r| ==> r[k] in r;
    r
  }

  /** The timeline: the patient's encounters, newest first, each with its
      hospital and its head version. */
  function TimelineOf(es: seq<Encounter>, hs: seq<Hospital>, vs: seq<Version>, patientId: Id): seq<TimelineEntry> {
    Entries(hs, vs, PatientEncounters(es, hs, patientId))
  }

  /** Every encounter of the patient at a known hospital is on the timeline,
      and nothing else; entries are newest first; each names its encounter's
      newest version, or none when it has no version. */
  lemma TimelineExact(es: seq<Encounter>, hs: seq<Hospital>, vs: seq<Version>, patientId: Id)
    requires Increasing(es, EncounterAt) && Ehr.Ascending(vs)
    ensures var r := PatientEncounters(es, hs, patientId);
      && (forall e :: e in r ==> e in es && e.patientId == patientId)
      && (forall k :: 0 <= k < |es| && OfPatient(hs, patientId, es[k]) ==> es[k] in r)
      && Descending(r, EncounterAt)
    ensures var t := TimelineOf(es, hs, vs, patientId);
      forall k :: 0 <= k < |t| ==> IsHead(vs, t[k].encounterId, t[k].latestVersionId)
  {
    NewestFirstDescending(es, (e: Encounter) => OfPatient(hs, patientId, e), EncounterAt);
    var r := PatientEncounters(es, hs, patientId);
    var t := TimelineOf(es, hs, vs, patientId);
    forall k | 0 <= k < |t| ensures IsHead(vs, t[k].encounterId, t[k].latestVersionId) {
      var latest := Ehr.LatestVersion(vs, r[k].id);
      Ehr.LatestIsNewest(vs, r[k].id);
      if latest.Some? {
        var i :| 0 <= i < |vs| && vs[i] == latest.value;
        assert NewestOf(vs, r[k].id, i);
      }
    }
  }

  /** `vs[i]` is a version of the encounter with the greatest `created_at`. */
  predicate NewestOf(vs: seq<Version>, encounterId: Id, i: nat) {
    && i < |vs| && vs[i].encounterId == encounterId
    && forall j :: 0 <= j < |vs| && vs[j].encounterId == encounterId ==> vs[j].createdAt <= vs[i].createdAt
  }

  /** `(SELECT id FROM ehr_versions v WHERE v.encounter_id=e.id ORDER BY created_at DESC LIMIT 1)` */
  predicate IsHead(vs: seq<Version>, encounterId: Id, head: Option<Id>) {
    && (head.None? <==> forall i :: 0 <= i < |vs| ==> vs[i].encounterId != encounterId)
    && (head.Some? ==> exists i :: 0 <= i < |vs| && NewestOf(vs, encounterId, i) && vs[i].id == head.value)
  }

  /** GET /patients/:patientId/timeline: the gate (action "read_timeline") runs
      before any read. */
  method Timeline(db: Db, u: Claims, req: Request, patientId: Id, logOk: bool)
    returns (resp: Response<seq<TimelineEntry>>)
    requires db.Valid()
    modifies db`accessLogs, db`clock
    ensures db.Valid()
    ensures var r := WithPatient(req, patientId);
      var v := Decide(Some(u), ResolvePatientId(r), ResolveOverride(r), old(db.consents));
      && db.accessLogs == old(db.accessLogs) + GateLog(Some(u), r, "read_timeline", v, logOk, old(db.clock))
      && resp == if v.Proceed? then Ok(TimelineOf(db.encounters, db.hospitals, db.versions, patientId)) else Refusal(v)
  {
    var r := WithPatient(req, patientId);
    var v := EnforceConsent(db, Some(u), r, "read_timeline", logOk);
    if !v.Proceed? {
      return Refusal(v);
    }
    resp := Ok(TimelineOf(db.encounters, db.hospitals, db.versions, patientId));
  }
}
