/** Authentication, role checks and the consent gate of
    backend/src/lib/middleware.ts. The gate's decision is the pure function
    `Decide`; `EnforceConsent` takes that decision and appends the one access
    log row it produces. */
module Middleware {
  import opened Wrappers
  import opened Json
  import opened Jwt
  import opened Tables

  /** The parts of an Express request the middleware reads. `params`, `query`
      and `body` contribute a patient id and an emergency override flag each. */
  datatype Request = Request(
    authorization: Option<string>,
    paramPatientId: Option<string>,
    queryPatientId: Option<string>,
    bodyPatientId: Option<string>,
    queryOverride: Option<Json>,
    bodyOverride: Option<Json>,
    path: string,
    ip: string)

  // ---------------------------------------------------------------------
  // requireAuth and requireRole

  /** `hdr.startsWith('Bearer ') ? hdr.slice(7) : null` with `hdr = header ?? ''`. */
  function BearerToken(header: Option<string>): (t: Option<string>)
    ensures t.Some? <==> header.Some? && "Bearer " <= header.value
    ensures t.Some? ==> header.value == "Bearer " + t.value
  {
    var hdr := header.GetOr("");
    if "Bearer " <= hdr then Some(hdr[7..]) else None
  }

  /** `requireAuth`: a missing or empty bearer token and a token that `verify`
      rejects both answer 401; otherwise the verified claims become `req.user`. */
  function RequireAuth(header: Option<string>, verify: string -> Option<Claims>): (r: Response<Claims>)
    ensures r.Ok? || r.Fail?
    ensures r.Fail? ==> r.status == 401
    ensures r.Ok? <==>
      && header.Some? && |header.value| > 7 && header.value[..7] == "Bearer "
      && verify(header.value[7..]).Some?
    ensures r.Ok? ==> r.body == verify(header.value[7..]).value
  {
    match BearerToken(header)
    case None => Fail(401, "Missing token")
    case Some(token) =>
      if token == "" then Fail(401, "Missing token")
      else match verify(token)
        case None => Fail(401, "Invalid token")
        case Some(claims) => Ok(claims)
  }

  /** `requireRole(roles)`: 401 without a user, 403 when the user's role is not
      listed, otherwise the request goes on with that user. */
  function RequireRole(user: Option<Claims>, roles: seq<Role>): (r: Response<Claims>)
    ensures r.Ok? || r.Fail?
    ensures r.Fail? && r.status == 401 <==> user.None?
    ensures r.Fail? && r.status == 403 <==> user.Some? && user.value.role !in roles
    ensures r.Ok? <==> user.Some? && user.value.role in roles
    ensures r.Ok? ==> r.body == user.value
  {
    match user
    case None => Fail(401, "Missing user")
    case Some(u) => if u.role in roles then Ok(u) else Fail(403, "Forbidden")
  }

  // ---------------------------------------------------------------------
  // What the gate reads from the request

  /** `req.params.patientId ?? req.query.patientId ?? req.body.patientId` */
  function ResolvePatientId(req: Request): (p: Option<string>)
    ensures req.paramPatientId.Some? ==> p == req.paramPatientId
    ensures req.paramPatientId.None? && req.queryPatientId.Some? ==> p == req.queryPatientId
    ensures req.paramPatientId.None? && req.queryPatientId.None? ==> p == req.bodyPatientId
  {
    if req.paramPatientId.Some? then req.paramPatientId
    else if req.queryPatientId.Some? then req.queryPatientId
    else req.bodyPatientId
  }

  /** `(req as any).params.patientId = p` */
  function WithPatient(req: Request, p: Id): (r: Request)
    ensures ResolvePatientId(r) == Some(p) && ResolveOverride(r) == ResolveOverride(req)
  {
    req.(paramPatientId := Some(p))
  }

  /** `String(v) === 'true'` for a JSON value: a boolean `true`, the string
      "true", or a one-element array whose element converts to "true" (an array
      converts by joining its elements with commas). */
  predicate StringIsTrue(v: Json) {
    match v
    case JBool(b) => b
    case JStr(s) => s == "true"
    case JArr(items) => |items| == 1 && StringIsTrue(items[0])
    case _ => false
  }

  /** The first of two optional values that is neither absent nor null (`a ?? b`). */
  function Coalesce(a: Option<Json>, b: Option<Json>): Option<Json> {
    if a.Some? && a.value != JNull then a else if b.Some? && b.value != JNull then b else None
  }

  /** `String(req.query.emergencyOverride ?? req.body.emergencyOverride ?? 'false') === 'true'` */
  function ResolveOverride(req: Request): (o: bool)
    ensures o <==> Coalesce(req.queryOverride, req.bodyOverride).Some?
                   && StringIsTrue(Coalesce(req.queryOverride, req.bodyOverride).value)
  {
    match Coalesce(req.queryOverride, req.bodyOverride)
    case None => false
    case Some(v) => StringIsTrue(v)
  }

  // ---------------------------------------------------------------------
  // The decision

  /** The first consent row of (patient, hospital, scope 'ehr'). */
  function FindConsent(cs: seq<Consent>, patientId: Id, hospitalId: Id): (r: Option<nat>)
    ensures r.Some? ==> r.value < |cs| && cs[r.value].patientId == patientId
                        && cs[r.value].hospitalId == hospitalId && cs[r.value].scope == "ehr"
    ensures r.None? <==> forall i :: 0 <= i < |cs| ==>
      !(cs[i].patientId == patientId && cs[i].hospitalId == hospitalId && cs[i].scope == "ehr")
    ensures r.Some? ==> forall i :: 0 <= i < r.value ==>
      !(cs[i].patientId == patientId && cs[i].hospitalId == hospitalId && cs[i].scope == "ehr")
  {
    if cs == [] then None
    else if cs[0].patientId == patientId && cs[0].hospitalId == hospitalId && cs[0].scope == "ehr" then Some(0)
    else
      match FindConsent(cs[1..], patientId, hospitalId)
      case None => None
      case Some(i) => Some(i + 1)
  }

  /** `r.rows?.[0]?.granted === true` for the consent query. */
  predicate ConsentGranted(cs: seq<Consent>, patientId: Id, hospitalId: Id) {
    var r := FindConsent(cs, patientId, hospitalId);
    r.Some? && cs[r.value].granted
  }

  /** The outcome of one pass through the gate: no user (401, nothing logged),
      proceed to the handler, or refuse with a status; the last two carry the
      decision that is logged. */
  datatype Verdict =
    | NoUser
    | Proceed(decision: Decision)
    | Refuse(decision: Decision, status: nat, error: string)

  /** `enforceConsent`'s decision tree, evaluated in the source's order. */
  function Decide(user: Option<Claims>, patientId: Option<string>, override: bool, cs: seq<Consent>): (v: Verdict)
    ensures v.NoUser? <==> user.None?
    ensures v.Refuse? ==> v.decision == Blocked && v.status in {400, 403}
    ensures v.Proceed? ==> v.decision != Blocked
    ensures v == Proceed(EmergencyOverride) <==>
              user.Some? && user.value.role in {Doctor, Admin} && override
    ensures user.Some? && user.value.role.Premed? ==> v == Refuse(Blocked, 403, "Premed cannot access EHR")
    ensures user.Some? && user.value.role.Patient? ==>
              (v.Proceed? <==> !Truthy(patientId) || user.value.patientId == patientId)
    ensures user.Some? && user.value.role in {Doctor, Admin} && !override ==>
              (v.Proceed? <==> Truthy(patientId) && Truthy(user.value.hospitalId)
                               && ConsentGranted(cs, patientId.value, user.value.hospitalId.value))
    ensures v.Refuse? && v.status == 400 <==>
              user.Some? && user.value.role in {Doctor, Admin} && !override
              && (!Truthy(patientId) || !Truthy(user.value.hospitalId))
  {
    match user
    case None => NoUser
    case Some(u) =>
      if u.role.Patient? then
        if Truthy(patientId) && u.patientId != patientId
        then Refuse(Blocked, 403, "Consent: patient scope mismatch")
        else Proceed(Allowed)
      else if u.role == Doctor || u.role == Admin then
        if override then Proceed(EmergencyOverride)
        else if !Truthy(patientId) || !Truthy(u.hospitalId)
        then Refuse(Blocked, 400, "Missing patientId or hospital")
        else if ConsentGranted(cs, patientId.value, u.hospitalId.value) then Proceed(Allowed)
        else Refuse(Blocked, 403, "Consent denied")
      else Refuse(Blocked, 403, "Premed cannot access EHR")
  }

  /** The answer for a verdict that does not let the request through. */
  function Refusal<T>(v: Verdict): Response<T>
    requires !v.Proceed?
  {
    if v.NoUser? then Fail(401, "Missing user") else Fail(v.status, v.error)
  }

  /** The row `logAccess` writes for one decision. */
  function LogEntry(u: Claims, req: Request, decision: Decision, action: string, at: nat): AccessLog {
    AccessLog(u.sub, u.role, ResolvePatientId(req), u.hospitalId, action, req.path, decision, req.ip, at)
  }

  /** The rows one pass through the gate appends: exactly one for every verdict
      but the missing user, unless writing the log failed. */
  function GateLog(user: Option<Claims>, req: Request, action: string, v: Verdict, logOk: bool, at: nat): seq<AccessLog> {
    if v.NoUser? || user.None? || !logOk then [] else [LogEntry(user.value, req, v.decision, action, at)]
  }

  /** Every decision but the missing user is logged exactly once, with that
      decision and the request's resolved patient id, unless the write fails. */
  lemma OneRowPerDecision(user: Option<Claims>, req: Request, action: string, cs: seq<Consent>, logOk: bool, at: nat)
    ensures var v := Decide(user, ResolvePatientId(req), ResolveOverride(req), cs);
      var rows := GateLog(user, req, action, v, logOk, at);
      && |rows| == (if user.Some? && logOk then 1 else 0)
      && (rows != [] ==> rows[0].decision == v.decision && rows[0].patientId == ResolvePatientId(req)
                         && rows[0].action == action && rows[0].createdAt == at)
  {
  }

  /** `logAccess`: append one row; `logOk` is false when the insert throws, which
      is swallowed. */
  method LogAccess(db: Db, u: Claims, req: Request, decision: Decision, action: string, logOk: bool)
    requires db.Valid()
    modifies db`accessLogs, db`clock
    ensures db.Valid()
    ensures db.clock == old(db.clock) + (if logOk then 1 else 0)
    ensures db.accessLogs == old(db.accessLogs)
      + (if logOk then [LogEntry(u, req, decision, action, old(db.clock))] else [])
  {
    if logOk {
      db.InsertAccessLog(u.sub, u.role, ResolvePatientId(req), u.hospitalId, action, req.path, decision, req.ip);
    }
  }

  /** `enforceConsent(action)`: every branch but the missing user logs its
      decision and then answers; the branches are taken in the source's order
      and the one `logAccess` call they share is made after them. */
  method EnforceConsent(db: Db, user: Option<Claims>, req: Request, action: string, logOk: bool)
    returns (v: Verdict)
    requires db.Valid()
    modifies db`accessLogs, db`clock
    ensures db.Valid()
    ensures v == Decide(user, ResolvePatientId(req), ResolveOverride(req), old(db.consents))
    ensures db.accessLogs == old(db.accessLogs) + GateLog(user, req, action, v, logOk, old(db.clock))
    ensures db.clock == old(db.clock) + |GateLog(user, req, action, v, logOk, old(db.clock))|
  {
    if user.None? {
      return NoUser;
    }
    var u := user.value;
    var patientId := ResolvePatientId(req);
    var emergencyOverride := ResolveOverride(req);

    if u.role.Patient? {
      if Truthy(patientId) && u.patientId != patientId {
        v := Refuse(Blocked, 403, "Consent: patient scope mismatch");
      } else {
        v := Proceed(Allowed);
      }
    } else if u.role == Doctor || u.role == Admin {
      if emergencyOverride {
        v := Proceed(EmergencyOverride);
      } else if !Truthy(patientId) || !Truthy(u.hospitalId) {
        v := Refuse(Blocked, 400, "Missing patientId or hospital");
      } else if !ConsentGranted(db.consents, patientId.value, u.hospitalId.value) {
        v := Refuse(Blocked, 403, "Consent denied");
      } else {
        v := Proceed(Allowed);
      }
    } else {
      v := Refuse(Blocked, 403, "Premed cannot access EHR");
    }
    LogAccess(db, u, req, v.decision, action, logOk);
  }
}
