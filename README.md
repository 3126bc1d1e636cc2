# A verified model of the consent-gated health record backend

The system is a hospital interoperability backend. It has three main parts.

- **Record store.** Clinicians keep an append-only history of each patient's electronic health record. Each encounter owns a chain of JSON snapshots ("versions"). The changes between two snapshots are reported as three lists of dotted key paths: `new`, `modified` and `missing`.
- **Consent gate.** Every clinical read passes a gate that decides from:
  - the caller's role;
  - the patient the request is about;
  - an emergency override flag;
  - the patient's per-hospital consent.

  The gate writes one access-log row per decision.
- **Ambulance intake.** Paramedics submit a case. It is scored by a small rule-based triage service. A case with an urgency of 70 or more raises a pre-alert to a hospital's room.

This project models these parts in Dafny:
- the JSON diff;
- the authentication, role and consent middleware;
- the record, consent, alert, ambulance, audit, patient and FHIR export handlers;
- the triage scorer of the AI service.

The database is a `class Db` whose tables are sequences of rows. `clock` is a counter that stands in for `now()` and for the columns the inserts leave to the database (`created_at`, an encounter's `started_at`, a new consent's `updated_at`): every insert stamps its row with `clock` and advances it. Those defaults are assumptions, listed under "## Left out".

Each handler is a method whose `ensures` states three things:
- its whole answer;
- everything it appends;
- that nothing else changes, through `modifies` clauses on the exact fields.

Pure read rules are functions, with lemmas proving the properties the source promises.

Module by module:

- `Wrappers`, `Json`, `Text`, `Jwt`, `Tables`: the shared vocabulary.
  - `Response` is `Ok`, `Fail(status, error)`, or `Invalid` for a request that schema validation rejects.
  - Also here: JSON values with ordered object keys, string helpers, token claims, and the tables with their insert operations.
- `Diff`: `Diff` is a recursive specification of `diffJson`. `DiffJson` is the source's loop-and-push implementation, proved equal to it. The lemmas cover:
  - the identity law;
  - null sides;
  - where each key lands;
  - that nested paths stay under their key;
  - a worked two-commit example.
- `Middleware`:
  - `RequireAuth` and `RequireRole`;
  - the patient-id and override resolution;
  - the gate's decision `Decide`;
  - `EnforceConsent`, which decides and appends the log row.
- `Ehr`: listing, reading and diffing versions; creating encounters; committing versions.
- `Consents`: the patient's own consent list, and the toggle upsert.
- `Alerts`:
  - `createAlert`: insert, then emit to the hospital's room when a socket server is attached. Emitted messages are a ghost log on `AlertBus`.
  - Listing by hospital.
  - Acknowledgement.
- `Triage`: `predict` of the AI service. `ScoreCase` accumulates the score and the tags step by step, as the source does. `Assess` is the closed-form specification.
- `Ambulance`: case submission and the paramedic's own case list. Submission covers:
  - the media loop;
  - the classifier result;
  - the case insert;
  - the alert when urgency is 70 or more.
- `Audit`: who may read which access-log rows.
- `Patients`: search with `ILIKE`, the self profile, and the timeline with each encounter's latest version.
- `Fhir`: the Patient, Encounter and Observation resources behind the gate.

Behaviour that the source has, kept as written:
- A commit stores `parentVersionId` verbatim. No check ties it to the encounter.
- The diff endpoint gates only on the `from` version's patient.
- A classifier failure leaves the media documents stored before the call.
- Acknowledging an alert succeeds for an unknown id.
- For a commit, the different-hospital 403 precedes the gate, so the emergency override cannot bypass it.

## Model

| member | source | states |
|---|---|---|
| Middleware.BearerToken | backend/src/lib/middleware.ts:8-9 | a token exists exactly when the header starts with "Bearer ", and it is the rest of the header |
| Middleware.RequireAuth | backend/src/lib/middleware.ts:7-17 | success exactly when the header is "Bearer " plus a non-empty token that verification accepts, giving that token's claims; otherwise 401 |
| Middleware.RequireRole | backend/src/lib/middleware.ts:19-25 | 401 exactly when there is no user; 403 exactly when the role is not listed; otherwise the request goes on with that user |
| Middleware.ResolvePatientId | backend/src/lib/middleware.ts:38 | the patient id comes from the path parameter first, then the query, then the body |
| Middleware.ResolveOverride | backend/src/lib/middleware.ts:39 | the override is on exactly when the first non-null of the query and body flags stringifies to "true" |
| Middleware.WithPatient | backend/src/modules/ehr.ts:20 | overwriting the path parameter makes the gate see exactly that patient and leaves the override as it was |
| Middleware.FindConsent | backend/src/lib/middleware.ts:61-65 | the first (patient, hospital, 'ehr') consent row; none exactly when no row has that key |
| Middleware.Decide | backend/src/lib/middleware.ts:33-78 | the gate's verdict. No user is the only case with no decision. A premed is always refused with 403. A patient passes exactly when no patient id is given or it is their own. A doctor/admin with override passes as `emergency_override`, with no lookup. Without override they get 400 exactly when the patient id or hospital id is missing; otherwise they pass exactly when the consent row is granted |
| Middleware.OneRowPerDecision | backend/src/lib/middleware.ts:44-76 | every decision except "no user" appends exactly one log row, unless the write fails. The row carries that decision, the action and the resolved patient id |
| Middleware.LogAccess | backend/src/lib/middleware.ts:80-103 | appends exactly the row for the caller, request, decision and action stamped now; a failed write appends nothing |
| Middleware.EnforceConsent | backend/src/lib/middleware.ts:33-78 | the verdict equals `Decide` on the consent table, and the log grows by exactly the gate's rows |
| Diff.DiffJson | backend/src/lib/diff.ts:20-51 | the two-loop implementation returns exactly the specified diff |
| Diff.DiffIdentity | backend/src/lib/diff.ts:26-48 | a snapshot diffed with itself gives three empty lists |
| Diff.DiffFromNull | backend/src/lib/diff.ts:23-33 | against a null or non-object `from`, every key of `to` is `new`, in key order |
| Diff.DiffToNull | backend/src/lib/diff.ts:23-24 | against a null or non-object `to`, every key of `from` is `missing`, in key order |
| Diff.AddedKeyReported | backend/src/lib/diff.ts:26-31 | a key only in `to` contributes just its own path under `new` and is not descended into |
| Diff.NestedKeyMerged | backend/src/lib/diff.ts:34-39 | a shared key with object values on both sides contributes exactly the child diff under the path `prefix.k`, whose three lists are contained in the whole result |
| Diff.SharedKeyCompared | backend/src/lib/diff.ts:40-41 | any other shared key is `modified` exactly when the values differ; arrays are compared whole |
| Diff.KeyDeltaInDiff | backend/src/lib/diff.ts:26-43 | what each key of `to` contributes is contained in the whole result |
| Diff.MissingPathsExact | backend/src/lib/diff.ts:45-48 | the trailing `missing` entries name exactly the key positions of `from` whose key `to` lacks, so a key of `to` never lands there |
| Diff.RemovedKeyReported | backend/src/lib/diff.ts:45-48 | a key only in `from` is `missing`, after every entry that `to`'s keys produced |
| Diff.DiffUnder | backend/src/lib/diff.ts:27-39 | under a non-empty prefix every reported path extends `prefix.`, so a nested diff never reports its key itself or a sibling |
| Diff.VitalsScenario | backend/src/lib/diff.ts:20-51 | `{vitals:{hr:80}}` to `{vitals:{hr:85}, note:"x"}` gives `new ["note"]`, `modified ["vitals.hr"]` and nothing `missing` |
| Tables.FindFirst | backend/src/modules/ehr.ts:35-41 | the lookup by a column (id, hospital code, UHID) returns the first row with that value, and none exactly when no row has it |
| Ehr.EncounterVersions | backend/src/modules/ehr.ts:23-27 | exactly the encounter's versions, all drawn from the table |
| Ehr.EncounterVersionsAscending | backend/src/modules/ehr.ts:25 | over a chronological table the listing is ascending by `created_at` |
| Ehr.EncounterVersionsAppend | backend/src/modules/ehr.ts:111-116 | an insert extends only its encounter's listing, by the new version at the end |
| Ehr.AppendKeepsVersions | backend/src/modules/ehr.ts:111-116 | after an insert every existing version is still found, unchanged, under its id |
| Ehr.LatestVersion | backend/src/modules/patients.ts:31 | the encounter's last version; none exactly when the encounter has none |
| Ehr.LatestIsNewest | backend/src/modules/patients.ts:31 | over a chronological table that version has the greatest `created_at` of its encounter |
| Ehr.CommitMovesHead | backend/src/modules/ehr.ts:111-116 | a commit makes the new version its encounter's head and leaves every other head unchanged |
| Ehr.ListVersions | backend/src/modules/ehr.ts:10-30 | 404 with nothing logged for an unknown encounter (or one with a falsy patient id); otherwise the gate runs on the encounter's patient, and on passing the answer is that encounter's versions in creation order |
| Ehr.GetVersion | backend/src/modules/ehr.ts:33-45 | 404 before the gate for an absent version; otherwise the gate runs on the version's own patient and the answer is the row |
| Ehr.DiffVersions | backend/src/modules/ehr.ts:48-64 | 404 unless both versions exist; the gate uses only `from`'s patient; the answer is the diff of `from`'s snapshot against `to`'s |
| Ehr.CreateEncounter | backend/src/modules/ehr.ts:67-86 | 403 for other roles and 400 without a hospital, with nothing logged. Then the gate runs. On passing, exactly one encounter is appended, with the actor's hospital, `created_by = sub` and type "OPD" by default |
| Ehr.Commit | backend/src/modules/ehr.ts:89-118 | checks in order: 403 for the role, a rejected empty message, 400 for no hospital, 404 for an unknown encounter, 403 for another hospital's encounter; none of these logs or inserts. Then the gate runs on the encounter's patient, with the override defaulting to false. On passing, exactly one version is appended and no existing one changes. It carries the encounter's patient, the actor's hospital and the parent id as given |
| Consents.SortByCode | backend/src/modules/consents.ts:13 | the result is ordered by hospital code and is a permutation of the input |
| Consents.OwnConsents | backend/src/modules/consents.ts:10-15 | no more rows than the consent table; every listed row is one of the caller's consents joined with its hospital (same id, granted flag, scope and time); every consent of theirs for a known hospital is listed |
| Consents.OwnConsentsUnique | backend/src/modules/consents.ts:10-15 | over a table with distinct consent ids, no consent row is listed twice |
| Consents.ListConsents | backend/src/modules/consents.ts:9-17 | patients only (403 otherwise); the answer is the caller's consents joined with their hospitals, sorted by hospital code, and over a table with distinct ids no consent appears twice |
| Consents.ListedConsentsAreOwn | backend/src/modules/consents.ts:14 | whatever is listed is a consent row of the caller's own patient id, joined with its hospital, and shows that row's granted flag |
| Consents.UpsertKeepsUnique | backend/src/modules/consents.ts:27-32 | the upsert keeps at most one row per (patient, hospital, scope) |
| Consents.UpsertDecidesConsent | backend/src/modules/consents.ts:27-32 | after the upsert the gate's lookup finds the value just written, stamped now |
| Consents.UpsertTouchesOneRow | backend/src/modules/consents.ts:27-32 | only the (patient, hospital, 'ehr') row changes, and only in `granted` and `updated_at`; a row is appended exactly when none existed, and it has scope 'ehr' |
| Consents.UpsertIdempotent | backend/src/modules/consents.ts:30-31 | toggling twice to the same value changes nothing but `updated_at` |
| Consents.Toggle | backend/src/modules/consents.ts:20-37 | 403 for non-patients and 404 for an unknown hospital code, both leaving the table unchanged. Otherwise the table becomes the upsert of the caller's own patient id, and the answer is the written row |
| Alerts.AlertBus.AttachIo | backend/src/modules/alerts.ts:8-10 | after attaching, emits are delivered |
| Alerts.AlertHospitalId | backend/src/modules/alerts.ts:22-23 | the id of a hospital with that code; null exactly when none has it |
| Alerts.AlertPatientId | backend/src/modules/alerts.ts:25-29 | the id of a patient with that UHID; null exactly when the UHID is absent or empty, or unknown |
| Alerts.CreateAlert | backend/src/modules/alerts.ts:14-47 | appends exactly one unacknowledged alert with the looked-up ids and answers only its new id and creation time (`RETURNING id, created_at`). It publishes to the room named by the code, with the new id and time, exactly when a server is attached |
| Alerts.ListAlerts | backend/src/modules/alerts.ts:50-65 | 403 for other roles; 400 without a hospital code; otherwise at most 100 of the hospital's alerts, newest first, each joined with its patient's UHID |
| Alerts.HospitalAlertsExact | backend/src/modules/alerts.ts:57-61 | before the limit the listing holds exactly the alerts of the code's hospital, newest first; an alert with a null hospital id is never listed |
| Alerts.CreatedAlertListedFirst | backend/src/modules/alerts.ts:31-35 | a new alert for a known hospital heads that hospital's listing |
| Alerts.AckRows | backend/src/modules/alerts.ts:70 | every row with that id becomes acknowledged and every other row is unchanged |
| Alerts.Ack | backend/src/modules/alerts.ts:68-72 | for a doctor/admin the table becomes `AckRows` of the id and the answer is ok, even for an unknown id; other roles get 403 |
| Triage.Clamp | ai/app/main.py:30-31 | within bounds when `lo <= hi`; the identity in range; the bound that was crossed; `lo` when the bounds cross |
| Triage.NormalizeAllAt | ai/app/main.py:51 | each symptom is lower-cased and stripped, in place |
| Triage.MentionsExact | ai/app/main.py:62-67 | a flag fires exactly when some raw symptom normalises to one of its two phrases exactly |
| Triage.FlagTags | ai/app/main.py:62-69 | each tag is set exactly when its rule fires; trauma when the trauma type is a non-empty string |
| Triage.FlagPoints | ai/app/main.py:62-69 | the symptom and trauma flags add between 0 and 90 points |
| Triage.HrPoints | ai/app/main.py:71-74 | one of 0/15/20/25, and non-zero exactly when the heart rate is at least 110 or at most 45 |
| Triage.Spo2Points | ai/app/main.py:75-77 | one of 0/15/30, and non-zero exactly when SpO2 is below 94 |
| Triage.RrPoints | ai/app/main.py:78-80 | one of 0/10/20, and non-zero exactly when the respiratory rate is at least 24 |
| Triage.BpPoints | ai/app/main.py:82-85 | one of 0/15/30, and non-zero exactly when systolic pressure is below 90 or above 180 |
| Triage.EffectiveAge | ai/app/main.py:56 | a missing age and age 0 both count as 40 |
| Triage.AgePoints | ai/app/main.py:88-89 | 10 exactly when the age is at least 65 or at most 5 |
| Triage.Kind | ai/app/main.py:98-112 | the emergency type and its setup list follow tag priority: neuro, then cardiac, then respiratory, then trauma, then general |
| Triage.ClassOf | ai/app/main.py:114 | high exactly when urgency is at least 70, medium at 40 to 69, low below 40 |
| Triage.RouteOf | ai/app/main.py:117-120 | HOSP-001 exactly when urgency is at least 60, else HOSP-002 |
| Triage.Assess | ai/app/main.py:47-131 | urgency is in [0, 100] and equals the point sum clamped at 100; the tags, class, routing and type follow the rules above |
| Triage.ScoreCase | ai/app/main.py:51-91 | the step-by-step accumulation yields exactly the point sum and the tag set |
| Triage.Predict | ai/app/main.py:47-131 | the handler's output is exactly `Assess` of its input |
| Triage.AlertingPredictionRoutesFirst | ai/app/main.py:114-120 | a prediction urgent enough to alert is classed high and routed to HOSP-001 |
| Ambulance.AlertCode | backend/src/modules/ambulance.ts:81 | the classifier's hospital code, or HOSP-001 when it is absent |
| Ambulance.PreAlert | backend/src/modules/ambulance.ts:82-89 | severity HIGH, the new case id, the case's UHID, the alert code and an "ER Pre-alert: " title |
| Ambulance.PreAlertText | backend/src/modules/ambulance.ts:87-88 | the title names the emergency type when there is one, and the body opens with the urgency out of 100 |
| Ambulance.StoreMedia | backend/src/modules/ambulance.ts:38-47 | appends one media document per item, in order, and returns their ids in that order |
| Ambulance.AlertIfUrgent | backend/src/modules/ambulance.ts:78-90 | below urgency 70 no alert is written and nothing is published; from 70 on exactly one unacknowledged HIGH pre-alert for the case is appended, and it is published to its hospital room exactly when a server is attached |
| Ambulance.SubmitCase | backend/src/modules/ambulance.ts:30-93 | 403 changing nothing for non-premeds. Otherwise the photos and then the voice notes are stored first. A classifier error is a 502 with no case and no alert. On success exactly one case with the body, the media ids and the classifier result is appended. Exactly one HIGH alert for that case follows exactly when urgency is at least 70 |
| Ambulance.ScorerAlertsGoToFirstHospital | backend/src/modules/ambulance.ts:78-89 | when the classifier is the rule-based scorer, every pre-alert goes to HOSP-001 and names the predicted type |
| Ambulance.ListCases | backend/src/modules/ambulance.ts:96-104 | premeds only; at most 50 of the caller's own cases |
| Ambulance.OwnCasesExact | backend/src/modules/ambulance.ts:97-101 | before the limit, exactly the caller's cases, newest first |
| Audit.ReadLogs | backend/src/modules/audit.ts:8-33 | a patient gets their own rows whatever the query says. Otherwise: 400 without a patient id, 400 without a hospital, 403 without a granted consent (no override path). At most 200 rows |
| Audit.ServedLogsAreAuthorised | backend/src/modules/audit.ts:12-31 | every served row is the caller's own, or is about the named patient whose consent the caller's hospital holds |
| Audit.NoHospitalReadsNothing | backend/src/modules/audit.ts:23 | a non-patient without a hospital (every premed token) always gets 400 |
| Audit.ReadLogsNewestFirst | backend/src/modules/audit.ts:27-31 | the patient's rows come newest first |
| Patients.LikePlainPrefix | backend/src/modules/patients.ts:13-14 | a pattern without wildcards followed by `%` matches exactly the strings it prefixes |
| Patients.LikeLeadingRun | backend/src/modules/patients.ts:13-14 | a leading `%` matches exactly when some suffix matches the rest |
| Patients.SearchPatternIsContainment | backend/src/modules/patients.ts:13-14 | `ILIKE '%q%'` for a query without wildcards is case-insensitive substring containment |
| Patients.Matching | backend/src/modules/patients.ts:13 | exactly the patients whose UHID or full name matches |
| Patients.Search | backend/src/modules/patients.ts:9-17 | doctors and admins only; 400 when the trimmed query is empty; otherwise at most 20 matches of `%q%` |
| Patients.SearchFindsSubstrings | backend/src/modules/patients.ts:10-15 | for a trimmed query without the wildcards `%`, `_` and `\`, every result contains the query, case-insensitively, in its UHID or name |
| Patients.Me | backend/src/modules/patients.ts:20-23 | patients only; the caller's own row, or nothing when there is none |
| Patients.TimelineExact | backend/src/modules/patients.ts:28-37 | the timeline holds exactly the patient's encounters at known hospitals, newest first. Each entry names its encounter's newest version, or none when the encounter has none |
| Patients.Timeline | backend/src/modules/patients.ts:26-39 | the gate (`read_timeline`) runs before any read; on passing the answer is the timeline |
| Fhir.Gender | backend/src/modules/fhir.ts:27 | male exactly for m/M, female exactly for f/F, otherwise unknown |
| Fhir.PatientOf | backend/src/modules/fhir.ts:22-30 | a Patient resource with the requested id and the identifier `urn:uhi` / UHID |
| Fhir.GetPatient | backend/src/modules/fhir.ts:13-32 | the gate runs first; a missing patient is 404 only after the gate passes |
| Fhir.EncounterOf | backend/src/modules/fhir.ts:47-55 | status finished, class code the encounter type, subject `Patient/<id>`, provider the hospital code |
| Fhir.GetEncounter | backend/src/modules/fhir.ts:34-57 | 404 before the gate when the encounter or its hospital is missing; otherwise the gate runs on the encounter's patient |
| Fhir.ObservationOf | backend/src/modules/fhir.ts:67-74 | status final, subject `Patient/<id>`, the version's time and the snapshot as value |
| Fhir.GetObservation | backend/src/modules/fhir.ts:59-76 | 404 before the gate for a missing version; otherwise the gate runs on the version's patient |
| Fhir.ReferenceInjective | backend/src/modules/fhir.ts:52 | distinct patients get distinct subject references |

## Left out

- Token signing and verification (backend/src/lib/jwt.ts), login and password checks (backend/src/modules/auth.ts): `RequireAuth` takes verification as a partial function.
- The web framework and socket wiring (backend/src/index.ts), connection pools (backend/src/lib/db.ts, backend/src/lib/mongo.ts) and the frontend: none of these decide anything in the core.
- SQL itself: tables are sequences in insertion order, and "now" is the `clock` counter. Database errors are not modelled (a failed access-log write is the `logOk` parameter). Concurrency is not modelled: no race between the consent check and the read, and no concurrent commits forking a parent.
- UUID and zod validation: ids are strings, and a malformed id is treated like an unknown one. The only schema failure modelled is the empty commit message, as `Invalid("commitMessage")`.
- The HTTP call to the classifier: it enters `SubmitCase` as a `ClassifierReply` parameter. A thrown fetch and a malformed reply are not modelled. The 502 omits the service's error text.
- Delivery of socket messages: `AlertBus.published` records what is emitted, not who receives it.
- `JSON.stringify`: equality of `Json` values with ordered keys stands in for equal serialisations. The Observation's `valueString` is kept as the snapshot itself. `Object.keys` on a non-object root other than null (a string or an array) is not modelled; every non-object counts as having no keys.
- Triage.Assess: floating point is not modelled. Vitals are reals, but the score is an integer sum, so urgency is an integer; the logistic `probability` and the `confidence` are left out. `parse_bp` is abstracted to an optional systolic value.
- Triage.Assess: the tag list in the response details is a record of four booleans rather than a Python set with unspecified order.
- Text.Lower: only ASCII letters are case-folded, for both Python's `lower()` and PostgreSQL's `ILIKE`.
- Consents.SortByCode: ORDER BY follows code-point order, not a database collation. Ties in hospital code are ordered by the sort, not by the database.
- Patients.Search: the database returns matches in no specified order; the model keeps table order before the limit of 20.
- Ambulance.Urgency: only integral urgency scores are modelled. `Number(ai.urgency_score ?? 0)` is a JavaScript double, so a fractional score from some other classifier, such as 69.5, cannot be represented; the rule-based scorer of ai/app/main.py only ever produces integral ones (`float` of an integer sum). `Json.JNum` holds integers for the same reason.
- Middleware.Request: the query and body patient ids are optional strings. A numeric or object `req.body.patientId`, or a repeated query parameter that arrives as an array, is not modelled; the source only casts the value with `as string`.
- Patients.Search: the query `q` is an optional string. A repeated `?q=a&q=b` arrives as an array, which `String(...)` turns into "a,b"; that input is not modelled.
- Json: keys are kept in insertion order, and that order is taken for the order `Object.keys` reports. JavaScript lists integer-like keys first, in ascending order, so for `{"b":1,"2":0}` the source visits "2" first; the model does not.
- Tables.NewCaseStatus: the case insert names no status, and the database schema is not part of this model. It is an assumption that a new case reads back with status "new".
- Tables.Db.InsertAlert: the alert insert names no `acked`. It is an assumption that `acked` defaults to false, so the "unacknowledged" of CreateAlert and AlertIfUrgent rests on it.
- Tables.Db.InsertEncounter: the encounter insert names no `started_at`. It is an assumption that it defaults to the insert time; the newest-first order of TimelineExact (`ORDER BY e.started_at DESC`) and the FHIR `period.start` rest on it.
- Consents.Upsert: the insert path names no `updated_at`. It is an assumption that a new consent row's `updated_at` defaults to now, so the "stamped now" of UpsertDecidesConsent on that path rests on it.
- Tables.Db: `created_at` of every table is likewise assumed to default to the insert time.
- Json: objects may hold a key twice, which a parsed JavaScript object cannot; lookups take the first field with the key.
- Consents.Toggle: a caller without a patient id passes null as `patient_id`. The database schema is not part of this model, so it is an assumption that the insert then fails; the model answers 500 with the table unchanged and does not model the error text.
- The parent id of a commit, and the patient of a new encounter, are not checked against the tables, as in the source.
