/** The consent store of backend/src/modules/consents.ts: a patient lists their
    consents and toggles the one for a hospital. The toggle is an upsert keyed
    by (patient, hospital, scope 'ehr'). */
module Consents {
  import opened Wrappers
  import opened Jwt
  import opened Text
  import opened Tables
  import opened Middleware

  const EhrScope := "ehr"

  // ---------------------------------------------------------------------
  // Listing

  /** A row of `SELECT c.id, h.hospital_code, h.name, c.granted, c.scope, c.updated_at`. */
  datatype ConsentView = ConsentView(
    id: Id, hospitalCode: string, hospitalName: string, granted: bool, scope: string, updatedAt: nat)

  function View(c: Consent, h: Hospital): ConsentView {
    ConsentView(c.id, h.code, h.name, c.granted, c.scope, c.updatedAt)
  }

  /** The patient's consent rows joined with their hospital, in table order. */
  function OwnConsents(cs: seq<Consent>, hs: seq<Hospital>, patientId: Id): (r: seq<ConsentView>)
    ensures |r| <= |cs|
    ensures forall x :: x in r ==>
      exists c :: (c in cs && c.patientId == patientId && FindHospital(hs, c.hospitalId).Some?
                   && x == View(c, hs[FindHospital(hs, c.hospitalId).value]))
    ensures forall c :: c in cs && c.patientId == patientId && FindHospital(hs, c.hospitalId).Some? ==>
      View(c, hs[FindHospital(hs, c.hospitalId).value]) in r
  {
    if cs == [] then []
    else
      var rest := OwnConsents(cs[1..], hs, patientId);
      var h := FindHospital(hs, cs[0].hospitalId);
      if cs[0].patientId == patientId && h.Some? then [View(cs[0], hs[h.value])] + rest else rest
  }

  /** Over a table with distinct ids, no consent row is listed twice. */
  lemma {:induction false} OwnConsentsUnique(cs: seq<Consent>, hs: seq<Hospital>, patientId: Id)
    ensures DistinctIds(cs, ConsentKey) ==> UniqueViews(OwnConsents(cs, hs, patientId))
  {
    if cs != [] && DistinctIds(cs, ConsentKey) {
      var rest := OwnConsents(cs[1..], hs, patientId);
      assert DistinctIds(cs[1..], ConsentKey) by {
        forall i, j | 0 <= i < j < |cs[1..]| ensures ConsentKey(cs[1..][i]) != ConsentKey(cs[1..][j]) {
          assert cs[1..][i] == cs[i + 1] && cs[1..][j] == cs[j + 1];
        }
      }
      OwnConsentsUnique(cs[1..], hs, patientId);
      forall x | x in rest ensures x.id != cs[0].id {
        var c :| c in cs[1..] && c.patientId == patientId && FindHospital(hs, c.hospitalId).Some?
                 && x == View(c, hs[FindHospital(hs, c.hospitalId).value]);
        var k :| 0 <= k < |cs[1..]| && cs[1..][k] == c;
        assert ConsentKey(cs[0]) != ConsentKey(cs[k + 1]);
      }
      var h := FindHospital(hs, cs[0].hospitalId);
      if cs[0].patientId == patientId && h.Some? {
        ConsUnique(View(cs[0], hs[h.value]), rest);
      }
    }
  }

  lemma ConsUnique(v: ConsentView, rest: seq<ConsentView>)
    requires UniqueViews(rest) && forall x :: x in rest ==> x.id != v.id
    ensures UniqueViews([v] + rest)
  {
    var r := [v] + rest;
    forall i, j | 0 <= i < j < |r| ensures r[i].id != r[j].id {
      assert r[j] == rest[j - 1];
      if i > 0 {
        assert r[i] == rest[i - 1];
      }
    }
  }

  /** No two listed rows share a consent id. */
  predicate UniqueViews(xs: seq<ConsentView>) {
    forall i, j :: 0 <= i < j < |xs| ==> xs[i].id != xs[j].id
  }

  /** Removing position `k` removes one copy of `a[k]` and keeps the ids unique. */
  lemma RemoveAt(a: seq<ConsentView>, k: nat)
    requires k < |a|
    ensures multiset(a[..k] + a[k + 1..]) == multiset(a) - multiset{a[k]}
    ensures UniqueViews(a) ==> UniqueViews(a[..k] + a[k + 1..])
  {
    assert a == a[..k] + [a[k]] + a[k + 1..];
    var r := a[..k] + a[k + 1..];
    if UniqueViews(a) {
      forall i, j | 0 <= i < j < |r| ensures r[i].id != r[j].id {
        RemoveAtIndex(a, k, i);
        RemoveAtIndex(a, k, j);
      }
    }
  }

  /** Position `i` after removing position `k`. */
  lemma RemoveAtIndex(a: seq<ConsentView>, k: nat, i: nat)
    requires k < |a| && i < |a| - 1
    ensures (a[..k] + a[k + 1..])[i] == a[if i < k then i else i + 1]
  {
    if i < k {
      assert (a[..k] + a[k + 1..])[i] == a[..k][i];
    } else {
      assert (a[..k] + a[k + 1..])[i] == a[k + 1..][i - k];
    }
  }

  /** What remains after removing position `k` has ids other than `a[k]`'s. */
  lemma RemovedIdFresh(a: seq<ConsentView>, k: nat, x: ConsentView)
    requires UniqueViews(a) && k < |a| && x in a[..k] + a[k + 1..]
    ensures x.id != a[k].id
  {
    var r := a[..k] + a[k + 1..];
    var m :| 0 <= m < |r| && r[m] == x;
    RemoveAtIndex(a, k, m);
  }

  lemma SnocUnique(rest: seq<ConsentView>, v: ConsentView)
    requires UniqueViews(rest) && forall x :: x in rest ==> x.id != v.id
    ensures UniqueViews(rest + [v])
  {
    var r := rest + [v];
    forall i, j | 0 <= i < j < |r| ensures r[i].id != r[j].id {
      assert r[i] == rest[i];
      if j < |rest| {
        assert r[j] == rest[j];
      }
    }
  }

  /** Reordering a list keeps its ids unique. */
  lemma {:induction false} PermutationKeepsUnique(a: seq<ConsentView>, b: seq<ConsentView>)
    requires multiset(a) == multiset(b)
    ensures UniqueViews(a) ==> UniqueViews(b)
  {
    if b != [] && UniqueViews(a) {
      var y := b[|b| - 1];
      var b' := b[..|b| - 1];
      assert b == b' + [y];
      assert y in multiset(a);
      var k :| 0 <= k < |a| && a[k] == y;
      var a' := a[..k] + a[k + 1..];
      RemoveAt(a, k);
      assert multiset(b) == multiset(b') + multiset{y};
      PermutationKeepsUnique(a', b');
      forall x | x in b' ensures x.id != y.id {
        assert x in multiset(a');
        RemovedIdFresh(a, k, x);
      }
      SnocUnique(b', y);
    }
  }

  /** Ascending by hospital code. */
  predicate SortedByCode(xs: seq<ConsentView>) {
    forall i, j :: 0 <= i < j < |xs| ==> LessEq(xs[i].hospitalCode, xs[j].hospitalCode)
  }

  function InsertByCode(x: ConsentView, xs: seq<ConsentView>): (r: seq<ConsentView>)
    ensures multiset(r) == multiset(xs) + multiset{x}
  {
    if xs == [] then [x]
    else if LessEq(x.hospitalCode, xs[0].hospitalCode) then [x] + xs
    else
      assert xs == [xs[0]] + xs[1..];
      [xs[0]] + InsertByCode(x, xs[1..])
  }

  /** A head no later than every element of a sorted tail gives a sorted list. */
  lemma ConsSorted(h: ConsentView, t: seq<ConsentView>)
    requires SortedByCode(t)
    requires forall j :: 0 <= j < |t| ==> LessEq(h.hospitalCode, t[j].hospitalCode)
    ensures SortedByCode([h] + t)
  {
    var r := [h] + t;
    forall i, j | 0 <= i < j < |r| ensures LessEq(r[i].hospitalCode, r[j].hospitalCode) {
      assert r[j] == t[j - 1];
      if i > 0 {
        assert r[i] == t[i - 1];
      }
    }
  }

  /** A lower bound of `x` and of every element of `xs` bounds the insertion's result. */
  lemma LowerBoundKept(b: string, x: ConsentView, xs: seq<ConsentView>)
    requires LessEq(b, x.hospitalCode)
    requires forall j :: 0 <= j < |xs| ==> LessEq(b, xs[j].hospitalCode)
    ensures forall j :: 0 <= j < |InsertByCode(x, xs)| ==> LessEq(b, InsertByCode(x, xs)[j].hospitalCode)
  {
    var r := InsertByCode(x, xs);
    forall j | 0 <= j < |r| ensures LessEq(b, r[j].hospitalCode) {
      assert r[j] in multiset(xs) + multiset{x};
    }
  }

  /** Inserting into a sorted list keeps it sorted. */
  lemma {:induction false} InsertByCodeSorted(x: ConsentView, xs: seq<ConsentView>)
    requires SortedByCode(xs)
    ensures SortedByCode(InsertByCode(x, xs))
  {
    if xs == [] {
    } else if LessEq(x.hospitalCode, xs[0].hospitalCode) {
      forall j | 0 <= j < |xs| ensures LessEq(x.hospitalCode, xs[j].hospitalCode) {
        if j > 0 {
          LessEqTransitive(x.hospitalCode, xs[0].hospitalCode, xs[j].hospitalCode);
        }
      }
      ConsSorted(x, xs);
    } else {
      LessEqTotal(x.hospitalCode, xs[0].hospitalCode);
      var tail := InsertByCode(x, xs[1..]);
      InsertByCodeSorted(x, xs[1..]);
      assert xs == [xs[0]] + xs[1..];
      LowerBoundKept(xs[0].hospitalCode, x, xs[1..]);
      ConsSorted(xs[0], tail);
    }
  }

  /** `ORDER BY h.hospital_code` (insertion sort, so equal codes keep table order). */
  function SortByCode(xs: seq<ConsentView>): (r: seq<ConsentView>)
    ensures SortedByCode(r)
    ensures multiset(r) == multiset(xs)
  {
    if xs == [] then []
    else
      assert xs == [xs[0]] + xs[1..];
      InsertByCodeSorted(xs[0], SortByCode(xs[1..]));
      InsertByCode(xs[0], SortByCode(xs[1..]))
  }

  /** GET /consents/me (patient only). A null patient id matches no row. */
  function ListConsents(u: Claims, cs: seq<Consent>, hs: seq<Hospital>): (r: Response<seq<ConsentView>>)
    ensures r.Ok? <==> u.role.Patient?
    ensures !u.role.Patient? ==> r == Fail(403, "Forbidden")
    ensures r.Ok? && u.patientId.None? ==> r.body == []
    ensures r.Ok? && u.patientId.Some? ==>
      SortedByCode(r.body) && multiset(r.body) == multiset(OwnConsents(cs, hs, u.patientId.value))
    ensures r.Ok? && DistinctIds(cs, ConsentKey) ==> UniqueViews(r.body)
  {
    var allowed := RequireRole(Some(u), [Role.Patient]);
    if allowed.Fail? then Fail(allowed.status, allowed.error)
    else if u.patientId.None? then Ok([])
    else
      var own := OwnConsents(cs, hs, u.patientId.value);
      OwnConsentsUnique(cs, hs, u.patientId.value);
      PermutationKeepsUnique(own, SortByCode(own));
      Ok(SortByCode(own))
  }

  /** Every listed consent is one of the caller's own rows joined with its
      hospital: its id, granted flag, scope and time are that row's. */
  lemma ListedConsentsAreOwn(u: Claims, cs: seq<Consent>, hs: seq<Hospital>, x: ConsentView)
    requires ListConsents(u, cs, hs).Ok? && x in ListConsents(u, cs, hs).body
    ensures u.patientId.Some?
    ensures exists c :: (c in cs && c.patientId == u.patientId.value && FindHospital(hs, c.hospitalId).Some?
                         && x == View(c, hs[FindHospital(hs, c.hospitalId).value]))
  {
    var own := OwnConsents(cs, hs, u.patientId.value);
    assert ListConsents(u, cs, hs).body == SortByCode(own);
    assert x in multiset(SortByCode(own));
    assert x in own;
    var c :| c in cs && c.patientId == u.patientId.value
      && FindHospital(hs, c.hospitalId).Some? && x == View(c, hs[FindHospital(hs, c.hospitalId).value]);
  }

  // ---------------------------------------------------------------------
  // Toggle

  /** `INSERT ... VALUES (p, h, granted, 'ehr') ON CONFLICT (patient_id, hospital_id, scope)
      DO UPDATE SET granted=EXCLUDED.granted, updated_at=now()`; a new row gets `id`.
      The insert path names no `updated_at`; the model assumes it defaults to now. */
  function Upsert(cs: seq<Consent>, p: Id, h: Id, granted: bool, now: nat, id: Id): seq<Consent> {
    match FindConsent(cs, p, h)
    case Some(i) => cs[i := cs[i].(granted := granted, updatedAt := now)]
    case None => cs + [Consent(id, p, h, EhrScope, granted, now)]
  }

  /** The upsert keeps the key unique. */
  lemma UpsertKeepsUnique(cs: seq<Consent>, p: Id, h: Id, granted: bool, now: nat, id: Id)
    requires UniqueConsentKeys(cs)
    ensures UniqueConsentKeys(Upsert(cs, p, h, granted, now, id))
  {
    var r := Upsert(cs, p, h, granted, now, id);
    forall i, j | 0 <= i < j < |r|
      ensures !(r[i].patientId == r[j].patientId && r[i].hospitalId == r[j].hospitalId && r[i].scope == r[j].scope)
    {
      if j == |cs| {
        assert FindConsent(cs, p, h).None?;
      }
    }
  }

  /** After the upsert the gate's lookup of (p, h) finds exactly the value written. */
  lemma UpsertDecidesConsent(cs: seq<Consent>, p: Id, h: Id, granted: bool, now: nat, id: Id)
    ensures var r := Upsert(cs, p, h, granted, now, id);
      FindConsent(r, p, h).Some? && r[FindConsent(r, p, h).value].granted == granted
      && r[FindConsent(r, p, h).value].updatedAt == now
      && ConsentGranted(r, p, h) == granted
  {
    var r := Upsert(cs, p, h, granted, now, id);
    match FindConsent(cs, p, h)
    case Some(i) =>
      FindConsentPrefix(cs, r, p, h, i);
    case None =>
      FindConsentPrefix(cs, r, p, h, |cs|);
  }

  /** The first (p, h) row is found through any change that keeps the rows before it. */
  lemma {:induction false} FindConsentPrefix(cs: seq<Consent>, r: seq<Consent>, p: Id, h: Id, i: nat)
    requires i < |r| && i <= |cs| && r[..i] == cs[..i]
    requires forall k :: 0 <= k < i ==> !(cs[k].patientId == p && cs[k].hospitalId == h && cs[k].scope == "ehr")
    requires r[i].patientId == p && r[i].hospitalId == h && r[i].scope == "ehr"
    ensures FindConsent(r, p, h) == Some(i)
  {
    if i > 0 {
      assert r[0] == r[..i][0] == cs[..i][0] == cs[0];
      assert r[1..][..i - 1] == r[..i][1..] == cs[..i][1..] == cs[1..][..i - 1];
      FindConsentPrefix(cs[1..], r[1..], p, h, i - 1);
    }
  }

  /** Only the row keyed (p, h, 'ehr') changes; a row is appended only when there was none. */
  lemma UpsertTouchesOneRow(cs: seq<Consent>, p: Id, h: Id, granted: bool, now: nat, id: Id)
    ensures var r := Upsert(cs, p, h, granted, now, id);
      && |cs| <= |r| <= |cs| + 1
      && (|r| == |cs| + 1 <==> forall k :: 0 <= k < |cs| ==> !(cs[k].patientId == p && cs[k].hospitalId == h && cs[k].scope == "ehr"))
      && (forall k :: 0 <= k < |cs| && !(cs[k].patientId == p && cs[k].hospitalId == h && cs[k].scope == "ehr") ==> r[k] == cs[k])
      && (forall k :: 0 <= k < |cs| && cs[k].patientId == p && cs[k].hospitalId == h && cs[k].scope == "ehr" ==>
            r[k] == cs[k].(granted := granted, updatedAt := now) || r[k] == cs[k])
      && (forall k :: |cs| <= k < |r| ==> r[k] == Consent(id, p, h, "ehr", granted, now))
  {
  }

  /** Toggling twice to the same value changes nothing but `updated_at`. */
  lemma UpsertIdempotent(cs: seq<Consent>, p: Id, h: Id, granted: bool, t1: nat, t2: nat, id1: Id, id2: Id)
    ensures var r1 := Upsert(cs, p, h, granted, t1, id1);
      var r2 := Upsert(r1, p, h, granted, t2, id2);
      |r2| == |r1| && forall k :: 0 <= k < |r1| ==> r2[k] == r1[k].(updatedAt := r2[k].updatedAt)
  {
    UpsertDecidesConsent(cs, p, h, granted, t1, id1);
  }

  /** A fresh id for the inserted row keeps the primary key unique. */
  lemma UpsertKeepsIds(cs: seq<Consent>, p: Id, h: Id, granted: bool, now: nat, id: Id)
    requires DistinctIds(cs, ConsentKey)
    requires forall k :: 0 <= k < |cs| ==> ConsentKey(cs[k]) != id
    ensures DistinctIds(Upsert(cs, p, h, granted, now, id), ConsentKey)
  {
    var r := Upsert(cs, p, h, granted, now, id);
    forall i, j | 0 <= i < j < |r| ensures ConsentKey(r[i]) != ConsentKey(r[j]) {
      if j == |cs| {
        assert ConsentKey(cs[i]) != id;
      }
    }
  }

  datatype ToggleReply = ToggleReply(id: Id, granted: bool, updatedAt: nat)

  /** POST /consents/me/toggle (patient only). An unknown hospital code answers
      404 and leaves the table alone. A caller without a patient id passes null
      as `patient_id`; the model assumes the insert then fails and the request
      ends in a 500 with the table unchanged. */
  method Toggle(db: Db, u: Claims, hospitalCode: string, granted: bool)
    returns (resp: Response<ToggleReply>)
    requires db.Valid()
    modifies db`consents, db`clock
    ensures db.Valid()
    ensures var h := HospitalByCode(db.hospitals, hospitalCode);
      if !u.role.Patient? then resp == Fail(403, "Forbidden") && db.consents == old(db.consents)
      else if h.None? || db.hospitals[h.value].id == "" then
        resp == Fail(404, "Hospital not found") && db.consents == old(db.consents)
      else if u.patientId.None? then resp.Fail? && resp.status == 500 && db.consents == old(db.consents)
      else
        var hid := db.hospitals[h.value].id;
        var f := FindConsent(db.consents, u.patientId.value, hid);
        && db.consents == Upsert(old(db.consents), u.patientId.value, hid, granted, old(db.clock), FreshId(old(db.consents), ConsentKey))
        && f.Some? && resp == Ok(ToggleReply(db.consents[f.value].id, granted, old(db.clock)))
  {
    var allowed := RequireRole(Some(u), [Role.Patient]);
    if allowed.Fail? {
      return Fail(allowed.status, allowed.error);
    }
    var h := HospitalByCode(db.hospitals, hospitalCode);
    if h.None? || db.hospitals[h.value].id == "" {
      return Fail(404, "Hospital not found");
    }
    if u.patientId.None? {
      return Fail(500, "Internal Server Error");
    }
    var p := u.patientId.value;
    var hid := db.hospitals[h.value].id;
    var newId := FreshId(db.consents, ConsentKey);
    UpsertKeepsUnique(db.consents, p, hid, granted, db.clock, newId);
    UpsertKeepsIds(db.consents, p, hid, granted, db.clock, newId);
    UpsertDecidesConsent(db.consents, p, hid, granted, db.clock, newId);
    var now := db.clock;
    var cs := Upsert(db.consents, p, hid, granted, now, newId);
    var i := FindConsent(cs, p, hid).value;
    db.ReplaceConsents(cs);
    resp := Ok(ToggleReply(cs[i].id, granted, now));
  }
}
