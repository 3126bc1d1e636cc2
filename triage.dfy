/** The rule-based triage scorer of ai/app/main.py (`predict`): integer points
    for symptom flags, vital-sign bands and age, clamped to an urgency in
    [0, 100], then threshold classification, routing and a type chosen by tag
    priority. */
module Triage {
  import opened Wrappers
  import opened Text

  /** Vital signs; `sysBp` is the systolic value `parse_bp` would extract. */
  datatype Vitals = Vitals(hr: Option<real>, sysBp: Option<real>, spo2: Option<real>, rr: Option<real>)

  datatype PredictIn = PredictIn(symptoms: seq<string>, vitals: Vitals, age: Option<int>, traumaType: Option<string>)

  /** The set `tags`, over its only possible members "cardiac", "resp",
      "neuro" and "trauma": one flag per member. */
  datatype Tags = Tags(cardiac: bool, resp: bool, neuro: bool, trauma: bool)

  const NoTags := Tags(false, false, false, false)

  /** `PredictOut` without the probability and the confidence. */
  datatype Prediction = Prediction(
    emergencyType: string, recommendedSetup: seq<string>, urgencyScore: int,
    emergencyClass: string, tags: Tags, hospitalCode: string, rationale: string)

  const Rationale := "Nearest ER with capability for predicted class (demo)."

  /** `clamp(x, lo, hi) = max(lo, min(hi, x))` */
  function Clamp(x: int, lo: int, hi: int): (r: int)
    ensures lo <= hi ==> lo <= r <= hi
    ensures lo <= x <= hi ==> r == x
    ensures x < lo ==> r == lo
    ensures lo <= hi < x ==> r == hi
    ensures hi < lo ==> r == lo
  {
    var m := if hi <= x then hi else x;
    if lo >= m then lo else m
  }

  // ---------------------------------------------------------------------
  // The scoring rules, one function per rule

  /** `s.lower().strip()` */
  function Normalize(s: string): string {
    Strip(Lower(s))
  }

  /** `str.strip()` */
  function Strip(s: string): string {
    Trim(s, PySpace)
  }

  /** `[s.lower().strip() for s in inp.symptoms]` */
  function NormalizeAll(ss: seq<string>): (r: seq<string>)
    ensures |r| == |ss|
  {
    if ss == [] then [] else [Normalize(ss[0])] + NormalizeAll(ss[1..])
  }

  lemma {:induction false} NormalizeAllAt(ss: seq<string>, i: nat)
    requires i < |ss|
    ensures NormalizeAll(ss)[i] == Normalize(ss[i])
  {
    if i > 0 {
      NormalizeAllAt(ss[1..], i - 1);
    }
  }

  /** `a in symptoms or b in symptoms` over the normalised list. */
  predicate Mentions(symptoms: seq<string>, a: string, b: string) {
    a in symptoms || b in symptoms
  }

  /** Symptoms match only as whole strings, after lower-casing and trimming. */
  lemma MentionsExact(raw: seq<string>, a: string, b: string)
    ensures Mentions(NormalizeAll(raw), a, b) <==>
      exists i :: 0 <= i < |raw| && (Normalize(raw[i]) == a || Normalize(raw[i]) == b)
  {
    var n := NormalizeAll(raw);
    if a in n || b in n {
      var i :| 0 <= i < |n| && (n[i] == a || n[i] == b);
      NormalizeAllAt(raw, i);
    }
    forall i | 0 <= i < |raw| && (Normalize(raw[i]) == a || Normalize(raw[i]) == b)
      ensures a in n || b in n
    {
      NormalizeAllAt(raw, i);
      assert n[i] == Normalize(raw[i]);
    }
  }

  /** The flags, over the normalised symptoms `n`. */
  predicate Cardiac(n: seq<string>) { Mentions(n, "chest pain", "pressure chest") }
  predicate Respiratory(n: seq<string>) { Mentions(n, "shortness of breath", "breathless") }
  predicate Neuro(n: seq<string>) { Mentions(n, "unconscious", "seizure") }
  predicate Traumatic(traumaType: Option<string>) { traumaType.Some? && traumaType.value != "" }

  /** The tags the rule flags add. */
  function FlagTags(n: seq<string>, traumaType: Option<string>): (t: Tags)
    ensures t.cardiac <==> Cardiac(n)
    ensures t.resp <==> Respiratory(n)
    ensures t.neuro <==> Neuro(n)
    ensures t.trauma <==> Traumatic(traumaType)
  {
    Tags(Cardiac(n), Respiratory(n), Neuro(n), Traumatic(traumaType))
  }

  function FlagPoints(n: seq<string>, traumaType: Option<string>): (p: int)
    ensures 0 <= p <= 90
  {
    (if Cardiac(n) then 25 else 0) + (if Respiratory(n) then 20 else 0)
    + (if Neuro(n) then 30 else 0) + (if Traumatic(traumaType) then 15 else 0)
  }

  /** Heart-rate bands: the first matching band counts, so at most 25 points. */
  function HrPoints(hr: Option<real>): (p: int)
    ensures p in {0, 15, 20, 25}
    ensures p != 0 <==> hr.Some? && (hr.value >= 110.0 || hr.value <= 45.0)
  {
    if hr.None? then 0
    else if hr.value >= 130.0 then 25
    else if hr.value >= 110.0 then 15
    else if hr.value <= 45.0 then 20
    else 0
  }

  function Spo2Points(spo2: Option<real>): (p: int)
    ensures p in {0, 15, 30}
    ensures p != 0 <==> spo2.Some? && spo2.value < 94.0
  {
    if spo2.None? then 0
    else if spo2.value < 90.0 then 30
    else if spo2.value < 94.0 then 15
    else 0
  }

  function RrPoints(rr: Option<real>): (p: int)
    ensures p in {0, 10, 20}
    ensures p != 0 <==> rr.Some? && rr.value >= 24.0
  {
    if rr.None? then 0
    else if rr.value >= 30.0 then 20
    else if rr.value >= 24.0 then 10
    else 0
  }

  /** Hypotension and hypertension are separate checks that cannot both hold. */
  function BpPoints(sysBp: Option<real>): (p: int)
    ensures p in {0, 15, 30}
    ensures p != 0 <==> sysBp.Some? && (sysBp.value < 90.0 || sysBp.value > 180.0)
  {
    (if sysBp.Some? && sysBp.value < 90.0 then 30 else 0)
    + (if sysBp.Some? && sysBp.value > 180.0 then 15 else 0)
  }

  /** `inp.age or 40`: a missing age and an age of 0 both count as 40. */
  function EffectiveAge(age: Option<int>): (a: int)
    ensures age.None? || age.value == 0 ==> a == 40
    ensures age.Some? && age.value != 0 ==> a == age.value
  {
    if age.Some? && age.value != 0 then age.value else 40
  }

  function AgePoints(age: int): (p: int)
    ensures p in {0, 10}
    ensures p == 10 <==> age >= 65 || age <= 5
  {
    (if age >= 65 then 10 else 0) + (if age <= 5 then 10 else 0)
  }

  /** The raw score before clamping. */
  function Score(inp: PredictIn): (s: int)
    ensures 0 <= s <= 90 + 25 + 30 + 20 + 30 + 10
  {
    FlagPoints(NormalizeAll(inp.symptoms), inp.traumaType) + HrPoints(inp.vitals.hr) + Spo2Points(inp.vitals.spo2) + RrPoints(inp.vitals.rr)
    + BpPoints(inp.vitals.sysBp) + AgePoints(EffectiveAge(inp.age))
  }

  /** The emergency type and setup list for a tag set. */
  function Kind(tags: Tags): (k: (string, seq<string>))
    ensures tags.neuro ==> k == ("Neurological Emergency", ["CT-ready bay", "Airway kit", "Seizure protocol meds"])
    ensures !tags.neuro && tags.cardiac ==> k == ("Cardiac Emergency", ["ECG", "Defib ready", "Troponin kit", "Oxygen"])
    ensures !tags.neuro && !tags.cardiac && tags.resp ==> k == ("Respiratory Distress", ["Oxygen", "Nebulizer", "Ventilation support"])
    ensures !tags.neuro && !tags.cardiac && !tags.resp && tags.trauma ==>
              k == ("Trauma", ["Trauma bay", "Blood products standby", "FAST ultrasound"])
    ensures tags == NoTags ==> k == ("General Emergency", ["Triage bay", "IV access", "Basic labs"])
  {
    if tags.neuro then ("Neurological Emergency", ["CT-ready bay", "Airway kit", "Seizure protocol meds"])
    else if tags.cardiac then ("Cardiac Emergency", ["ECG", "Defib ready", "Troponin kit", "Oxygen"])
    else if tags.resp then ("Respiratory Distress", ["Oxygen", "Nebulizer", "Ventilation support"])
    else if tags.trauma then ("Trauma", ["Trauma bay", "Blood products standby", "FAST ultrasound"])
    else ("General Emergency", ["Triage bay", "IV access", "Basic labs"])
  }

  function ClassOf(urgency: int): (c: string)
    ensures c == "high" <==> urgency >= 70
    ensures c == "medium" <==> 40 <= urgency < 70
    ensures c == "low" <==> urgency < 40
  {
    if urgency >= 70 then "high" else if urgency >= 40 then "medium" else "low"
  }

  function RouteOf(urgency: int): (code: string)
    ensures code == "HOSP-001" <==> urgency >= 60
    ensures code == "HOSP-002" <==> urgency < 60
  {
    if urgency >= 60 then "HOSP-001" else "HOSP-002"
  }

  /** What `predict` answers, rule by rule. */
  function Assess(inp: PredictIn): (p: Prediction)
    ensures 0 <= p.urgencyScore <= 100
    ensures Score(inp) <= 100 ==> p.urgencyScore == Score(inp)
    ensures Score(inp) > 100 ==> p.urgencyScore == 100
    ensures p.tags == FlagTags(NormalizeAll(inp.symptoms), inp.traumaType)
    ensures p.emergencyClass == ClassOf(p.urgencyScore) && p.hospitalCode == RouteOf(p.urgencyScore)
    ensures (p.emergencyType, p.recommendedSetup) == Kind(p.tags)
  {
    var urgency := Clamp(Score(inp), 0, 100);
    var tags := FlagTags(NormalizeAll(inp.symptoms), inp.traumaType);
    var (etype, setup) := Kind(tags);
    Prediction(etype, setup, urgency, ClassOf(urgency), tags, RouteOf(urgency), Rationale)
  }

  /** The scoring half of `predict`: accumulate the points and the tags step by step. */
  method ScoreCase(inp: PredictIn) returns (score: int, tags: Tags)
    ensures score == Score(inp)
    ensures tags == FlagTags(NormalizeAll(inp.symptoms), inp.traumaType)
  {
    var symptoms := NormalizeAll(inp.symptoms);
    var hr := inp.vitals.hr;
    var spo2 := inp.vitals.spo2;
    var rr := inp.vitals.rr;
    var sysBp := inp.vitals.sysBp;
    var age := if inp.age.Some? && inp.age.value != 0 then inp.age.value else 40;

    score := 0;
    tags := NoTags;

    var cardiac := "chest pain" in symptoms || "pressure chest" in symptoms;
    var resp := "shortness of breath" in symptoms || "breathless" in symptoms;
    var neuro := "unconscious" in symptoms || "seizure" in symptoms;
    var trauma := inp.traumaType.Some? && inp.traumaType.value != "";
    assert cardiac == Cardiac(symptoms) && resp == Respiratory(symptoms) && neuro == Neuro(symptoms);

    if cardiac { score := score + 25; tags := tags.(cardiac := true); }
    if resp { score := score + 20; tags := tags.(resp := true); }
    if neuro { score := score + 30; tags := tags.(neuro := true); }
    if trauma { score := score + 15; tags := tags.(trauma := true); }
    ghost var flags := score;
    assert flags == FlagPoints(symptoms, inp.traumaType) && tags == FlagTags(symptoms, inp.traumaType);

    if hr.Some? {
      if hr.value >= 130.0 { score := score + 25; }
      else if hr.value >= 110.0 { score := score + 15; }
      else if hr.value <= 45.0 { score := score + 20; }
    }
    assert score == flags + HrPoints(hr);
    if spo2.Some? {
      if spo2.value < 90.0 { score := score + 30; }
      else if spo2.value < 94.0 { score := score + 15; }
    }
    assert score == flags + HrPoints(hr) + Spo2Points(spo2);
    if rr.Some? {
      if rr.value >= 30.0 { score := score + 20; }
      else if rr.value >= 24.0 { score := score + 10; }
    }
    assert score == flags + HrPoints(hr) + Spo2Points(spo2) + RrPoints(rr);
    if sysBp.Some? && sysBp.value < 90.0 { score := score + 30; }
    if sysBp.Some? && sysBp.value > 180.0 { score := score + 15; }
    assert score == flags + HrPoints(hr) + Spo2Points(spo2) + RrPoints(rr) + BpPoints(sysBp);

    if age >= 65 { score := score + 10; }
    if age <= 5 { score := score + 10; }
  }

  /** `predict`: score the case, clamp, then classify, pick the type and route. */
  method Predict(inp: PredictIn) returns (out: Prediction)
    ensures out == Assess(inp)
  {
    var score, tags := ScoreCase(inp);
    var urgency := Clamp(score, 0, 100);

    var etype, setup;
    if tags.neuro {
      etype, setup := "Neurological Emergency", ["CT-ready bay", "Airway kit", "Seizure protocol meds"];
    } else if tags.cardiac {
      etype, setup := "Cardiac Emergency", ["ECG", "Defib ready", "Troponin kit", "Oxygen"];
    } else if tags.resp {
      etype, setup := "Respiratory Distress", ["Oxygen", "Nebulizer", "Ventilation support"];
    } else if tags.trauma {
      etype, setup := "Trauma", ["Trauma bay", "Blood products standby", "FAST ultrasound"];
    } else {
      etype, setup := "General Emergency", ["Triage bay", "IV access", "Basic labs"];
    }

    var eclass := if urgency >= 70 then "high" else if urgency >= 40 then "medium" else "low";
    var code := if urgency >= 60 then "HOSP-001" else "HOSP-002";
    assert (etype, setup) == Kind(tags);
    out := Prediction(etype, setup, urgency, eclass, tags, code, Rationale);
  }

  /** A prediction high enough to raise an alert is always routed to HOSP-001. */
  lemma AlertingPredictionRoutesFirst(inp: PredictIn)
    requires Assess(inp).urgencyScore >= 70
    ensures Assess(inp).hospitalCode == "HOSP-001" && Assess(inp).emergencyClass == "high"
  {
  }
}
