/** The two alert rules: the per-measurement threshold rules and the exacerbation rule
    run when a symptom is logged. Both are pure; dispatching their findings is the
    monitor's job. */
module Rules {
  import opened Records
  import opened Config

  // ---- threshold rules ----

  function LowSpo2Message(spo2: int): string { "SpO2 basse: " + IntToDecimal(spo2) + "%" }
  function TachycardiaMessage(hr: int): string { "Tachycardie: " + IntToDecimal(hr) + " bpm" }
  function TachypneaMessage(rr: int): string { "Tachypnée: " + IntToDecimal(rr) + " rpm" }
  function FeverMessage(tenths: int): string { "Fièvre: " + TenthsToDecimal(tenths) + " °C" }

  /** Position of each threshold rule in the fixed evaluation order. */
  function Rank(t: AlertType): nat
  {
    match t
    case Spo2Low => 0
    case HeartRateHigh => 1
    case RespiratoryRateHigh => 2
    case TemperatureHigh => 3
    case Exacerbation => 4
  }

  /** One rule's contribution: its finding when the condition holds, nothing otherwise. */
  function Rule(fires: bool, f: Finding): seq<Finding>
  {
    if fires then [f] else []
  }

  /** The findings one measurement produces, in the order SpO2, heart rate, respiratory
      rate, temperature; a reading within every limit produces none. */
  function ThresholdFindings(r: Reading, th: Thresholds): (fs: seq<Finding>)
    ensures fs == [] <==>
              && r.spo2 >= th.spo2Low && r.heartRate <= th.heartRateHigh
              && r.respiratoryRate <= th.respiratoryRateHigh && r.temperatureTenths <= th.temperatureHighTenths
  {
    Rule(r.spo2 < th.spo2Low, Finding(Spo2Low, LowSpo2Message(r.spo2)))
    + Rule(r.heartRate > th.heartRateHigh, Finding(HeartRateHigh, TachycardiaMessage(r.heartRate)))
    + Rule(r.respiratoryRate > th.respiratoryRateHigh, Finding(RespiratoryRateHigh, TachypneaMessage(r.respiratoryRate)))
    + Rule(r.temperatureTenths > th.temperatureHighTenths, Finding(TemperatureHigh, FeverMessage(r.temperatureTenths)))
  }

  /** Every rule whose strict comparison holds fires, independently of the others, and
      nothing else is produced. */
  lemma ThresholdFindingsFire(r: Reading, th: Thresholds)
    ensures var fs := ThresholdFindings(r, th);
      && (Finding(Spo2Low, LowSpo2Message(r.spo2)) in fs <==> r.spo2 < th.spo2Low)
      && (Finding(HeartRateHigh, TachycardiaMessage(r.heartRate)) in fs <==> r.heartRate > th.heartRateHigh)
      && (Finding(RespiratoryRateHigh, TachypneaMessage(r.respiratoryRate)) in fs <==> r.respiratoryRate > th.respiratoryRateHigh)
      && (Finding(TemperatureHigh, FeverMessage(r.temperatureTenths)) in fs <==> r.temperatureTenths > th.temperatureHighTenths)
    ensures forall f :: f in ThresholdFindings(r, th) ==>
              || f == Finding(Spo2Low, LowSpo2Message(r.spo2))
              || f == Finding(HeartRateHigh, TachycardiaMessage(r.heartRate))
              || f == Finding(RespiratoryRateHigh, TachypneaMessage(r.respiratoryRate))
              || f == Finding(TemperatureHigh, FeverMessage(r.temperatureTenths))
  {
    var f1 := Finding(Spo2Low, LowSpo2Message(r.spo2));
    var f2 := Finding(HeartRateHigh, TachycardiaMessage(r.heartRate));
    var f3 := Finding(RespiratoryRateHigh, TachypneaMessage(r.respiratoryRate));
    var f4 := Finding(TemperatureHigh, FeverMessage(r.temperatureTenths));
    var a, b, c, d := Rule(r.spo2 < th.spo2Low, f1), Rule(r.heartRate > th.heartRateHigh, f2),
      Rule(r.respiratoryRate > th.respiratoryRateHigh, f3), Rule(r.temperatureTenths > th.temperatureHighTenths, f4);
    assert ThresholdFindings(r, th) == a + b + c + d;
    forall f ensures f in a + b + c + d <==> f in a || f in b || f in c || f in d {
      InFourParts(a, b, c, d, f);
    }
    forall f | f in a + b + c + d ensures f == f1 || f == f2 || f == f3 || f == f4 {
      assert f in a || f in b || f in c || f in d;
    }
  }

  lemma InFourParts(a: seq<Finding>, b: seq<Finding>, c: seq<Finding>, d: seq<Finding>, f: Finding)
    ensures f in a + b + c + d <==> f in a || f in b || f in c || f in d
  {
    assert f in a + b + c + d <==> f in a + b + c || f in d;
    assert f in a + b + c <==> f in a + b || f in c;
  }

  /** Ranks strictly increase along the findings. */
  predicate StrictlyRanked(fs: seq<Finding>)
  {
    forall i, j :: 0 <= i < j < |fs| ==> Rank(fs[i].kind) < Rank(fs[j].kind)
  }

  lemma RankedConcat(xs: seq<Finding>, ys: seq<Finding>, bound: nat)
    requires StrictlyRanked(xs) && StrictlyRanked(ys)
    requires forall f :: f in xs ==> Rank(f.kind) < bound
    requires forall f :: f in ys ==> Rank(f.kind) >= bound
    ensures StrictlyRanked(xs + ys)
  {
    forall i, j | 0 <= i < j < |xs + ys| ensures Rank((xs + ys)[i].kind) < Rank((xs + ys)[j].kind) {
      if j < |xs| {
        assert (xs + ys)[i] == xs[i] && (xs + ys)[j] == xs[j];
      } else if i >= |xs| {
        assert (xs + ys)[i] == ys[i - |xs|] && (xs + ys)[j] == ys[j - |xs|];
      } else {
        assert (xs + ys)[i] == xs[i] && (xs + ys)[j] == ys[j - |xs|];
      }
    }
  }

  /** Findings come out in the fixed rule order, so no rule fires twice. */
  lemma ThresholdFindingsOrdered(r: Reading, th: Thresholds)
    ensures |ThresholdFindings(r, th)| <= 4
    ensures StrictlyRanked(ThresholdFindings(r, th))
  {
    var a := Rule(r.spo2 < th.spo2Low, Finding(Spo2Low, LowSpo2Message(r.spo2)));
    var b := Rule(r.heartRate > th.heartRateHigh, Finding(HeartRateHigh, TachycardiaMessage(r.heartRate)));
    var c := Rule(r.respiratoryRate > th.respiratoryRateHigh, Finding(RespiratoryRateHigh, TachypneaMessage(r.respiratoryRate)));
    var d := Rule(r.temperatureTenths > th.temperatureHighTenths, Finding(TemperatureHigh, FeverMessage(r.temperatureTenths)));
    RuleRanked(r.spo2 < th.spo2Low, Finding(Spo2Low, LowSpo2Message(r.spo2)));
    RuleRanked(r.heartRate > th.heartRateHigh, Finding(HeartRateHigh, TachycardiaMessage(r.heartRate)));
    RuleRanked(r.respiratoryRate > th.respiratoryRateHigh, Finding(RespiratoryRateHigh, TachypneaMessage(r.respiratoryRate)));
    RuleRanked(r.temperatureTenths > th.temperatureHighTenths, Finding(TemperatureHigh, FeverMessage(r.temperatureTenths)));
    RankedConcat(a, b, 1);
    RankedConcat(a + b, c, 2);
    RankedConcat(a + b + c, d, 3);
    assert ThresholdFindings(r, th) == a + b + c + d;
  }

  /** One rule contributes at most its own finding. */
  lemma RuleRanked(fires: bool, f: Finding)
    ensures |Rule(fires, f)| <= 1 && StrictlyRanked(Rule(fires, f))
    ensures forall g :: g in Rule(fires, f) ==> g == f
  {
  }

  /** Dispatching the findings of a measurement is dispatching each rule's contribution in
      turn. */
  lemma DispatchedThresholdFindings(r: Reading, th: Thresholds, now: Time)
    ensures DispatchedAll(ThresholdFindings(r, th), now)
      == DispatchedAll(Rule(r.spo2 < th.spo2Low, Finding(Spo2Low, LowSpo2Message(r.spo2))), now)
       + DispatchedAll(Rule(r.heartRate > th.heartRateHigh, Finding(HeartRateHigh, TachycardiaMessage(r.heartRate))), now)
       + DispatchedAll(Rule(r.respiratoryRate > th.respiratoryRateHigh,
                            Finding(RespiratoryRateHigh, TachypneaMessage(r.respiratoryRate))), now)
       + DispatchedAll(Rule(r.temperatureTenths > th.temperatureHighTenths,
                            Finding(TemperatureHigh, FeverMessage(r.temperatureTenths))), now)
  {
    var f1 := Rule(r.spo2 < th.spo2Low, Finding(Spo2Low, LowSpo2Message(r.spo2)));
    var f2 := Rule(r.heartRate > th.heartRateHigh, Finding(HeartRateHigh, TachycardiaMessage(r.heartRate)));
    var f3 := Rule(r.respiratoryRate > th.respiratoryRateHigh, Finding(RespiratoryRateHigh, TachypneaMessage(r.respiratoryRate)));
    var f4 := Rule(r.temperatureTenths > th.temperatureHighTenths, Finding(TemperatureHigh, FeverMessage(r.temperatureTenths)));
    DispatchedAllAppend(f1, f2, now);
    DispatchedAllAppend(f1 + f2, f3, now);
    DispatchedAllAppend(f1 + f2 + f3, f4, now);
  }

  /** A reading exactly at every threshold fires nothing. */
  lemma AtThresholdFiresNothing(r: Reading, th: Thresholds)
    requires r.spo2 == th.spo2Low && r.heartRate == th.heartRateHigh
    requires r.respiratoryRate == th.respiratoryRateHigh && r.temperatureTenths == th.temperatureHighTenths
    ensures ThresholdFindings(r, th) == []
  {
  }

  /** With the default thresholds an SpO2 of 90 fires the low-SpO2 rule and 95 does not. */
  lemma DefaultSpo2Examples(r: Reading)
    ensures Finding(Spo2Low, LowSpo2Message(90)) in ThresholdFindings(r.(spo2 := 90), DefaultSettings.thresholds)
    ensures Finding(Spo2Low, LowSpo2Message(95)) !in ThresholdFindings(r.(spo2 := 95), DefaultSettings.thresholds)
  {
    ThresholdFindingsFire(r.(spo2 := 90), DefaultSettings.thresholds);
    ThresholdFindingsFire(r.(spo2 := 95), DefaultSettings.thresholds);
  }

  // ---- exacerbation rule ----

  /** The respiratory symptom labels the rule recognises, in lower case. */
  const RespiratorySymptoms: set<string> := {"essoufflement", "toux", "fatigue"}

  /** The rule compares the latest SpO2 with this literal, not with the configured threshold. */
  const ExacerbationSpo2Cutoff := 92

  const ExacerbationMinSeverity := 7

  const ExacerbationFinding := Finding(Exacerbation, "Signes d'exacerbation possible")

  /** Lower case of one character: ASCII and Latin-1 capitals (except the multiplication sign). */
  function LowerChar(c: char): char
  {
    if 'A' <= c <= 'Z' || ('À' <= c <= 'Þ' && c != '×') then (c as int + 32) as char else c
  }

  function Lower(s: string): (r: string)
    ensures |r| == |s|
    ensures forall i :: 0 <= i < |s| ==> r[i] == LowerChar(s[i])
  {
    if s == [] then [] else [LowerChar(s[0])] + Lower(s[1..])
  }

  /** The exacerbation rule: a known respiratory symptom (in any letter case) of severity at
      least 7 while the most recent SpO2 is below 92. With no SpO2 recorded it never fires. */
  predicate ExacerbationFires(spo2History: seq<int>, e: SymptomEntry)
  {
    && |spo2History| > 0
    && Lower(e.symptom) in RespiratorySymptoms
    && e.severity >= ExacerbationMinSeverity
    && spo2History[|spo2History| - 1] < ExacerbationSpo2Cutoff
  }

  lemma {:induction false} LowerIdempotent(s: string)
    ensures Lower(Lower(s)) == Lower(s)
  {
    var l := Lower(s);
    assert forall i :: 0 <= i < |s| ==> LowerChar(LowerChar(s[i])) == LowerChar(s[i]);
    assert Lower(l) == l;
  }

  /** Only the letter case-insensitive label matters: relabelling a symptom with a string of
      the same lower case never changes the decision. */
  lemma ExacerbationCaseInsensitive(h: seq<int>, e: SymptomEntry, other: string)
    requires Lower(other) == Lower(e.symptom)
    ensures ExacerbationFires(h, e.(symptom := other)) == ExacerbationFires(h, e)
  {
  }

  /** Only the latest SpO2 matters, and raising the severity never stops the rule firing. */
  lemma ExacerbationMonotone(h: seq<int>, x: int, e: SymptomEntry, severity: int)
    requires severity >= e.severity
    ensures ExacerbationFires(h + [x], e) == ExacerbationFires([x], e)
    ensures ExacerbationFires(h, e) ==> ExacerbationFires(h, e.(severity := severity))
  {
  }

  /** The rule ignores the configured SpO2 threshold: with a threshold of 95 a latest SpO2 of 93
      is below the threshold yet the rule does not fire. */
  lemma ExacerbationCutoffIsLiteral(e: SymptomEntry)
    requires e.symptom == "toux" && e.severity == 8
    ensures ThresholdFindings(Reading(93, 70, 15, 370, 120, 80, Repos), Thresholds(95, 110, 25, 380)) != []
    ensures !ExacerbationFires([93], e)
  {
    var fs := ThresholdFindings(Reading(93, 70, 15, 370, 120, 80, Repos), Thresholds(95, 110, 25, 380));
    assert Finding(Spo2Low, LowSpo2Message(93)) in fs;
  }

  /** The worked cases of the rule: "toux" at severity 8 with SpO2 89 fires, at severity 5 it
      does not, and with no SpO2 recorded it does not either. */
  lemma ExacerbationExamples(t: Time)
    ensures ExacerbationFires([89], SymptomEntry(t, "toux", 8, ""))
    ensures !ExacerbationFires([89], SymptomEntry(t, "toux", 5, ""))
    ensures !ExacerbationFires([], SymptomEntry(t, "toux", 10, ""))
  {
    assert Lower("toux") == "toux";
  }

  /** Upper-case labels are recognised. */
  lemma ExacerbationUpperCaseExample(t: Time)
    ensures ExacerbationFires([89], SymptomEntry(t, "TOUX", 8, ""))
  {
    assert Lower("TOUX") == "toux";
  }

  /** A label whose lower case is not a respiratory symptom never fires, whatever the severity
      and the SpO2 history. */
  lemma OtherLabelsNeverFire(h: seq<int>, e: SymptomEntry)
    requires Lower(e.symptom) !in RespiratorySymptoms
    ensures !ExacerbationFires(h, e)
  {
  }

  /** "céphalée" is not a respiratory label, so even at severity 10 with SpO2 85 it does not
      fire. */
  lemma ExacerbationOtherLabelExample(t: Time)
    ensures !ExacerbationFires([85], SymptomEntry(t, "céphalée", 10, ""))
  {
    assert |Lower("céphalée")| == 8;
    OtherLabelsNeverFire([85], SymptomEntry(t, "céphalée", 10, ""));
  }
}
