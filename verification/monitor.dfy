/** The patient monitor's in-memory state: eight parallel measurement channels, the symptom
    journal, and the alert list, together with the record store and e-mail sink it writes
    to, kept as ghost logs. */
module Monitor {
  import opened Records
  import opened Config
  import opened Rules

  /** A row inserted into the record store. */
  datatype StoredRow = MeasurementRow(m: Measurement) | SymptomRow(e: SymptomEntry) | AlertRow(a: Alert)

  /** The alert rows of a store log, in insertion order. */
  ghost function StoredAlerts(rows: seq<StoredRow>): seq<Alert>
  {
    if rows == [] then []
    else StoredAlerts(rows[..|rows| - 1]) + (if rows[|rows| - 1].AlertRow? then [rows[|rows| - 1].a] else [])
  }

  /** The symptom rows of a store log, in insertion order. */
  ghost function StoredSymptoms(rows: seq<StoredRow>): seq<SymptomEntry>
  {
    if rows == [] then []
    else StoredSymptoms(rows[..|rows| - 1]) + (if rows[|rows| - 1].SymptomRow? then [rows[|rows| - 1].e] else [])
  }

  /** The measurement rows of a store log, in insertion order. */
  ghost function StoredMeasurements(rows: seq<StoredRow>): seq<Measurement>
  {
    if rows == [] then []
    else StoredMeasurements(rows[..|rows| - 1]) + (if rows[|rows| - 1].MeasurementRow? then [rows[|rows| - 1].m] else [])
  }

  /** The text kept beside the symptom journal: "<symptom> (severity: <n>)". */
  function SymptomText(e: SymptomEntry): string
  {
    e.symptom + " (severity: " + IntToDecimal(e.severity) + ")"
  }

  class AdvancedPatientMonitor {
    const patientId: string
    const patientName: string
    const config: Settings

    // measurement channels, one element per recorded measurement
    var timestamps: seq<Time>
    var spo2: seq<int>
    var heartRate: seq<int>
    var respiratoryRate: seq<int>
    var temperatureTenths: seq<int>
    var systolicBp: seq<int>
    var diastolicBp: seq<int>
    var activityLevel: seq<Activity>

    var symptoms: seq<string>
    var symptomLog: seq<SymptomEntry>
    var alerts: seq<Alert>

    /** Rows this monitor inserted into the record store. */
    ghost var storeLog: seq<StoredRow>
    /** Alerts handed to the e-mail sink (delivery itself is outside the model). */
    ghost var emailed: seq<Alert>

    /** All channels have the same length; the symptom texts follow the journal; every
        in-memory entry was also written to the store, in the same order; every alert has the
        severity of its type; and the e-mail sink saw every alert exactly when e-mail is on. */
    ghost predicate Valid()
      reads this
    {
      && Aligned()
      && |symptoms| == |symptomLog|
      && (forall i :: 0 <= i < |symptoms| ==> symptoms[i] == SymptomText(symptomLog[i]))
      && StoredMeasurements(storeLog) == History()
      && StoredSymptoms(storeLog) == symptomLog
      && StoredAlerts(storeLog) == alerts
      && (forall i :: 0 <= i < |alerts| ==> alerts[i].severity == Classify(alerts[i].alertType))
      && emailed == (if config.emailEnabled then alerts else [])
    }

    /** The eight measurement channels have the same length. */
    ghost predicate Aligned()
      reads this
    {
      |timestamps| == |spo2| == |heartRate| == |respiratoryRate| == |temperatureTenths|
        == |systolicBp| == |diastolicBp| == |activityLevel|
    }

    /** The recorded measurements, read back from the parallel channels. */
    ghost function History(): (h: seq<Measurement>)
      reads this
      requires Aligned()
      ensures |h| == |spo2|
      ensures forall i :: 0 <= i < |h| ==> h[i] == Measurement(timestamps[i], Reading(spo2[i], heartRate[i],
                respiratoryRate[i], temperatureTenths[i], systolicBp[i], diastolicBp[i], activityLevel[i]))
    {
      seq(|spo2|, i requires 0 <= i < |spo2| && Aligned() reads this =>
        Measurement(timestamps[i], Reading(spo2[i], heartRate[i], respiratoryRate[i],
          temperatureTenths[i], systolicBp[i], diastolicBp[i], activityLevel[i])))
    }

    twostate predicate MeasurementsUnchanged()
      reads this
    {
      && timestamps == old(timestamps) && spo2 == old(spo2) && heartRate == old(heartRate)
      && respiratoryRate == old(respiratoryRate) && temperatureTenths == old(temperatureTenths)
      && systolicBp == old(systolicBp) && diastolicBp == old(diastolicBp)
      && activityLevel == old(activityLevel)
    }

    constructor (patientId: string, patientName: string, config: Settings)
      ensures Valid()
      ensures this.patientId == patientId && this.patientName == patientName && this.config == config
      ensures History() == [] && symptomLog == [] && symptoms == [] && alerts == []
      ensures storeLog == [] && emailed == []
    {
      this.patientId, this.patientName, this.config := patientId, patientName, config;
      timestamps, spo2, heartRate, respiratoryRate := [], [], [], [];
      temperatureTenths, systolicBp, diastolicBp, activityLevel := [], [], [], [];
      symptoms, symptomLog, alerts := [], [], [];
      storeLog, emailed := [], [];
    }

    /** Records one sensor reading taken at `now`: exactly one element is appended to each
        channel, and the measurement is written to the store. */
    method SimulateMeasurement(reading: Reading, now: Time) returns (m: Measurement)
      requires Valid()
      modifies this`timestamps, this`spo2, this`heartRate, this`respiratoryRate, this`temperatureTenths,
               this`systolicBp, this`diastolicBp, this`activityLevel, this`storeLog
      ensures Valid()
      ensures m == Measurement(now, reading)
      ensures History() == old(History()) + [m]
      ensures timestamps == old(timestamps) + [now]
      ensures spo2 == old(spo2) + [reading.spo2]
      ensures heartRate == old(heartRate) + [reading.heartRate]
      ensures respiratoryRate == old(respiratoryRate) + [reading.respiratoryRate]
      ensures temperatureTenths == old(temperatureTenths) + [reading.temperatureTenths]
      ensures systolicBp == old(systolicBp) + [reading.systolicBp]
      ensures diastolicBp == old(diastolicBp) + [reading.diastolicBp]
      ensures activityLevel == old(activityLevel) + [reading.activityLevel]
      ensures storeLog == old(storeLog) + [MeasurementRow(m)]
      ensures symptoms == old(symptoms) && symptomLog == old(symptomLog) && alerts == old(alerts)
    {
      m := Measurement(now, reading);
      ghost var h := History();
      timestamps := timestamps + [now];
      spo2 := spo2 + [reading.spo2];
      heartRate := heartRate + [reading.heartRate];
      respiratoryRate := respiratoryRate + [reading.respiratoryRate];
      temperatureTenths := temperatureTenths + [reading.temperatureTenths];
      systolicBp := systolicBp + [reading.systolicBp];
      diastolicBp := diastolicBp + [reading.diastolicBp];
      activityLevel := activityLevel + [reading.activityLevel];
      storeLog := storeLog + [MeasurementRow(m)];
      assert storeLog[..|storeLog| - 1] == old(storeLog);
      assert Aligned();
      assert forall i :: 0 <= i < |h| ==> History()[i] == h[i];
      assert History() == h + [m];
    }

    /** Appends one alert to the in-memory list and writes it to the store. */
    method SaveAlert(alertType: AlertType, message: string, severity: Severity, now: Time)
      modifies this`alerts, this`storeLog
      ensures alerts == old(alerts) + [Alert(now, alertType, message, severity)]
      ensures storeLog == old(storeLog) + [AlertRow(Alert(now, alertType, message, severity))]
    {
      var a := Alert(now, alertType, message, severity);
      storeLog := storeLog + [AlertRow(a)];
      alerts := alerts + [a];
    }

    /** Classifies the alert with the fixed mapping, saves it and, when e-mail alerts are
        enabled, hands it to the e-mail sink. Identical alerts are never merged. */
    method SendAlert(alertType: AlertType, message: string, now: Time)
      requires Valid()
      modifies this`alerts, this`storeLog, this`emailed
      ensures Valid()
      ensures alerts == old(alerts) + [Dispatched(Finding(alertType, message), now)]
      ensures storeLog == old(storeLog) + [AlertRow(Dispatched(Finding(alertType, message), now))]
      ensures symptoms == old(symptoms) && symptomLog == old(symptomLog) && MeasurementsUnchanged()
    {
      var severity := Classify(alertType);
      SaveAlert(alertType, message, severity, now);
      assert storeLog[..|storeLog| - 1] == old(storeLog);
      if config.emailEnabled {
        emailed := emailed + [Alert(now, alertType, message, severity)];
      }
    }

    /** Runs the exacerbation rule for a just-logged symptom against the latest SpO2 and, when
        it fires, sends exactly one high-severity "exacerbation" alert. */
    method CheckExacerbation(entry: SymptomEntry, now: Time) returns (fired: bool)
      requires Valid()
      modifies this`alerts, this`storeLog, this`emailed
      ensures Valid()
      ensures fired == ExacerbationFires(spo2, entry)
      ensures alerts == old(alerts) + (if fired then [Dispatched(ExacerbationFinding, now)] else [])
      ensures symptoms == old(symptoms) && symptomLog == old(symptomLog) && MeasurementsUnchanged()
    {
      fired := false;
      if |spo2| > 0 {
        var latest := spo2[|spo2| - 1];
        if Lower(entry.symptom) in RespiratorySymptoms && entry.severity >= ExacerbationMinSeverity
           && latest < ExacerbationSpo2Cutoff {
          SendAlert(Exacerbation, ExacerbationFinding.message, now);
          fired := true;
        }
      }
    }

    /** Appends a symptom to the journal and to the symptom texts, stores it, then runs the
        exacerbation rule, which adds at most one alert. */
    method LogSymptom(symptom: string, severity: int, notes: string, now: Time) returns (entry: SymptomEntry)
      requires Valid()
      modifies this`symptomLog, this`symptoms, this`alerts, this`storeLog, this`emailed
      ensures Valid()
      ensures entry == SymptomEntry(now, symptom, severity, notes)
      ensures symptomLog == old(symptomLog) + [entry]
      ensures symptoms == old(symptoms) + [SymptomText(entry)]
      ensures alerts == old(alerts)
                        + (if ExacerbationFires(spo2, entry) then [Dispatched(ExacerbationFinding, now)] else [])
      ensures MeasurementsUnchanged()
    {
      entry := SymptomEntry(now, symptom, severity, notes);
      symptomLog := symptomLog + [entry];
      symptoms := symptoms + [SymptomText(entry)];
      storeLog := storeLog + [SymptomRow(entry)];
      assert storeLog[..|storeLog| - 1] == old(storeLog);
      var _ := CheckExacerbation(entry, now);
    }
  }
}
