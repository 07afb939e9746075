/** The alert rules the dashboard runs after each measurement. Only the rule logic and its
    effect on the monitor are modelled; widgets and display refresh are not. */
module Gui {
  import opened Records
  import opened Rules
  import opened Monitor

  lemma ConcatAssoc<T>(a: seq<T>, b: seq<T>, c: seq<T>, d: seq<T>, e: seq<T>)
    ensures a + b + c + d + e == a + (b + c + d + e)
  {
  }

  class MonitoringGUI {
    const monitor: AdvancedPatientMonitor

    constructor (monitor: AdvancedPatientMonitor)
      ensures this.monitor == monitor
    {
      this.monitor := monitor;
    }

    /** One rule of the threshold check: sends the finding's alert when the rule fires. */
    method AlertWhen(fires: bool, f: Finding, now: Time)
      requires monitor.Valid()
      modifies monitor`alerts, monitor`storeLog, monitor`emailed
      ensures monitor.Valid()
      ensures monitor.alerts == old(monitor.alerts) + DispatchedAll(Rule(fires, f), now)
      ensures monitor.symptomLog == old(monitor.symptomLog) && monitor.MeasurementsUnchanged()
    {
      if fires {
        monitor.SendAlert(f.kind, f.message, now);
      }
    }

    /** Sends one alert per threshold rule the measurement breaks, each rule independently,
        in the order SpO2, heart rate, respiratory rate, temperature. */
    method CheckMeasurementAlerts(m: Measurement, now: Time)
      requires monitor.Valid()
      modifies monitor`alerts, monitor`storeLog, monitor`emailed
      ensures monitor.Valid()
      ensures monitor.alerts == old(monitor.alerts) + DispatchedAll(ThresholdFindings(m.reading, monitor.config.thresholds), now)
      ensures monitor.symptomLog == old(monitor.symptomLog) && monitor.MeasurementsUnchanged()
    {
      var th := monitor.config.thresholds;
      var r := m.reading;
      var f1, f2, f3, f4 := Finding(Spo2Low, LowSpo2Message(r.spo2)), Finding(HeartRateHigh, TachycardiaMessage(r.heartRate)),
        Finding(RespiratoryRateHigh, TachypneaMessage(r.respiratoryRate)), Finding(TemperatureHigh, FeverMessage(r.temperatureTenths));
      ghost var d1, d2 := DispatchedAll(Rule(r.spo2 < th.spo2Low, f1), now), DispatchedAll(Rule(r.heartRate > th.heartRateHigh, f2), now);
      ghost var d3 := DispatchedAll(Rule(r.respiratoryRate > th.respiratoryRateHigh, f3), now);
      ghost var d4 := DispatchedAll(Rule(r.temperatureTenths > th.temperatureHighTenths, f4), now);
      AlertWhen(r.spo2 < th.spo2Low, f1, now);
      AlertWhen(r.heartRate > th.heartRateHigh, f2, now);
      AlertWhen(r.respiratoryRate > th.respiratoryRateHigh, f3, now);
      AlertWhen(r.temperatureTenths > th.temperatureHighTenths, f4, now);
      assert monitor.alerts == old(monitor.alerts) + d1 + d2 + d3 + d4;
      DispatchedThresholdFindings(r, th, now);
      ConcatAssoc(old(monitor.alerts), d1, d2, d3, d4);
    }

    /** Takes a measurement (the sensor reading and the clock are inputs), then checks it
        against the thresholds. */
    method TakeMeasurement(reading: Reading, now: Time) returns (m: Measurement)
      requires monitor.Valid()
      modifies monitor
      ensures monitor.Valid()
      ensures m == Measurement(now, reading)
      ensures monitor.History() == old(monitor.History()) + [m]
      ensures monitor.alerts == old(monitor.alerts) + DispatchedAll(ThresholdFindings(reading, monitor.config.thresholds), now)
      ensures monitor.symptomLog == old(monitor.symptomLog)
    {
      m := monitor.SimulateMeasurement(reading, now);
      CheckMeasurementAlerts(m, now);
    }
  }
}
