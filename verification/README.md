# Patient monitor alerting engine — a Dafny model

This project models the alerting engine of the respiratory patient monitor in `Monitoring.py`
and proves properties of it. The engine has five parts:

- **In-memory history.** `AdvancedPatientMonitor` keeps eight parallel measurement channels
  (timestamp, SpO2, heart rate, respiratory rate, temperature, systolic and diastolic blood
  pressure, activity level), a symptom journal with its text summaries, and the alert list. It
  is modelled as a class with `seq` fields. Its invariant `Valid()` says:
  - the channels have equal length;
  - the symptom texts follow the journal;
  - every in-memory row was also written to the record store, in the same order;
  - every alert carries the severity of its type;
  - the e-mail sink saw every alert exactly when e-mail alerts are enabled.

  The record store and the e-mail sink are ghost logs.
- **Threshold rules** (`MonitoringGUI.check_measurement_alerts`). There are four independent rules
  with strict comparisons, evaluated in a fixed order. `Rules.ThresholdFindings` describes their
  findings, and `Gui.MonitoringGUI.CheckMeasurementAlerts` dispatches them through the monitor.
- **Exacerbation rule** (`check_exacerbation`). A respiratory symptom label is matched in any
  letter case. It must have a severity of at least 7, and the latest SpO2 must be below the
  literal 92.
- **Alert dispatch** (`send_alert`, `save_alert`). Severity follows a fixed mapping: "high" for an
  exacerbation and "medium" otherwise. Every call appends exactly one alert and nothing is ever
  merged.
- **Trend forecaster and anomaly gate.**
  - `predict_deterioration` fits an ordinary least-squares line to the last `window_size` SpO2
    samples and extrapolates it over the next `hours` indices. The fit is the closed-form
    solution computed over exact reals. It always solves the normal equations of least squares.
    With two samples or more it is proved to be their unique solution, and to reproduce any
    window that lies on a line; a one-sample window is fitted by a flat line at its value.
  - `detect_anomalies` keeps its guard (ten samples) and its gate (more than two outliers among
    the last ten triples). The outlier detector is a function parameter.
- **Desaturation count** of the periodic report: the number of SpO2 values strictly below the
  threshold.

Modules: `Records` (value types, the severity mapping, decimal rendering of numbers in
messages), `Config` (the default configuration), `Rules`, `Monitor`, `Gui`, `Forecast`,
`Anomaly`, `Report`.

Where the documented design and the code differ, the model follows the code:
- The exacerbation rule compares the latest SpO2 with the literal 92, not with the configured
  `spo2_low`.
- The history is unbounded; nothing is ever evicted.
- The configured `forecast_hours` is never read; the horizon is the `hours` argument.
- No ordering or range check is made on timestamps, severities or readings.
- The forecaster and the anomaly detector return their verdicts as values and do not raise
  alerts.

## Model

| member | source | states |
|---|---|---|
| Records.Classify | Monitoring.py:246 | the severity is High exactly when the alert type is the exacerbation type |
| Records.Dispatched | Monitoring.py:246-247 | a dispatched alert keeps the finding's type and message, carries the call's time, and is High iff its type is exacerbation |
| Records.DispatchedAll | Monitoring.py:469-479 | dispatching several findings yields one alert per finding, in the same order |
| Records.NatToDecimal | Monitoring.py:345 | a count is rendered as at least one decimal digit, with no leading zero |
| Records.NatToDecimalSpells | Monitoring.py:345 | the rendered digits spell the number they render |
| Records.IntToDecimal | Monitoring.py:470 | an integer reading is rendered as a non-empty string that starts with '-' exactly when it is negative |
| Records.IntToDecimalSpells | Monitoring.py:470 | after the optional '-', the rendered digits spell the magnitude of the reading |
| Records.TenthsToDecimal | Monitoring.py:479 | a temperature in tenths is rendered with one digit after the decimal point, with a sign exactly when it is negative |
| Records.TenthsToDecimalSpells | Monitoring.py:479 | between the optional '-' and the '.', the digits spell the whole degrees; the digit after the '.' is the tenths |
| Config.DefaultSettings | Monitoring.py:44-63 | the fallback configuration: thresholds SpO2 92, heart rate 110, respiratory rate 25, temperature 38.0 °C (380 tenths); e-mail alerts off; window size 10; forecast horizon 6 |
| Rules.LowSpo2Message | Monitoring.py:470 | "SpO2 basse: ", the SpO2 in decimal, then "%" |
| Rules.TachycardiaMessage | Monitoring.py:473 | "Tachycardie: ", the heart rate in decimal, then " bpm" |
| Rules.TachypneaMessage | Monitoring.py:476 | "Tachypnée: ", the respiratory rate in decimal, then " rpm" |
| Rules.FeverMessage | Monitoring.py:479 | "Fièvre: ", the temperature with one decimal, then " °C" |
| Rules.ThresholdFindings | Monitoring.py:469-479 | the four rules' findings concatenated in rule order; none iff the reading is within every limit |
| Rules.ThresholdFindingsFire | Monitoring.py:465-479 | each of the four findings is produced iff its own strict comparison holds, independently of the others, and no other finding is produced |
| Rules.ThresholdFindingsOrdered | Monitoring.py:469-479 | at most four findings, in strictly increasing rule order (SpO2, heart rate, respiratory rate, temperature), so no rule fires twice |
| Rules.DispatchedThresholdFindings | Monitoring.py:469-479 | the alerts of a measurement are the alerts of each rule's contribution, concatenated in rule order |
| Rules.AtThresholdFiresNothing | Monitoring.py:469-479 | a reading exactly at every threshold produces no finding (the comparisons are strict) |
| Rules.DefaultSpo2Examples | Monitoring.py:45-50 | with the default thresholds, an SpO2 of 90 fires the low-SpO2 rule and 95 does not |
| Rules.ExacerbationFires | Monitoring.py:232-237 | the exacerbation rule: some SpO2 is recorded, the lower-cased label is "essoufflement", "toux" or "fatigue", the severity is at least 7 and the latest SpO2 is below 92 |
| Rules.Lower | Monitoring.py:236 | lower-casing keeps the length and maps every character on its own |
| Rules.LowerIdempotent | Monitoring.py:236 | lower-casing twice is lower-casing once |
| Rules.ExacerbationCaseInsensitive | Monitoring.py:236 | two labels with the same lower case always get the same decision |
| Rules.ExacerbationMonotone | Monitoring.py:232-237 | only the latest SpO2 matters, and a higher severity never stops the rule firing |
| Rules.ExacerbationCutoffIsLiteral | Monitoring.py:237 | with a configured threshold of 95, an SpO2 of 93 fires the threshold rule but not the exacerbation rule |
| Rules.ExacerbationExamples | Monitoring.py:231-241 | "toux" at severity 8 with SpO2 89 fires; at severity 5 it does not; with no SpO2 recorded it never fires |
| Rules.ExacerbationUpperCaseExample | Monitoring.py:236 | the upper-case label "TOUX" is recognised |
| Rules.OtherLabelsNeverFire | Monitoring.py:236 | a label whose lower case is not a respiratory symptom never fires, whatever the severity and the SpO2 history |
| Rules.ExacerbationOtherLabelExample | Monitoring.py:236 | one example: "céphalée" at severity 10 with SpO2 85 does not fire |
| Monitor.SymptomText | Monitoring.py:219 | the journal text of a symptom: the label, then " (severity: ", the severity in decimal, and ")" |
| Monitor.AdvancedPatientMonitor.constructor | Monitoring.py:18-35 | a new monitor holds the given identity and configuration, an empty history, journal and alert list, and satisfies the invariant |
| Monitor.AdvancedPatientMonitor.SimulateMeasurement | Monitoring.py:187-208 | appends exactly one element to each of the eight channels (the history gains exactly the new measurement), stores it, keeps the channels aligned, and leaves the symptoms, journal and alerts unchanged |
| Monitor.AdvancedPatientMonitor.SaveAlert | Monitoring.py:138-153 | appends exactly one alert with the given time, type, message and severity to the list and to the store |
| Monitor.AdvancedPatientMonitor.SendAlert | Monitoring.py:243-256 | appends exactly one alert, classified by the fixed mapping, even when an identical alert exists; hands it to the e-mail sink iff e-mail is enabled; touches neither the history nor the journal |
| Monitor.AdvancedPatientMonitor.CheckExacerbation | Monitoring.py:229-241 | returns true iff the exacerbation rule holds on the SpO2 history; then exactly one exacerbation alert is added, otherwise the alerts are unchanged |
| Monitor.AdvancedPatientMonitor.LogSymptom | Monitoring.py:210-227 | grows the journal and the symptom texts by exactly one entry each, leaves every measurement channel unchanged, and adds one exacerbation alert iff the rule fires |
| Gui.MonitoringGUI.constructor | Monitoring.py:404-405 | the dashboard holds the given monitor |
| Gui.MonitoringGUI.AlertWhen | Monitoring.py:469-470 | one rule's `if`: the finding's alert is sent exactly when the rule fires, otherwise nothing changes |
| Gui.MonitoringGUI.CheckMeasurementAlerts | Monitoring.py:465-480 | the alert list grows by exactly the dispatched threshold findings of the measurement, in rule order; the history and the journal are unchanged |
| Gui.MonitoringGUI.TakeMeasurement | Monitoring.py:449-455 | the history grows by the new measurement and the alerts by its dispatched threshold findings |
| Forecast.SliceFrom | Monitoring.py:303 | `s[start:]` is a suffix of `s`: of length `|s| - start` clamped at 0 for a non-negative start, of length `-start` clamped at `|s|` for a negative one |
| Forecast.Window | Monitoring.py:303 | the samples fitted: `spo2[-window_size:]` |
| Forecast.WindowIsLastSamples | Monitoring.py:302-303 | once enough samples exist, the window is exactly the last `window_size` samples in order (the whole history for a window size of 0) |
| Forecast.Slope | Monitoring.py:306-310 | the least-squares slope (n·Σxy − Σx·Σy) / (n·Σx² − (Σx)²) over x = 0..n−1, and 0 for a single sample |
| Forecast.Intercept | Monitoring.py:306-310 | the least-squares intercept (Σy − slope·Σx) / n |
| Forecast.Predicted | Monitoring.py:313-314 | the fitted line's value at index k |
| Forecast.AnyBelow | Monitoring.py:317 | whether some prediction at the indices from, from+1, …, from+count−1 is below the threshold |
| Forecast.Forecast.Message | Monitoring.py:299-320 | the three texts the forecaster returns: insufficient data, deterioration within the hours below the threshold, no deterioration |
| Forecast.AnyBelowExists | Monitoring.py:317 | the scan over the predictions finds one below the threshold iff one exists at some index of the horizon |
| Forecast.PredictDeterioration | Monitoring.py:296-320 | insufficient data iff fewer than `window_size` samples; a library error iff the window or the horizon is empty; deterioration, carrying the hours and the threshold, iff some prediction at an index in [n, n+hours) is below `spo2_low` |
| Forecast.SxxPositive | Monitoring.py:306-310 | with two samples or more the indices have a positive spread, so the slope is a proper quotient |
| Forecast.NormalEquations | Monitoring.py:306-310 | the fitted intercept and slope solve the least-squares normal equations over the window |
| Forecast.NormalEquationsUnique | Monitoring.py:306-310 | with two samples or more, any solution of the normal equations is the fitted line |
| Forecast.LinearSums | Monitoring.py:306-310 | the sums of a window lying on a line satisfy that line's normal equations |
| Forecast.LinearWindowIsExact | Monitoring.py:306-314 | a window lying exactly on a line is fitted by that line, and every prediction lies on it |
| Forecast.ConstantWindowIsFlat | Monitoring.py:306-314 | a constant window is fitted by a flat line at its value, and every prediction is that value |
| Forecast.ConstantWindowForecast | Monitoring.py:296-320 | a constant window forecasts deterioration iff the horizon is non-empty and the constant is already below the threshold |
| Forecast.EndpointsDecide | Monitoring.py:313-317 | since the line is monotone, some prediction is below the threshold iff the first or the last one is |
| Forecast.OnlyWindowMatters | Monitoring.py:298-303 | samples older than the window never change the forecast |
| Forecast.FallingWindowExample | Monitoring.py:296-318 | a window falling by 2 from 98 to 90 forecasts deterioration below 92 within 3 hours |
| Forecast.FlatWindowExample | Monitoring.py:296-320 | a window flat at 98 forecasts no deterioration below 92 |
| Anomaly.RecentFeatures | Monitoring.py:328-332 | the detector's input is ten rows: the last ten SpO2, heart-rate and respiratory-rate samples, row by row |
| Anomaly.DetectAnomalies | Monitoring.py:322-347 | insufficient data iff fewer than ten SpO2 samples; anomalies, with their count, iff the detector labels more than two recent rows as outliers; otherwise none |
| Anomaly.OutlierCount | Monitoring.py:342 | the number of labels that are outliers |
| Anomaly.AnomalyResult.Message | Monitoring.py:324-347 | the three texts the detector returns: insufficient data, the count of anomalies, no anomaly |
| Anomaly.OutlierCountAppend | Monitoring.py:342 | counting outliers over two concatenated label sequences adds their counts |
| Anomaly.OutlierCountIsMultiplicity | Monitoring.py:342 | the count is the number of outlier labels, whatever their order, and never exceeds the number of labels |
| Anomaly.FewOutliersAreTolerated | Monitoring.py:344-347 | zero, one or two outliers give "no anomaly" |
| Anomaly.OnlyRecentSamplesMatter | Monitoring.py:328-332 | history older than the last ten samples never changes the result |
| Anomaly.GateBoundary | Monitoring.py:342-347 | two outliers among ten rows are tolerated and three are reported as three |
| Report.DesaturationCount | Monitoring.py:380 | the number of SpO2 values strictly below the threshold |
| Report.DesaturationCountIsPositions | Monitoring.py:380 | the count is the number of positions holding a value strictly below the threshold |
| Report.DesaturationCountAppend | Monitoring.py:380 | counting over two concatenated stretches adds their counts |
| Report.DesaturationCountBounds | Monitoring.py:380 | the count never exceeds the number of values, and is zero iff every value is at or above the threshold |
| Report.DesaturationMatchesAlertRule | Monitoring.py:380 | a single measurement counts as a desaturation exactly when it fires the low-SpO2 alert |

## Left out

- The SQLite record store (`setup_database`, `save_measurement`, `save_symptom` and the INSERT in `save_alert`) is not modelled as I/O. It is a ghost append-only log of rows, and `Valid()` ties it to the in-memory lists.
- E-mail delivery (`send_email_alert`) is a ghost sink. It records the alerts handed to it when e-mail is enabled; SMTP, message composition and swallowed exceptions are not modelled.
- The console print of `send_alert` is not modelled.
- Default arguments are not modelled. `predict_deterioration`'s `hours=6`, which the report relies on, is an explicit `hours` parameter of `Forecast.PredictDeterioration`. `log_symptom`'s `notes=""` is an explicit `notes` parameter of `LogSymptom`.
- The random sensor simulation (`read_sensor_data`), `connect_sensors` and `export_to_ehr` are left out. The reading is an input of `SimulateMeasurement`.
- Wall-clock time is an integer `now` parameter, one value per call. Several `datetime.now()` calls inside one operation therefore share one value, and no ordering between calls is assumed.
- Configuration loading from a JSON file is left out. Only the defaults are kept (`Config.DefaultSettings`), with the e-mail server settings dropped. Thresholds are integers, and the temperature is in integer tenths of a degree (38.0 °C is 380).
- Forecast.PredictDeterioration: the library fit is replaced by the closed-form least-squares line over exact reals. Floating-point rounding in the fit and in the comparison is therefore not captured. A one-sample window is given slope 0, as the library's minimum-norm solution gives.
- Forecast.PredictDeterioration: the library raises on an empty window when fitting and on an empty horizon (`hours <= 0`) when predicting. Both are the `LibraryError` outcome, which has no message; the exception itself is not modelled.
- Anomaly.DetectAnomalies: the randomised isolation forest (and its contamination of 0.1) is a function parameter from the feature rows to labels. What it labels is not modelled, only how the labels are counted and gated.
- Anomaly.DetectAnomalies requires the three channels to have equal length, which the monitor's invariant guarantees. The source slices each channel on its own: with ragged channels of at least ten samples each it silently pairs rows from different measurements, and only a heart-rate or respiratory-rate channel shorter than ten makes the array construction fail.
- Anomaly.DetectAnomalies: with a contamination of 0.1, the library's isolation forest puts its decision offset at the 10th percentile of the training scores. On the ten rows it was trained on, it should then label at most one row as an outlier, so the "more than two" branch looks unreachable in practice. This follows from the library's documented meaning of `contamination` and `offset_`; Monitoring.py itself does not show it. The model does not constrain the detector, so `GateBoundary` reaches the three-outlier case only through an arbitrary detector.
- The periodic report (`generate_comprehensive_report`) is left out apart from its desaturation count. Its SQL time filter, float means and formatting are not modelled; the count is taken over a given sequence of SpO2 values.
- The dashboard widgets, `update_display_values`, `update_alert_display` and the report and log windows are not modelled. Neither is the 30-second refresh (`update_display`), which calls `take_measurement` on a timer.
- Gui.MonitoringGUI.constructor: the dashboard's setup starts that refresh, so constructing it takes a first measurement. The model's constructor only binds the monitor; a caller runs `TakeMeasurement` for that first measurement.
- Rules.Lower lower-cases ASCII and Latin-1 capitals only. Python's full Unicode case mapping of other scripts is not modelled.
