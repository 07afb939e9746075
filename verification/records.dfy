/** Values the monitor records: sensor readings, measurements, symptom entries and alerts,
    with the fixed severity mapping and the decimal rendering used in alert messages. */
module Records {

  /** A reading of the wall clock; the model never orders or compares timestamps. */
  type Time = int

  /** The activity levels the sensor layer reports ("repos", "léger", "modéré", "élevé"). */
  datatype Activity = Repos | Leger | Modere | Eleve

  /** One sensor reading. Temperature is kept in tenths of a degree Celsius: the sensor
      rounds it to one decimal, so 37.2 °C is 372. */
  datatype Reading = Reading(
    spo2: int,
    heartRate: int,
    respiratoryRate: int,
    temperatureTenths: int,
    systolicBp: int,
    diastolicBp: int,
    activityLevel: Activity)

  /** A reading stamped with the time it was recorded. */
  datatype Measurement = Measurement(time: Time, reading: Reading)

  /** One entry of the symptom journal; severity is meant to be 1-10 but is not checked. */
  datatype SymptomEntry = SymptomEntry(timestamp: Time, symptom: string, severity: int, notes: string)

  /** The alert types the monitor emits. */
  datatype AlertType = Spo2Low | HeartRateHigh | RespiratoryRateHigh | TemperatureHigh | Exacerbation

  datatype Severity = Medium | High

  datatype Alert = Alert(timestamp: Time, alertType: AlertType, message: string, severity: Severity)

  /** A rule's outcome before it is dispatched: its type and its message. */
  datatype Finding = Finding(kind: AlertType, message: string)

  /** The fixed severity mapping of the dispatcher. */
  function Classify(t: AlertType): (s: Severity)
    ensures s == High <==> t == Exacerbation
  {
    if t == Exacerbation then High else Medium
  }

  /** The alert a finding becomes when it is dispatched at time `now`. */
  function Dispatched(f: Finding, now: Time): (a: Alert)
    ensures a.alertType == f.kind && a.message == f.message && a.timestamp == now
    ensures a.severity == High <==> f.kind == Exacerbation
  {
    Alert(now, f.kind, f.message, Classify(f.kind))
  }

  /** The alerts a sequence of findings becomes, in the same order. */
  function DispatchedAll(fs: seq<Finding>, now: Time): (as_: seq<Alert>)
    ensures |as_| == |fs|
    ensures forall i :: 0 <= i < |fs| ==> as_[i] == Dispatched(fs[i], now)
  {
    if fs == [] then [] else [Dispatched(fs[0], now)] + DispatchedAll(fs[1..], now)
  }

  lemma {:induction false} DispatchedAllAppend(xs: seq<Finding>, ys: seq<Finding>, now: Time)
    ensures DispatchedAll(xs + ys, now) == DispatchedAll(xs, now) + DispatchedAll(ys, now)
  {
    if xs != [] {
      assert (xs + ys)[1..] == xs[1..] + ys;
      DispatchedAllAppend(xs[1..], ys, now);
    }
  }

  // ---- decimal rendering, as Python's str() prints integers and one-decimal floats ----

  function DigitChar(d: nat): (c: char)
    requires d < 10
    ensures '0' <= c <= '9' && DigitValue(c) == d
  {
    ('0' as int + d) as char
  }

  /** The value of a decimal digit character. */
  function DigitValue(c: char): nat
  {
    if '0' <= c <= '9' then c as int - '0' as int else 0
  }

  /** The number a string of decimal digits spells, most significant digit first. */
  function DecimalValue(s: string): nat
  {
    if s == [] then 0 else DecimalValue(s[..|s| - 1]) * 10 + DigitValue(s[|s| - 1])
  }

  predicate AllDigits(s: string)
  {
    forall i :: 0 <= i < |s| ==> '0' <= s[i] <= '9'
  }

  /** Decimal digits of a natural number, most significant first, without leading zeros. */
  function NatToDecimal(n: nat): (s: string)
    ensures |s| >= 1 && AllDigits(s)
    ensures |s| > 1 ==> s[0] != '0'
    decreases n
  {
    if n < 10 then [DigitChar(n)] else NatToDecimal(n / 10) + [DigitChar(n % 10)]
  }

  /** An integer as Python prints it: a '-' for a negative number, then the digits of its
      magnitude. */
  function IntToDecimal(i: int): (s: string)
    ensures |s| >= 1
    ensures s[0] == '-' <==> i < 0
  {
    if i < 0 then "-" + NatToDecimal(-i) else NatToDecimal(i)
  }

  /** A temperature in tenths printed as Python prints the float t / 10 ("38.0", "-0.5"):
      an optional '-', the whole degrees of |t|, a '.', and the tenths digit of |t|. */
  function TenthsToDecimal(t: int): (s: string)
    ensures |s| >= 3 && s[|s| - 2] == '.'
    ensures s[0] == '-' <==> t < 0
  {
    var m: nat := if t < 0 then -t else t;
    (if t < 0 then "-" else "") + NatToDecimal(m / 10) + "." + [DigitChar(m % 10)]
  }

  /** The digits of a natural number spell it. */
  lemma {:induction false} NatToDecimalSpells(n: nat)
    ensures DecimalValue(NatToDecimal(n)) == n
    decreases n
  {
    if n >= 10 {
      var p := NatToDecimal(n / 10);
      NatToDecimalSpells(n / 10);
      assert (p + [DigitChar(n % 10)])[..|p|] == p;
    }
  }

  /** After an optional '-', the digits of an integer spell its magnitude. */
  lemma IntToDecimalSpells(i: int)
    ensures var s, k := IntToDecimal(i), if i < 0 then 1 else 0;
            |s| > k && AllDigits(s[k..]) && DecimalValue(s[k..]) == (if i < 0 then -i else i)
  {
    var d := NatToDecimal(if i < 0 then -i else i);
    NatToDecimalSpells(if i < 0 then -i else i);
    if i < 0 {
      assert IntToDecimal(i)[1..] == d;
    }
  }

  /** Between the optional '-' and the '.', the digits of a temperature in tenths spell its
      whole degrees; the last character is the digit of its tenths. */
  lemma TenthsToDecimalSpells(t: int)
    ensures var s, k, m := TenthsToDecimal(t), (if t < 0 then 1 else 0), (if t < 0 then -t else t);
            k < |s| - 2 && AllDigits(s[k..|s| - 2]) && DecimalValue(s[k..|s| - 2]) == m / 10
            && '0' <= s[|s| - 1] <= '9' && DigitValue(s[|s| - 1]) == m % 10
  {
    var m: nat := if t < 0 then -t else t;
    var sign := if t < 0 then "-" else "";
    var whole := NatToDecimal(m / 10);
    NatToDecimalSpells(m / 10);
    var s := TenthsToDecimal(t);
    assert s == sign + whole + "." + [DigitChar(m % 10)];
    assert s[|sign|..|s| - 2] == whole;
  }
}
