/** The anomaly gate: once ten SpO2 samples exist, an outlier detector labels the last ten
    (SpO2, heart rate, respiratory rate) triples, and more than two outliers are reported.
    The detector itself is a randomised library model and is a parameter here. */
module Anomaly {
  import opened Records

  /** How many samples the gate needs and how many recent triples it inspects. */
  const AnomalyWindow := 10

  /** Outliers up to this many are tolerated. */
  const MaxTolerated := 2

  datatype Label = Inlier | Outlier

  /** One row of the detector's input. */
  datatype Features = Features(spo2: int, heartRate: int, respiratoryRate: int)

  datatype AnomalyResult =
    | InsufficientData
    | Anomalies(count: nat)
    | NoAnomaly
  {
    function Message(): string
    {
      match this
      case InsufficientData => "Données insuffisantes pour la détection d'anomalies"
      case Anomalies(n) => NatToDecimal(n) + " anomalies détectées dans les signes vitaux"
      case NoAnomaly => "Aucune anomalie détectée"
    }
  }

  /** The last k samples, `s[-k:]` for 0 < k <= |s|. */
  function LastSamples(s: seq<int>, k: nat): seq<int>
    requires k <= |s|
  {
    s[|s| - k..]
  }

  /** The detector's input: the last ten samples of the three channels, row by row. */
  function RecentFeatures(spo2: seq<int>, heartRate: seq<int>, respiratoryRate: seq<int>): (fs: seq<Features>)
    requires AnomalyWindow <= |spo2| && |heartRate| == |spo2| && |respiratoryRate| == |spo2|
    ensures |fs| == AnomalyWindow
    ensures forall i :: 0 <= i < AnomalyWindow ==>
              fs[i] == Features(spo2[|spo2| - AnomalyWindow + i], heartRate[|spo2| - AnomalyWindow + i],
                                respiratoryRate[|spo2| - AnomalyWindow + i])
  {
    var s, h, r := LastSamples(spo2, AnomalyWindow), LastSamples(heartRate, AnomalyWindow),
      LastSamples(respiratoryRate, AnomalyWindow);
    seq(AnomalyWindow, i requires 0 <= i < AnomalyWindow => Features(s[i], h[i], r[i]))
  }

  /** The number of outlier labels. */
  function OutlierCount(labels: seq<Label>): nat
  {
    if labels == [] then 0
    else OutlierCount(labels[..|labels| - 1]) + (if labels[|labels| - 1] == Outlier then 1 else 0)
  }

  /** The gate: too few SpO2 samples give InsufficientData; otherwise the detector labels the
      recent triples and more than two outliers are reported with their count. */
  function DetectAnomalies(spo2: seq<int>, heartRate: seq<int>, respiratoryRate: seq<int>,
                           detector: seq<Features> -> seq<Label>): (r: AnomalyResult)
    requires |heartRate| == |spo2| && |respiratoryRate| == |spo2|
    ensures r.InsufficientData? <==> |spo2| < AnomalyWindow
    ensures r.Anomalies? <==>
              |spo2| >= AnomalyWindow
              && OutlierCount(detector(RecentFeatures(spo2, heartRate, respiratoryRate))) > MaxTolerated
    ensures r.Anomalies? ==> r.count == OutlierCount(detector(RecentFeatures(spo2, heartRate, respiratoryRate)))
    ensures r.NoAnomaly? ==> OutlierCount(detector(RecentFeatures(spo2, heartRate, respiratoryRate))) <= MaxTolerated
  {
    if |spo2| < AnomalyWindow then InsufficientData
    else
      var n := OutlierCount(detector(RecentFeatures(spo2, heartRate, respiratoryRate)));
      if n > MaxTolerated then Anomalies(n) else NoAnomaly
  }

  // ---- properties ----

  lemma {:induction false} OutlierCountAppend(xs: seq<Label>, ys: seq<Label>)
    ensures OutlierCount(xs + ys) == OutlierCount(xs) + OutlierCount(ys)
    decreases |ys|
  {
    if ys != [] {
      assert (xs + ys)[..|xs + ys| - 1] == xs + ys[..|ys| - 1];
      OutlierCountAppend(xs, ys[..|ys| - 1]);
    } else {
      assert xs + ys == xs;
    }
  }

  /** The count is the multiplicity of Outlier among the labels, so it never exceeds the number
      of labels and does not depend on their order. */
  lemma {:induction false} OutlierCountIsMultiplicity(labels: seq<Label>)
    ensures OutlierCount(labels) == multiset(labels)[Outlier]
    ensures OutlierCount(labels) <= |labels|
  {
    if labels != [] {
      var p := labels[..|labels| - 1];
      OutlierCountIsMultiplicity(p);
      assert labels == p + [labels[|labels| - 1]];
      assert multiset(labels) == multiset(p) + multiset{labels[|labels| - 1]};
    }
  }

  /** Zero, one or two outliers among the recent triples never report an anomaly. */
  lemma FewOutliersAreTolerated(spo2: seq<int>, heartRate: seq<int>, respiratoryRate: seq<int>,
                                detector: seq<Features> -> seq<Label>)
    requires |spo2| >= AnomalyWindow && |heartRate| == |spo2| && |respiratoryRate| == |spo2|
    requires multiset(detector(RecentFeatures(spo2, heartRate, respiratoryRate)))[Outlier] <= 2
    ensures DetectAnomalies(spo2, heartRate, respiratoryRate, detector) == NoAnomaly
  {
    OutlierCountIsMultiplicity(detector(RecentFeatures(spo2, heartRate, respiratoryRate)));
  }

  /** Only the last ten samples of each channel reach the detector: older history never
      changes the outcome once ten samples exist. */
  lemma OnlyRecentSamplesMatter(spo2: seq<int>, heartRate: seq<int>, respiratoryRate: seq<int>,
                                olderSpo2: seq<int>, olderHeartRate: seq<int>, olderRespiratoryRate: seq<int>,
                                detector: seq<Features> -> seq<Label>)
    requires |spo2| >= AnomalyWindow && |heartRate| == |spo2| && |respiratoryRate| == |spo2|
    requires |olderHeartRate| == |olderSpo2| && |olderRespiratoryRate| == |olderSpo2|
    ensures DetectAnomalies(olderSpo2 + spo2, olderHeartRate + heartRate, olderRespiratoryRate + respiratoryRate, detector)
         == DetectAnomalies(spo2, heartRate, respiratoryRate, detector)
  {
    var a := RecentFeatures(olderSpo2 + spo2, olderHeartRate + heartRate, olderRespiratoryRate + respiratoryRate);
    var b := RecentFeatures(spo2, heartRate, respiratoryRate);
    assert forall i :: 0 <= i < AnomalyWindow ==> a[i] == b[i];
    assert a == b;
  }

  /** The boundary of the gate: two outliers among the ten triples are tolerated, three are
      reported. */
  lemma GateBoundary(spo2: seq<int>, heartRate: seq<int>, respiratoryRate: seq<int>,
                     twoOutliers: seq<Features> -> seq<Label>, threeOutliers: seq<Features> -> seq<Label>)
    requires |spo2| >= AnomalyWindow && |heartRate| == |spo2| && |respiratoryRate| == |spo2|
    requires twoOutliers(RecentFeatures(spo2, heartRate, respiratoryRate))
             == [Inlier, Outlier, Inlier, Inlier, Inlier, Inlier, Inlier, Inlier, Outlier, Inlier]
    requires threeOutliers(RecentFeatures(spo2, heartRate, respiratoryRate))
             == [Inlier, Outlier, Inlier, Inlier, Inlier, Outlier, Inlier, Inlier, Outlier, Inlier]
    ensures DetectAnomalies(spo2, heartRate, respiratoryRate, twoOutliers) == NoAnomaly
    ensures DetectAnomalies(spo2, heartRate, respiratoryRate, threeOutliers) == Anomalies(3)
  {
    OutlierCountIsMultiplicity([Inlier, Outlier, Inlier, Inlier, Inlier, Inlier, Inlier, Inlier, Outlier, Inlier]);
    OutlierCountIsMultiplicity([Inlier, Outlier, Inlier, Inlier, Inlier, Outlier, Inlier, Inlier, Outlier, Inlier]);
  }
}
