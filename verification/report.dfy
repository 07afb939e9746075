/** The one rule-like figure of the periodic report: the number of desaturation episodes, i.e.
    of recorded SpO2 values strictly below the configured low threshold. */
module Report {
  import opened Records
  import opened Config
  import opened Rules

  /** The number of SpO2 values below `low`. */
  function DesaturationCount(spo2: seq<int>, low: int): nat
  {
    if spo2 == [] then 0
    else DesaturationCount(spo2[..|spo2| - 1], low) + (if spo2[|spo2| - 1] < low then 1 else 0)
  }

  /** The positions of the values below `low`. */
  ghost function DesaturatedAt(spo2: seq<int>, low: int): set<int>
  {
    set i | 0 <= i < |spo2| && spo2[i] < low
  }

  /** The count is the number of positions holding a value below the threshold. */
  lemma {:induction false} DesaturationCountIsPositions(spo2: seq<int>, low: int)
    ensures DesaturationCount(spo2, low) == |DesaturatedAt(spo2, low)|
  {
    if spo2 != [] {
      var p, last := spo2[..|spo2| - 1], |spo2| - 1;
      DesaturationCountIsPositions(p, low);
      if spo2[last] < low {
        assert DesaturatedAt(spo2, low) == DesaturatedAt(p, low) + {last};
      } else {
        assert DesaturatedAt(spo2, low) == DesaturatedAt(p, low);
      }
    }
  }

  lemma {:induction false} DesaturationCountAppend(xs: seq<int>, ys: seq<int>, low: int)
    ensures DesaturationCount(xs + ys, low) == DesaturationCount(xs, low) + DesaturationCount(ys, low)
    decreases |ys|
  {
    if ys == [] {
      assert xs + ys == xs;
    } else {
      assert (xs + ys)[..|xs + ys| - 1] == xs + ys[..|ys| - 1];
      DesaturationCountAppend(xs, ys[..|ys| - 1], low);
    }
  }

  /** No episode is counted iff every value is at or above the threshold, and the count never
      exceeds the number of values. */
  lemma {:induction false} DesaturationCountBounds(spo2: seq<int>, low: int)
    ensures DesaturationCount(spo2, low) <= |spo2|
    ensures DesaturationCount(spo2, low) == 0 <==> forall i :: 0 <= i < |spo2| ==> spo2[i] >= low
  {
    if spo2 != [] {
      var p := spo2[..|spo2| - 1];
      DesaturationCountBounds(p, low);
      assert forall i :: 0 <= i < |p| ==> p[i] == spo2[i];
    }
  }

  /** A measurement counts as a desaturation episode exactly when it fires the low-SpO2 alert. */
  lemma DesaturationMatchesAlertRule(r: Reading, th: Thresholds)
    ensures DesaturationCount([r.spo2], th.spo2Low) == 1 <==>
            Finding(Spo2Low, LowSpo2Message(r.spo2)) in ThresholdFindings(r, th)
  {
    ThresholdFindingsFire(r, th);
    assert [r.spo2][..0] == [];
  }
}
