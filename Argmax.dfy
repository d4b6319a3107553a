/** The running-maximum scan the classifiers share: start from a maximum of
    0 at index 0, and move to position i only when its value is strictly
    greater than the maximum so far. */
module Argmax {
  import opened Doubles

  /** Index and maximum after scanning the first n values. */
  function Scan(s: seq<Double>, n: nat): (r: (nat, Double))
    requires n <= |s|
    decreases n
  {
    if n == 0 then (0, Zero)
    else
      var (i, m) := Scan(s, n - 1);
      if Greater(s[n - 1], m) then (n - 1, s[n - 1]) else (i, m)
  }

  function FirstMax(s: seq<Double>): nat
  {
    Scan(s, |s|).0
  }

  /** What the scan computes: index 0 when nothing exceeds 0; otherwise the
      lowest index holding the greatest value (NaN never wins). */
  lemma {:induction false} ScanMeaning(s: seq<Double>, n: nat)
    requires n <= |s|
    ensures var (r, m) := Scan(s, n);
      && m.Fin? && m.v >= 0.0
      && (r == 0 || r < n)
      && ((forall j :: 0 <= j < n ==> !Greater(s[j], Zero)) ==> r == 0 && m == Zero)
      && ((exists j :: 0 <= j < n && Greater(s[j], Zero)) ==>
            r < n && s[r] == m && m.v > 0.0
            && (forall j :: 0 <= j < n && s[j].Fin? ==> s[j].v <= m.v)
            && (forall j :: 0 <= j < r && s[j].Fin? ==> s[j].v < m.v))
    decreases n
  {
    if n > 0 {
      ScanMeaning(s, n - 1);
      var (i, m) := Scan(s, n - 1);
      if Greater(s[n - 1], m) {
      } else {
        if exists j :: 0 <= j < n && Greater(s[j], Zero) {
          if !Greater(s[n - 1], Zero) {
            var j :| 0 <= j < n && Greater(s[j], Zero);
            assert j < n - 1;
          }
        }
      }
    }
  }

  lemma FirstMaxMeaning(s: seq<Double>)
    ensures FirstMax(s) == 0 || FirstMax(s) < |s|
    ensures (forall j :: 0 <= j < |s| ==> !Greater(s[j], Zero)) ==> FirstMax(s) == 0
    ensures (exists j :: 0 <= j < |s| && Greater(s[j], Zero)) ==>
              var r := FirstMax(s);
              r < |s| && Greater(s[r], Zero)
              && (forall j :: 0 <= j < |s| ==> !Greater(s[j], s[r]))
              && (forall j :: 0 <= j < r && s[j].Fin? ==> s[j].v < s[r].v)
  {
    ScanMeaning(s, |s|);
  }

  /** The loop the classifiers run, over an array, proved to give FirstMax. */
  method FirstMaxOf(a: array<Double>) returns (idx: nat)
    ensures idx == FirstMax(a[..])
    ensures idx == 0 || idx < a.Length
  {
    var maxCount := Zero;
    idx := 0;
    var i := 0;
    while i < a.Length
      invariant 0 <= i <= a.Length
      invariant (idx, maxCount) == Scan(a[..], i)
    {
      if Greater(a[i], maxCount) {
        idx, maxCount := i, a[i];
      }
      i := i + 1;
    }
    assert a[..] == a[..a.Length];
    ScanMeaning(a[..], a.Length);
  }
}
