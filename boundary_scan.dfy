/**
 * The boundary scan of mouse_clicked as a specification: a two-state machine
 * over the classification sequence, driven by the click saver's check_color
 * flag (true while looking for the start of a dark run, false while looking
 * for its end). A sample is recorded when its classification equals the
 * flag, and every record flips the flag.
 */
module BoundaryScan {

  /** The flag after some prefix of the samples, and the indices recorded so far. */
  datatype ScanState = ScanState(checkColor: bool, recorded: seq<nat>)

  /** One iteration of the scan loop, for sample `i` classified `dark`. */
  function Step(s: ScanState, i: nat, dark: bool): (t: ScanState)
    ensures t.recorded == (if dark == s.checkColor then s.recorded + [i] else s.recorded)
    ensures t.checkColor == (s.checkColor != (|t.recorded| != |s.recorded|))
  {
    if dark then
      if s.checkColor then ScanState(!s.checkColor, s.recorded + [i]) else s
    else
      if !s.checkColor then ScanState(!s.checkColor, s.recorded + [i]) else s
  }

  /** The scan over all of `black`, starting with flag `c0`. */
  function Scan(black: seq<bool>, c0: bool): (s: ScanState)
    ensures |s.recorded| <= |black|
    ensures forall k :: 0 <= k < |s.recorded| ==> s.recorded[k] < |black|
    ensures forall k, l :: 0 <= k < l < |s.recorded| ==> s.recorded[k] < s.recorded[l]
    decreases |black|
  {
    if black == [] then ScanState(c0, [])
    else Step(Scan(black[..|black| - 1], c0), |black| - 1, black[|black| - 1])
  }

  /**
   * Sample i starts a new run: its classification differs from the one
   * before it, where the sample before index 0 counts as classified !c0
   * (as not dark when the scan starts looking for a dark run).
   */
  predicate IsBoundary(black: seq<bool>, c0: bool, i: nat)
    requires i < |black|
  {
    if i == 0 then black[0] == c0 else black[i] != black[i - 1]
  }

  /** The flag ends as c0 exactly when an even number of samples was recorded. */
  lemma {:induction false} ScanParity(black: seq<bool>, c0: bool)
    ensures Scan(black, c0).checkColor == (c0 != (|Scan(black, c0).recorded| % 2 == 1))
    decreases |black|
  {
    if black != [] {
      ScanParity(black[..|black| - 1], c0);
    }
  }

  /** After a non-empty scan the flag looks for the opposite of the last classification. */
  lemma {:induction false} ScanFinalPhase(black: seq<bool>, c0: bool)
    ensures Scan(black, c0).checkColor == (if black == [] then c0 else !black[|black| - 1])
  {
    if black != [] {
      var n := |black| - 1;
      var prior := Scan(black[..n], c0);
      if black[n] != prior.checkColor {
        assert prior.checkColor == !black[n];
      }
    }
  }

  /** The recorded indices are exactly the boundaries of the classification sequence. */
  lemma {:induction false} ScanRecordsBoundaries(black: seq<bool>, c0: bool)
    ensures forall i :: 0 <= i < |black| ==> (i in Scan(black, c0).recorded <==> IsBoundary(black, c0, i))
    decreases |black|
  {
    if black != [] {
      var n := |black| - 1;
      var front := black[..n];
      ScanRecordsBoundaries(front, c0);
      ScanFinalPhase(front, c0);
      var prior := Scan(front, c0);
      forall i | 0 <= i < |black|
        ensures i in Scan(black, c0).recorded <==> IsBoundary(black, c0, i)
      {
        if i < n {
          assert IsBoundary(front, c0, i) == IsBoundary(black, c0, i);
          assert n !in prior.recorded;
        } else {
          assert n > 0 ==> front[n - 1] == black[n - 1];
          assert i !in prior.recorded;
        }
      }
    }
  }

  /**
   * The classifications at the recorded indices alternate c0, !c0, c0, ...:
   * from c0 = true, a dark start, a light end, a dark start, ...
   */
  lemma {:induction false} ScanAlternates(black: seq<bool>, c0: bool)
    ensures forall k :: 0 <= k < |Scan(black, c0).recorded| ==>
      black[Scan(black, c0).recorded[k]] == (c0 == (k % 2 == 0))
    decreases |black|
  {
    if black != [] {
      var n := |black| - 1;
      var front := black[..n];
      ScanAlternates(front, c0);
      ScanParity(front, c0);
      var prior := Scan(front, c0);
      var r := Scan(black, c0).recorded;
      forall k | 0 <= k < |r|
        ensures black[r[k]] == (c0 == (k % 2 == 0))
      {
        if k < |prior.recorded| {
          assert r[k] == prior.recorded[k];
          assert front[prior.recorded[k]] == black[r[k]];
        }
      }
    }
  }

  /** Looking for a dark run over samples none of which is dark records nothing and keeps the flag. */
  lemma {:induction false} ScanAllLight(black: seq<bool>)
    requires forall i :: 0 <= i < |black| ==> !black[i]
    ensures Scan(black, true) == ScanState(true, [])
    decreases |black|
  {
    if black != [] {
      ScanAllLight(black[..|black| - 1]);
    }
  }

  /**
   * Looking for the end of a dark run over light samples records the first
   * one only: the flag left false by an earlier scan makes the first light
   * sample a boundary.
   */
  lemma {:induction false} ScanLightFromOpenRun(black: seq<bool>)
    requires black != []
    requires forall i :: 0 <= i < |black| ==> !black[i]
    ensures Scan(black, false) == ScanState(true, [0])
    decreases |black|
  {
    if |black| > 1 {
      ScanLightFromOpenRun(black[..|black| - 1]);
    }
  }

  /** From c0 = true an odd number of records means a dark run reaches the last sample. */
  lemma ScanOddIffOpenRun(black: seq<bool>)
    ensures |Scan(black, true).recorded| % 2 == 1 <==> (black != [] && black[|black| - 1])
  {
    ScanParity(black, true);
    ScanFinalPhase(black, true);
  }

  /** Samples dark exactly on [lo, hi]. */
  function SingleRun(n: nat, lo: nat, hi: nat): (black: seq<bool>)
    requires lo <= hi < n
    ensures |black| == n
    ensures forall i :: 0 <= i < n ==> (black[i] <==> lo <= i <= hi)
  {
    seq(n, i => lo <= i <= hi)
  }

  /** The scan over the first m samples of a single dark run on [lo, hi]. */
  lemma {:induction false} SingleRunPrefix(n: nat, lo: nat, hi: nat, m: nat)
    requires lo <= hi < n && m <= n
    ensures Scan(SingleRun(n, lo, hi)[..m], true) ==
      if m <= lo then ScanState(true, [])
      else if m <= hi + 1 then ScanState(false, [lo])
      else ScanState(true, [lo, hi + 1])
  {
    if m > 0 {
      var black := SingleRun(n, lo, hi);
      assert black[..m][..m - 1] == black[..m - 1];
      SingleRunPrefix(n, lo, hi, m - 1);
    }
  }

  /**
   * A single dark run on [lo, hi] records its first index and the index after
   * its last, or only its first when it reaches the last sample.
   */
  lemma SingleRunRecords(n: nat, lo: nat, hi: nat)
    requires lo <= hi < n
    ensures Scan(SingleRun(n, lo, hi), true).recorded == if hi + 1 < n then [lo, hi + 1] else [lo]
  {
    SingleRunPrefix(n, lo, hi, n);
    assert SingleRun(n, lo, hi)[..n] == SingleRun(n, lo, hi);
  }
}
