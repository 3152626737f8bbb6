/** The progress percentage that a job shows: documented as 0 to 100, and exactly when it is. */
module Progress {
  import opened Seqs
  import opened Geometry
  import opened VideoProcessor
  import opened Jobs

  predicate WithinHundred(x: real) { 0.0 <= x <= 100.0 }

  // ----- one report -----

  /** Rounding to tenths forgives less than half a tenth; at the two ties it is for the rounding to say. */
  lemma RoundedRange(round: Rounding, x: real)
    ensures round(x) <= 100.0 <==> 10.0 * x < 1000.5 || (10.0 * x == 1000.5 && round(100.05) == 100.0)
    ensures round(x) >= 0.0 <==> 10.0 * x > -0.5 || (10.0 * x == -0.5 && round(-0.05) == 0.0)
  {
    TenthNear(x, round(x));
    TenthNear(100.05, round(100.05));
    TenthNear(-0.05, round(-0.05));
  }

  /** Tenths keep their distance from 100 and from 0. */
  lemma TenthNear(x: real, shown: real)
    requires NearestTenth(x, shown)
    ensures shown <= 100.0 || shown >= 100.1
    ensures shown >= 0.0 || shown <= -0.1
    ensures x == 100.05 ==> shown == 100.0 || shown == 100.1
    ensures x == -0.05 ==> shown == 0.0 || shown == -0.1
  {
    var n := (10.0 * shown).Floor;
    assert shown == n as real / 10.0;
  }

  lemma QuotientNegated(a: real, t: real)
    requires t != 0.0
    ensures a / t == -(a / -t)
  {
    assert (a / t) * t == a;
    assert (a / -t) * -t == a;
    assert (a / t + a / -t) * t == 0.0;
  }

  /** The guard a caller could check before the report: how far the frames may run beyond the declared length, or
      how large a nonsensical negative length must be, for the rounding to hide it. */
  predicate Plausible(round: Rounding, processed: nat, declared: int) {
    if declared == 0 then true
    else if declared > 0 then
      2000 * (processed - declared) < declared || (2000 * (processed - declared) == declared && round(100.05) == 100.0)
    else
      2000 * processed < -declared || (2000 * processed == -declared && round(-0.05) == 0.0)
  }

  lemma PositiveShare(round: Rounding, a: real, t: real)
    requires a >= 0.0 && t > 0.0
    ensures WithinHundred(round(a / t))
       <==> 10.0 * a < 1000.5 * t || (10.0 * a == 1000.5 * t && round(100.05) == 100.0)
  {
    var q := a / t;
    RoundedRange(round, q);
    TimesTen(a, t);
    QuotientOrder(10.0 * a, t, 1000.5);
    QuotientAtLeast(10.0 * a, t, 1000.5);
    QuotientAtLeast(a, t, 0.0);
  }

  lemma NegativeShare(round: Rounding, a: real, t: real)
    requires a >= 0.0 && t > 0.0
    ensures WithinHundred(round(-(a / t))) <==> 10.0 * a < 0.5 * t || (10.0 * a == 0.5 * t && round(-0.05) == 0.0)
  {
    var q := a / t;
    RoundedRange(round, -q);
    TimesTen(a, t);
    QuotientOrder(10.0 * a, t, 0.5);
    QuotientAtLeast(10.0 * a, t, 0.5);
    QuotientAtLeast(a, t, 0.0);
  }

  /** A report shows 0 to 100 percent exactly when it is plausible. */
  lemma PercentageInRangeIff(round: Rounding, processed: nat, declared: int)
    ensures WithinHundred(Percentage(round, processed, declared)) <==> Plausible(round, processed, declared)
  {
    hide ShowsPercentage, WithinHundred;
    if declared == 0 {
      NoneIsWithin();
    } else if declared > 0 {
      PositiveShare(round, 100.0 * processed as real, declared as real);
    } else {
      QuotientNegated(100.0 * processed as real, declared as real);
      NegativeShare(round, 100.0 * processed as real, -declared as real);
    }
  }

  lemma NoneIsWithin()
    ensures WithinHundred(0.0)
  {
  }

  lemma QuotientAtLeast(a: real, t: real, k: real)
    requires t > 0.0
    ensures a / t >= k <==> a >= k * t
  {
    QuotientOrder(-a, t, -k);
    QuotientOfNegated(a, t);
    assert -k * t == -(k * t);
  }

  lemma TimesTen(a: real, t: real)
    requires t > 0.0
    ensures 10.0 * a / t == 10.0 * (a / t)
  {
    assert 10.0 * (a / t) * t == 10.0 * a;
  }

  lemma QuotientOfNegated(a: real, t: real)
    requires t > 0.0
    ensures (-a) / t == -(a / t)
  {
    assert -(a / t) * t == -a;
  }

  /** Ten frames beyond 10000 declared ones show, ten beyond 30000 do not. */
  lemma OvershootShown(round: Rounding)
    ensures Percentage(round, 10010, 10000) == 100.1
    ensures Percentage(round, 30010, 30000) == 100.0
  {
    assert 100.0 * 10010.0 / 10000.0 == 100.1;
    assert 100.0 < 100.0 * 30010.0 / 30000.0 < 100.04;
    TenthOnly(100.1, Percentage(round, 10010, 10000), 1001);
    TenthOnly(100.0 * 30010.0 / 30000.0, Percentage(round, 30010, 30000), 1000);
  }

  /** Away from ties there is one nearest tenth. */
  lemma TenthOnly(x: real, shown: real, n: int)
    requires NearestTenth(x, shown) && -0.05 < n as real / 10.0 - x < 0.05
    ensures shown == n as real / 10.0
  {
    var m := (10.0 * shown).Floor;
    assert 10.0 * shown == m as real;
    WholeAndClose(m, n, 10.0 * shown - n as real);
  }

  lemma WholeAndClose(m: int, n: int, gap: real)
    requires gap == m as real - n as real && -1.0 < gap < 1.0
    ensures m == n
  {
  }

  // ----- all reports of a video -----

  ghost predicate AllPlausible(round: Rounding, reports: seq<(nat, int)>) {
    forall k | 0 <= k < |reports| :: Plausible(round, reports[k].0, reports[k].1)
  }

  lemma OneMoreReport(round: Rounding, reports: seq<(nat, int)>, r: (nat, int))
    ensures AllPlausible(round, reports + [r]) <==> AllPlausible(round, reports) && Plausible(round, r.0, r.1)
  {
    var after := reports + [r];
    if AllPlausible(round, after) {
      assert forall k | 0 <= k < |reports| :: after[k] == reports[k];
      assert after[|reports|] == r;
    }
  }

  lemma LastTen(n: nat)
    requires n > 0
    ensures n % 10 == 0 ==> n / 10 * 10 == n
    ensures n % 10 != 0 ==> n / 10 == (n - 1) / 10
    ensures (n - 1) / 10 * 10 <= n - 1
  {
  }

  /** The reports of a video are plausible exactly when the last multiple of ten that it reaches is. */
  lemma {:induction false} ReportsPlausibleIff(round: Rounding, declared: int, n: nat)
    ensures AllPlausible(round, ProgressReports(declared, n)) <==> Plausible(round, n / 10 * 10, declared)
  {
    hide AllPlausible, ProgressReports;
    if n == 0 {
      NoProgress(declared);
      NoReports(round);
    } else {
      ReportsPlausibleIff(round, declared, n - 1);
      LastTen(n);
      ProgressStep(declared, n);
      OneMoreReport(round, ProgressReports(declared, n - 1), (n, if declared != 0 then declared else n));
    }
  }

  lemma NoReports(round: Rounding)
    ensures AllPlausible(round, [])
  {
  }

  /** While a worker reports on a job, its row shows 0 to 100 percent at every moment exactly when the report of the
      last multiple of ten frames is plausible. */
  lemma ShownPercentageIff(round: Rounding, j: Job, declared: int, n: nat)
    requires WithinHundred(j.progressPct)
    ensures (forall m: nat | m <= |ProgressReports(declared, n)| ::
               WithinHundred(ProgressedAll(round, j, ProgressReports(declared, n)[..m]).progressPct))
       <==> Plausible(round, n / 10 * 10, declared)
  {
    hide ProgressReports, Percentage, Plausible, WithinHundred;
    ReportsPlausibleIff(round, declared, n);
    var reports := ProgressReports(declared, n);
    forall m: nat | m <= |reports|
      ensures m == 0 ==> ProgressedAll(round, j, reports[..m]) == j
      ensures m > 0 ==> (WithinHundred(ProgressedAll(round, j, reports[..m]).progressPct)
                         <==> Plausible(round, reports[m - 1].0, reports[m - 1].1))
    {
      if m > 0 {
        assert reports[..m][..m - 1] == reports[..m - 1];
        PercentageInRangeIff(round, reports[m - 1].0, reports[m - 1].1);
      }
    }
    if forall m: nat | m <= |reports| :: WithinHundred(ProgressedAll(round, j, reports[..m]).progressPct) {
      forall k | 0 <= k < |reports|
        ensures Plausible(round, reports[k].0, reports[k].1)
      {
        assert WithinHundred(ProgressedAll(round, j, reports[..k + 1]).progressPct);
      }
    }
  }

  // ----- frame numbers -----

  ghost predicate NeverOvershoots(reports: seq<(nat, int)>) {
    forall k | 0 <= k < |reports| :: reports[k].0 <= reports[k].1
  }

  lemma OneMoreNumber(reports: seq<(nat, int)>, r: (nat, int))
    ensures NeverOvershoots(reports + [r]) <==> NeverOvershoots(reports) && r.0 <= r.1
  {
    var after := reports + [r];
    if NeverOvershoots(after) {
      assert forall k | 0 <= k < |reports| :: after[k] == reports[k];
      assert after[|reports|] == r;
    }
  }

  lemma NothingOvershoots()
    ensures NeverOvershoots([])
  {
  }

  /** Reports overshoot the declared length exactly when a multiple of ten beyond it was reached. */
  lemma {:induction false} OvershootIff(declared: int, n: nat)
    ensures NeverOvershoots(ProgressReports(declared, n)) <==> declared == 0 || n < 10 || n / 10 * 10 <= declared
  {
    hide NeverOvershoots, ProgressReports;
    if n == 0 {
      NoProgress(declared);
      NothingOvershoots();
    } else {
      OvershootIff(declared, n - 1);
      LastTen(n);
      ProgressStep(declared, n);
      OneMoreNumber(ProgressReports(declared, n - 1), (n, if declared != 0 then declared else n));
    }
  }

  // ----- which frames are reported -----

  ghost predicate ReportedAfter(reports: seq<(nat, int)>, m: nat) { exists k :: 0 <= k < |reports| && reports[k].0 == m }

  /** In ascending order, and each with the declared length, or with its own frame number when none is declared. */
  ghost predicate ReportsInOrder(reports: seq<(nat, int)>, declared: int, n: nat) {
    && (forall k | 0 <= k < |reports| :: reports[k].0 <= n && reports[k].1 == if declared != 0 then declared else reports[k].0)
    && (forall k, l | 0 <= k < l < |reports| :: reports[k].0 < reports[l].0)
  }

  lemma OneMoreNumbered(reports: seq<(nat, int)>, r: (nat, int), m: nat)
    ensures ReportedAfter(reports + [r], m) <==> ReportedAfter(reports, m) || r.0 == m
  {
    var after := reports + [r];
    assert after[|reports|] == r;
    if ReportedAfter(reports, m) {
      var k :| 0 <= k < |reports| && reports[k].0 == m;
      assert after[k].0 == m;
    }
  }

  /** The reports of a video are made after every tenth frame and after the declared last one, in order, each once. */
  lemma {:induction false} ReportsAre(declared: int, n: nat, m: nat)
    ensures ReportedAfter(ProgressReports(declared, n), m) <==> 1 <= m <= n && (m % 10 == 0 || m == declared)
    ensures ReportsInOrder(ProgressReports(declared, n), declared, n)
  {
    hide ProgressReports, ReportedAfter;
    if n == 0 {
      NoProgress(declared);
      assert !ReportedAfter([], m) by { NoneReported(m); }
    } else {
      ReportsAre(declared, n - 1, m);
      ProgressStep(declared, n);
      OneMoreNumbered(ProgressReports(declared, n - 1), (n, if declared != 0 then declared else n), m);
    }
  }

  lemma NoneReported(m: nat)
    ensures !ReportedAfter([], m)
  {
  }

  /** A video that is as long as it declares ends with 100 percent, whatever its length. */
  lemma FullVideoEndsAtHundred(round: Rounding, j: Job, declared: nat)
    requires declared > 0
    ensures var row := ProgressedAll(round, j, ProgressReports(declared, declared));
            row.progressPct == 100.0 && row.processedFrames == declared && row.totalFrames == Some(declared)
  {
    hide ShowsPercentage, NearestTenth;
    ProgressStep(declared, declared);
    AllOfIt(declared, Percentage(round, declared, declared));
  }

  lemma AllOfIt(n: nat, shown: real)
    requires n > 0 && ShowsPercentage(n, n, shown)
    ensures shown == 100.0
  {
    hide NearestTenth;
    QuotientIs(100.0 * n as real, n as real, 100.0);
    WholeTenth(100.0, shown);
  }

  lemma QuotientIs(a: real, t: real, k: real)
    requires t > 0.0 && a == k * t
    ensures a / t == k
  {
    QuotientOrder(a, t, k);
  }

  lemma WholeTenth(x: real, shown: real)
    requires NearestTenth(x, shown) && x.Floor as real == x
    ensures shown == x
  {
    var n := (10.0 * shown).Floor;
    assert n == 10 * x.Floor;
  }
}
