/**
 The reviewer-statistics ledger of one company.  Each submitted report gets one score row;
 when the fused verdict of an artifact is final, its uncredited rows are credited to their
 reviewers.  Accuracies are exact thousandths.
 */
module ReviewLedger {
  import opened Basics

  datatype Verdict = Pass | NeedsChanges | Failed

  datatype Report = Report(id: nat, artifact: nat, reviewer: nat, verdict: Verdict, issues: nat)

  /** `contribution` is 1000 for a report that agreed with the final verdict, else 0. */
  datatype ScoreRow = ScoreRow(report: Report, credited: bool, contribution: nat)

  datatype Stats = Stats(reviewsCompleted: nat, reviewsWithIssues: nat, accuracy: nat, sampleCount: nat)

  datatype Ledger = Ledger(scores: seq<ScoreRow>, stats: map<nat, Stats>)

  // ---- Accuracy ---------------------------------------------------------------------------

  /** `round(0.7 * accuracy + 0.3 * contribution, 3)`, halves away from zero, in thousandths. */
  function Blend(accuracy: nat, contribution: nat): nat {
    (7 * accuracy + 3 * contribution + 5) / 10
  }

  /** Below 1.000 for good, and never back to 0.000. */
  lemma {:induction false} BlendBounds(a: nat, agrees: bool)
    requires a <= 999
    ensures Blend(a, if agrees then 1000 else 0) <= 999
    ensures Blend(a, if agrees then 1000 else 0) == 0 <==> a == 0 && !agrees
  {
  }

  /** Agreement raises an accuracy until 0.999, disagreement lowers it until 0.001, and there each stays. */
  lemma {:induction false} BlendMoves(a: nat)
    requires a <= 999
    ensures a < 999 ==> a < Blend(a, 1000) <= 999
    ensures 1 < a ==> 1 <= Blend(a, 0) < a
    ensures Blend(999, 1000) == 999 && Blend(1, 0) == 1 && Blend(0, 0) == 0
  {
  }

  // ---- The two updates --------------------------------------------------------------------

  predicate Scored(scores: seq<ScoreRow>, report: nat) {
    exists i :: 0 <= i < |scores| && scores[i].report.id == report
  }

  /** `_record_score`: a report that already has a row is left alone. */
  function Record(l: Ledger, report: Report): Ledger {
    if Scored(l.scores, report.id) then l else l.(scores := l.scores + [ScoreRow(report, false, 0)])
  }

  predicate Open(row: ScoreRow, artifact: nat) {
    row.report.artifact == artifact && !row.credited
  }

  function StatsOf(stats: map<nat, Stats>, reviewer: nat): Stats {
    if reviewer in stats then stats[reviewer] else Stats(0, 0, 0, 0)
  }

  function CreditedRow(row: ScoreRow, final: Verdict): ScoreRow {
    row.(credited := true, contribution := if row.report.verdict == final then 1000 else 0)
  }

  function Raised(s: Stats, row: ScoreRow): Stats {
    Stats(s.reviewsCompleted + 1, s.reviewsWithIssues + (if row.report.issues > 0 then 1 else 0),
          Blend(s.accuracy, row.contribution), s.sampleCount + 1)
  }

  function CreditOne(l: Ledger, i: nat, final: Verdict): Ledger
    requires i < |l.scores|
  {
    var row := CreditedRow(l.scores[i], final);
    Ledger(l.scores[i := row], l.stats[row.report.reviewer := Raised(StatsOf(l.stats, row.report.reviewer), row)])
  }

  /** `_finalize_scores` over the first `n` rows. */
  function CreditUpTo(l: Ledger, artifact: nat, final: Verdict, n: nat): (r: Ledger)
    requires n <= |l.scores|
    ensures |r.scores| == |l.scores|
    ensures forall i :: n <= i < |l.scores| ==> r.scores[i] == l.scores[i]
  {
    if n == 0 then l
    else
      var before := CreditUpTo(l, artifact, final, n - 1);
      if Open(l.scores[n - 1], artifact) then CreditOne(before, n - 1, final) else before
  }

  function Finalize(l: Ledger, artifact: nat, final: Verdict): Ledger {
    CreditUpTo(l, artifact, final, |l.scores|)
  }

  /** A submission: the report found for the assignment, if any, and the final verdict, if the fusion is final. */
  datatype Submission = Submission(report: Option<Report>, artifact: nat, final: Option<Verdict>)

  function Submit(l: Ledger, s: Submission): Ledger {
    var recorded := if s.report.Some? then Record(l, s.report.value) else l;
    if s.final.Some? then Finalize(recorded, s.artifact, s.final.value) else recorded
  }

  function RunAll(submissions: seq<Submission>): Ledger {
    if submissions == [] then Ledger([], map[])
    else Submit(RunAll(submissions[..|submissions| - 1]), submissions[|submissions| - 1])
  }

  // ---- Conservation -----------------------------------------------------------------------

  function Tally(scores: seq<ScoreRow>, p: ScoreRow -> bool): nat {
    if scores == [] then 0
    else Tally(scores[..|scores| - 1], p) + if p(scores[|scores| - 1]) then 1 else 0
  }

  function CreditedTo(r: nat): ScoreRow -> bool {
    (row: ScoreRow) => row.credited && row.report.reviewer == r
  }

  function WithIssuesTo(r: nat): ScoreRow -> bool {
    (row: ScoreRow) => row.credited && row.report.reviewer == r && row.report.issues > 0
  }

  function AgreedBy(r: nat): ScoreRow -> bool {
    (row: ScoreRow) => row.credited && row.report.reviewer == r && row.contribution > 0
  }

  /** Reviewer `r`'s statistics are what the credited rows add up to. */
  ghost predicate Balanced(l: Ledger, r: nat) {
    var s := StatsOf(l.stats, r);
    && s.sampleCount == s.reviewsCompleted == Tally(l.scores, CreditedTo(r))
    && s.reviewsWithIssues == Tally(l.scores, WithIssuesTo(r))
    && s.accuracy <= 999 && (s.accuracy == 0 <==> Tally(l.scores, AgreedBy(r)) == 0)
    && (r in l.stats <==> Tally(l.scores, CreditedTo(r)) > 0)
  }

  ghost predicate OneRowEach(scores: seq<ScoreRow>) {
    forall i, j :: 0 <= i < j < |scores| ==> scores[i].report.id != scores[j].report.id
  }

  /** The ledger is conserved for reviewer `r`. */
  ghost predicate Conserved(l: Ledger, r: nat) {
    OneRowEach(l.scores) && Balanced(l, r)
  }

  lemma {:induction false} TallyAppend(scores: seq<ScoreRow>, row: ScoreRow, p: ScoreRow -> bool)
    ensures Tally(scores + [row], p) == Tally(scores, p) + if p(row) then 1 else 0
  {
    assert (scores + [row])[..|scores|] == scores;
  }

  lemma {:induction false} TallyReplace(scores: seq<ScoreRow>, i: nat, row: ScoreRow, p: ScoreRow -> bool)
    requires i < |scores|
    ensures Tally(scores[i := row], p) + (if p(scores[i]) then 1 else 0) == Tally(scores, p) + if p(row) then 1 else 0
  {
    var n := |scores| - 1;
    if i == n {
      assert scores[i := row][..n] == scores[..n];
    } else {
      assert scores[i := row][..n] == scores[..n][i := row];
      TallyReplace(scores[..n], i, row, p);
    }
  }

  lemma {:induction false} RecordKeeps(l: Ledger, report: Report, r: nat)
    requires Conserved(l, r)
    ensures Conserved(Record(l, report), r)
  {
    var added := ScoreRow(report, false, 0);
    TallyAppend(l.scores, added, CreditedTo(r));
    TallyAppend(l.scores, added, WithIssuesTo(r));
    TallyAppend(l.scores, added, AgreedBy(r));
  }

  /** Crediting a row counts once, for its own reviewer. */
  lemma {:induction false} TalliesAfterCredit(scores: seq<ScoreRow>, i: nat, final: Verdict, r: nat)
    requires i < |scores| && !scores[i].credited
    ensures var row := CreditedRow(scores[i], final);
            var scores' := scores[i := row];
            var mine := if row.report.reviewer == r then 1 else 0;
            && Tally(scores', CreditedTo(r)) == Tally(scores, CreditedTo(r)) + mine
            && Tally(scores', WithIssuesTo(r))
               == Tally(scores, WithIssuesTo(r)) + (if row.report.issues > 0 then mine else 0)
            && Tally(scores', AgreedBy(r))
               == Tally(scores, AgreedBy(r)) + (if row.report.verdict == final then mine else 0)
  {
    var row := CreditedRow(scores[i], final);
    TallyReplace(scores, i, row, CreditedTo(r));
    TallyReplace(scores, i, row, WithIssuesTo(r));
    TallyReplace(scores, i, row, AgreedBy(r));
  }

  lemma {:induction false} CreditKeepsBalance(l: Ledger, i: nat, final: Verdict, r: nat)
    requires i < |l.scores| && !l.scores[i].credited && Balanced(l, r)
    ensures Balanced(CreditOne(l, i, final), r)
  {
    var row := CreditedRow(l.scores[i], final);
    TalliesAfterCredit(l.scores, i, final, r);
    if row.report.reviewer == r {
      BlendBounds(StatsOf(l.stats, r).accuracy, row.report.verdict == final);
      assert StatsOf(CreditOne(l, i, final).stats, r) == Raised(StatsOf(l.stats, r), row);
    } else {
      assert StatsOf(CreditOne(l, i, final).stats, r) == StatsOf(l.stats, r);
    }
  }

  lemma {:induction false} CreditUpToKeeps(l: Ledger, artifact: nat, final: Verdict, n: nat, r: nat)
    requires Conserved(l, r) && n <= |l.scores|
    ensures Conserved(CreditUpTo(l, artifact, final, n), r)
  {
    if n > 0 {
      CreditUpToKeeps(l, artifact, final, n - 1, r);
      if Open(l.scores[n - 1], artifact) {
        CreditKeepsBalance(CreditUpTo(l, artifact, final, n - 1), n - 1, final, r);
      }
    }
  }

  lemma {:induction false} SubmitKeeps(l: Ledger, s: Submission, r: nat)
    requires Conserved(l, r)
    ensures Conserved(Submit(l, s), r)
  {
    var recorded := if s.report.Some? then Record(l, s.report.value) else l;
    if s.report.Some? {
      RecordKeeps(l, s.report.value, r);
    }
    if s.final.Some? {
      CreditUpToKeeps(recorded, s.artifact, s.final.value, |recorded.scores|, r);
    }
  }

  /**
   Conservation over every run and for every reviewer: each report has one row and is
   credited at most once, the counters equal the credited rows, and an accuracy is positive
   exactly when some credited report agreed with its final verdict, never above 0.999.
   */
  lemma {:induction false} LedgerConserved(submissions: seq<Submission>, r: nat)
    ensures Conserved(RunAll(submissions), r)
  {
    if submissions != [] {
      LedgerConserved(submissions[..|submissions| - 1], r);
      SubmitKeeps(RunAll(submissions[..|submissions| - 1]), submissions[|submissions| - 1], r);
    }
  }

  // ---- Crediting is final and idempotent --------------------------------------------------

  /** What finalising does to each row: exactly the open rows of the artifact are credited. */
  lemma {:induction false} CreditRows(l: Ledger, artifact: nat, final: Verdict, n: nat, i: nat)
    requires i < n <= |l.scores|
    ensures CreditUpTo(l, artifact, final, n).scores[i]
            == if Open(l.scores[i], artifact) then CreditedRow(l.scores[i], final) else l.scores[i]
  {
    if i < n - 1 {
      CreditRows(l, artifact, final, n - 1, i);
    }
  }

  lemma {:induction false} NothingOpenNothingDone(l: Ledger, artifact: nat, final: Verdict, n: nat)
    requires n <= |l.scores| && forall i :: 0 <= i < n ==> !Open(l.scores[i], artifact)
    ensures CreditUpTo(l, artifact, final, n) == l
  {
    if n > 0 {
      NothingOpenNothingDone(l, artifact, final, n - 1);
    }
  }

  /** A replayed submission changes nothing, whatever the second fusion says. */
  lemma {:induction false} ReplayChangesNothing(l: Ledger, s: Submission, again: Option<Verdict>)
    requires s.final.Some?
    ensures Submit(Submit(l, s), s.(final := again)) == Submit(l, s)
  {
    var recorded := if s.report.Some? then Record(l, s.report.value) else l;
    var once := Submit(l, s);
    forall i | 0 <= i < |recorded.scores|
      ensures once.scores[i].report == recorded.scores[i].report && !Open(once.scores[i], s.artifact)
    {
      CreditRows(recorded, s.artifact, s.final.value, |recorded.scores|, i);
    }
    if s.report.Some? {
      var k :| 0 <= k < |recorded.scores| && recorded.scores[k].report.id == s.report.value.id;
      assert once.scores[k].report.id == s.report.value.id;
    }
    if again.Some? {
      NothingOpenNothingDone(once, s.artifact, again.value, |once.scores|);
    }
  }

  /** Whatever is submitted later, a credited row keeps its verdict and its contribution. */
  lemma {:induction false} CreditIsFinal(before: seq<Submission>, later: seq<Submission>, i: nat)
    requires i < |RunAll(before).scores| && RunAll(before).scores[i].credited
    ensures i < |RunAll(before + later).scores| && RunAll(before + later).scores[i] == RunAll(before).scores[i]
  {
    if later == [] {
      assert before + later == before;
    } else {
      var n := |later| - 1;
      assert (before + later)[..|before| + n] == before + later[..n];
      CreditIsFinal(before, later[..n], i);
      var l, s := RunAll(before + later[..n]), later[n];
      var recorded := if s.report.Some? then Record(l, s.report.value) else l;
      if s.final.Some? {
        CreditRows(recorded, s.artifact, s.final.value, |recorded.scores|, i);
      }
    }
  }

  // ---- What a submission achieves ---------------------------------------------------------

  /** The blend is seven parts of the old accuracy and three of the contribution, to the nearest thousandth. */
  lemma {:induction false} BlendRounds(a: nat, c: nat)
    ensures -5 < 10 * Blend(a, c) - (7 * a + 3 * c) <= 5
  {
  }

  /** The rows a submission works on: the old ones, and one for a report that had none. */
  ghost function RowsSeen(l: Ledger, s: Submission): seq<ScoreRow> {
    if s.report.Some? && forall i :: 0 <= i < |l.scores| ==> l.scores[i].report.id != s.report.value.id
    then l.scores + [ScoreRow(s.report.value, false, 0)] else l.scores
  }

  /** The row after the fusion: credited with 1000 or 0 if the artifact is decided and it was not credited before. */
  ghost function RowAfter(row: ScoreRow, s: Submission): ScoreRow {
    if s.final.Some? && row.report.artifact == s.artifact && !row.credited
    then ScoreRow(row.report, true, if row.report.verdict == s.final.value then 1000 else 0)
    else row
  }

  /** Every row after a submission. */
  lemma {:induction false} SubmitRows(l: Ledger, s: Submission, i: nat)
    requires i < |RowsSeen(l, s)|
    ensures |Submit(l, s).scores| == |RowsSeen(l, s)|
    ensures Submit(l, s).scores[i] == RowAfter(RowsSeen(l, s)[i], s)
  {
    var recorded := if s.report.Some? then Record(l, s.report.value) else l;
    assert recorded.scores == RowsSeen(l, s);
    if s.final.Some? {
      CreditRows(recorded, s.artifact, s.final.value, |recorded.scores|, i);
    }
  }

  /** After a final fusion no row of the artifact is left uncredited, the submitted report's included. */
  lemma {:induction false} FinalFusionCreditsEverything(l: Ledger, s: Submission, i: nat)
    requires s.final.Some? && i < |Submit(l, s).scores|
    ensures Submit(l, s).scores[i].report.artifact == s.artifact ==> Submit(l, s).scores[i].credited
    ensures s.report.Some? ==> exists k :: 0 <= k < |Submit(l, s).scores|
                                           && Submit(l, s).scores[k].report.id == s.report.value.id
  {
    var rows := RowsSeen(l, s);
    assert |Submit(l, s).scores| == |rows| by {
      var recorded := if s.report.Some? then Record(l, s.report.value) else l;
      assert recorded.scores == rows;
    }
    SubmitRows(l, s, i);
    if s.report.Some? {
      var k :| 0 <= k < |rows| && rows[k].report.id == s.report.value.id;
      SubmitRows(l, s, k);
    }
  }

  /** The reports of reviewer `r` on the artifact that the first `n` rows hold uncredited, in order. */
  ghost function Awaiting(rows: seq<ScoreRow>, n: nat, artifact: nat, r: nat): seq<Report>
    requires n <= |rows|
  {
    if n == 0 then []
    else
      var before, row := Awaiting(rows, n - 1, artifact, r), rows[n - 1];
      if row.report.artifact == artifact && row.report.reviewer == r && !row.credited then before + [row.report]
      else before
  }

  /** Statistics after those reports are judged one by one. */
  ghost function Judged(st: Stats, reports: seq<Report>, final: Verdict): Stats {
    if reports == [] then st
    else
      var before, last := Judged(st, reports[..|reports| - 1], final), reports[|reports| - 1];
      Stats(before.reviewsCompleted + 1, before.reviewsWithIssues + (if last.issues > 0 then 1 else 0),
            (7 * before.accuracy + (if last.verdict == final then 3005 else 5)) / 10, before.sampleCount + 1)
  }

  lemma {:induction false} JudgedMore(st: Stats, reports: seq<Report>, last: Report, final: Verdict)
    ensures Judged(st, reports + [last], final)
            == Raised(Judged(st, reports, final), CreditedRow(ScoreRow(last, false, 0), final))
  {
    assert (reports + [last])[..|reports|] == reports;
  }

  lemma {:induction false} CreditOneJudges(l: Ledger, i: nat, final: Verdict, r: nat)
    requires i < |l.scores| && !l.scores[i].credited
    ensures
      var report := l.scores[i].report;
      StatsOf(CreditOne(l, i, final).stats, r)
        == if report.reviewer == r
           then Raised(StatsOf(l.stats, r), CreditedRow(ScoreRow(report, false, 0), final)) else StatsOf(l.stats, r)
  {
  }

  lemma {:induction false} CreditJudges(l: Ledger, artifact: nat, final: Verdict, n: nat, r: nat)
    requires n <= |l.scores|
    ensures StatsOf(CreditUpTo(l, artifact, final, n).stats, r)
            == Judged(StatsOf(l.stats, r), Awaiting(l.scores, n, artifact, r), final)
  {
    if n > 0 {
      CreditJudges(l, artifact, final, n - 1, r);
      if Open(l.scores[n - 1], artifact) {
        CreditOneJudges(CreditUpTo(l, artifact, final, n - 1), n - 1, final, r);
        JudgedMore(StatsOf(l.stats, r), Awaiting(l.scores, n - 1, artifact, r), l.scores[n - 1].report, final);
      }
    }
  }

  /**
   A submission changes the statistics of a reviewer exactly by judging, in row order, the
   uncredited reports the decided artifact has from that reviewer.
   */
  lemma {:induction false} SubmitJudges(l: Ledger, s: Submission, r: nat)
    ensures
      var rows := RowsSeen(l, s);
      StatsOf(Submit(l, s).stats, r)
        == if s.final.Some?
           then Judged(StatsOf(l.stats, r), Awaiting(rows, |rows|, s.artifact, r), s.final.value)
           else StatsOf(l.stats, r)
  {
    var recorded := if s.report.Some? then Record(l, s.report.value) else l;
    assert recorded.scores == RowsSeen(l, s) && recorded.stats == l.stats;
    if s.final.Some? {
      CreditJudges(recorded, s.artifact, s.final.value, |recorded.scores|, r);
    }
  }

  /** The first report of a reviewer, agreeing with the final verdict, gives an accuracy of 0.300. */
  lemma {:induction false} FirstAgreement(report: Report, final: Verdict)
    requires report.verdict == final
    ensures StatsOf(Submit(Ledger([], map[]), Submission(Some(report), report.artifact, Some(final))).stats,
                    report.reviewer)
            == Stats(1, if report.issues > 0 then 1 else 0, 300, 1)
  {
    var l, s := Ledger([], map[]), Submission(Some(report), report.artifact, Some(final));
    SubmitJudges(l, s, report.reviewer);
    assert RowsSeen(l, s) == [ScoreRow(report, false, 0)];
    assert Awaiting(RowsSeen(l, s), 1, report.artifact, report.reviewer)
        == Awaiting(RowsSeen(l, s), 0, report.artifact, report.reviewer) + [report] == [report];
    assert Judged(StatsOf(l.stats, report.reviewer), [report][..0], final) == Stats(0, 0, 0, 0);
  }

  // ---- The service ------------------------------------------------------------------------

  class ReviewAggregation {
    var scores: seq<ScoreRow>
    var stats: map<nat, Stats>

    constructor ()
      ensures View() == RunAll([])
    {
      scores, stats := [], map[];
    }

    ghost function View(): Ledger
      reads this
    {
      Ledger(scores, stats)
    }

    method RecordScore(report: Report)
      modifies this`scores
      ensures View() == Record(old(View()), report)
    {
      if !Scored(scores, report.id) {
        scores := scores + [ScoreRow(report, false, 0)];
      }
    }

    /** `INSERT OR IGNORE` of an empty row, then the two updates. */
    method CreditRow(i: nat, final: Verdict)
      requires i < |scores|
      modifies this
      ensures View() == CreditOne(old(View()), i, final)
    {
      var row, reviewer := CreditedRow(scores[i], final), scores[i].report.reviewer;
      if reviewer !in stats {
        stats := stats[reviewer := Stats(0, 0, 0, 0)];
      }
      assert stats[reviewer] == StatsOf(old(stats), reviewer);
      stats := stats[reviewer := Raised(stats[reviewer], row)];
      assert stats == old(stats)[reviewer := Raised(StatsOf(old(stats), reviewer), row)];
      scores := scores[i := row];
    }

    method FinalizeScores(artifact: nat, final: Verdict)
      modifies this
      ensures View() == Finalize(old(View()), artifact, final)
    {
      var rows := scores;
      for i := 0 to |rows|
        invariant |scores| == |rows| && View() == CreditUpTo(old(View()), artifact, final, i)
      {
        if rows[i].report.artifact == artifact && !rows[i].credited {
          CreditRow(i, final);
        }
      }
    }

    /** `on_report_submitted`: record, then credit when the fused decision is `pass` or `exhausted`. */
    method OnReportSubmitted(s: Submission)
      modifies this
      ensures View() == Submit(old(View()), s)
    {
      if s.report.Some? {
        RecordScore(s.report.value);
      }
      if s.final.Some? {
        FinalizeScores(s.artifact, s.final.value);
      }
    }
  }
}
