/**
 One run of Contract Guardian on extracted text: blank text is not scanned;
 otherwise the rule table is applied and each finding's phrase is highlighted.
 When a phrase cannot be highlighted the run stops there; otherwise the
 findings are scored, the score is given a tier and the report is built.
 */
module Guardian {
  import opened Rules
  import opened Text
  import opened Scanner
  import opened Tiers
  import opened Reports
  import opened Highlight

  /** What one run produces: nothing, when there is no text to scan; a stop at
      the first phrase the highlighting step rejects, with no score, tier or
      report; or the findings with their score, tier and report. */
  datatype Outcome =
    | NothingToScan
    | Aborted(phrase: string)
    | Scanned(findings: seq<Finding>, score: nat, tier: Tier, report: string)

  /** Runs the engine on `text`, with `m` standing for the regular-expression engine. */
  method Analyze(text: string, m: Matcher) returns (outcome: Outcome)
    ensures outcome.NothingToScan? <==> Blank(text)
    ensures outcome.Aborted? <==>
              !Blank(text) && exists f :: f in ScanFindings(RedFlags, text, m) && !Highlightable(f.phrase)
    ensures outcome.Aborted? ==>
              var fs := ScanFindings(RedFlags, text, m);
              var k := FirstUnhighlightable(fs);
              k < |fs| && outcome.phrase == fs[k].phrase
    ensures outcome.Scanned? ==> outcome.findings == ScanFindings(RedFlags, text, m)
    ensures outcome.Scanned? ==> forall f :: f in outcome.findings ==> Highlightable(f.phrase)
    ensures outcome.Scanned? ==> outcome.score == TotalWeight(outcome.findings)
    ensures outcome.Scanned? ==> outcome.tier == TierOf(outcome.score)
    ensures outcome.Scanned? ==> outcome.report == Report(outcome.findings)
  {
    if Strip(text) == [] {
      outcome := NothingToScan;
    } else {
      var findings, score := Scan(RedFlags, text, m);
      var k := FirstUnhighlightable(findings);
      if k < |findings| {
        outcome := Aborted(findings[k].phrase);
      } else {
        var report := BuildReport(findings);
        outcome := Scanned(findings, score, TierOf(score), report);
      }
    }
  }

  /** The tier reports red flags exactly when something was found, and a
      scan with more than ten findings is always in the critical tier. */
  lemma TierReflectsFindings(fs: seq<Finding>)
    ensures TierOf(TotalWeight(fs)) == NoRedFlags <==> fs == []
    ensures |fs| > 10 ==> TierOf(TotalWeight(fs)) == CriticalRisk
  {
    TotalWeightBounds(fs);
  }
}
