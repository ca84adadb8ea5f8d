# Contract Guardian red-flag engine, in Dafny

Contract Guardian scans contract text for "red flag" clauses. A fixed rule
table maps each category (One-Sided Control, Auto-Renewal Trap, No Liability,
Forced Arbitration, Hidden Fees, No Warranty, Vague = They Win) to its regular
expressions, a plain-English explanation and a risk level. Every match of every
pattern becomes a finding. Every finding adds the weight of its risk level to a
score: medium 3, high 6, critical 10. The score is mapped to a tier, and a
plain-text report lists the findings. Text that is empty or whitespace-only is
not scanned. Each match is also highlighted by a `re.sub` whose replacement
string embeds the matched phrase; a phrase that this replacement string cannot
hold (a backslash escape Python's template syntax rejects) makes `re.sub` raise,
and the run stops before the tier and the report.

This project models that engine as pure functions over immutable datatypes and
proves its properties. The regular-expression engine (`re.finditer` with
`re.IGNORECASE`) is not modelled. Every scan takes a `Matcher` parameter: a
function from a pattern and the text to the matched substrings, left to right.
All properties are stated relative to that matcher.

Files, one module each:

- `rules.dfy` (`Rules`): risk levels, the weight table and the rule table `RedFlags`, in its iteration order.
- `text.dfy` (`Text`): Python's `str.isspace` and `str.strip()`, and `Blank`.
- `scan.dfy` (`Scanner`): findings, the reference definitions of the scan and the score, the three scan loops as methods, and the scan properties.
- `tier.dfy` (`Tiers`): the tier step function.
- `report.dfy` (`Reports`): the report text and the loop that builds it.
- `highlight.dfy` (`Highlight`): which matched phrases the highlighting step's replacement string can hold, following the replacement-template parser of Python 3.12's `re` module.
- `app.dfy` (`Guardian`): one run, from the blank-text guard through the stop at an unhighlightable phrase to the report.

The reference definitions (`ScanFindings`, `TotalWeight`, `Lines`) peel off the
last element. That is the order in which the application's loops extend their
results, so each loop is proved equal to its reference definition. The
application's three nested scan loops share one findings list and one score.
The model gives each loop level its own method (`Scan`, `ScanCategory`,
`ScanMatches`), and each caller appends its callee's findings and adds its
weight. The resulting list and score are the same. The risk levels are a
datatype rather than the strings `"medium"`, `"high"` and `"critical"`, so a
risk level outside the weight table cannot be written.

## Model

| member | source | states |
|---|---|---|
| Rules.Weight | streamlit_app.py:49-56 | The weight lookup is total, so every risk level is a key of the weight table. Medium weighs 3, high 6, critical 10, and every weight is positive. |
| Rules.WeightFollowsSeverity | streamlit_app.py:49 | A strictly more severe risk level has a strictly larger weight, and different levels have different weights. |
| Rules.RedFlagsShape | streamlit_app.py:13-21 | The table has seven categories with distinct names, each with at least one pattern. Their risk levels in iteration order are high, high, critical, critical, high, medium, medium. |
| Text.TrimLeft | streamlit_app.py:45 | The result is the suffix of the input left after removing only whitespace, and it does not start with whitespace. |
| Text.TrimRight | streamlit_app.py:45 | The result is the prefix of the input left after removing only whitespace, and it does not end with whitespace. |
| Text.Strip | streamlit_app.py:45 | `strip()` gives the empty string exactly when every character is Python whitespace. A non-empty result starts and ends with a non-whitespace character. |
| Text.IsSpaceAscii | streamlit_app.py:45 | On ASCII, the whitespace `strip()` removes is exactly tab, line feed, vertical tab, form feed, carriage return, the four information separators U+001C..U+001F and the space. `Text.IsSpace` also holds the non-ASCII Unicode White_Space characters. |
| Text.Blank | streamlit_app.py:45 | Text counts as blank, and so is not scanned, exactly when every character is whitespace. |
| Scanner.MatchFindings | streamlit_app.py:53-54 | A pattern gives exactly as many findings as it has matches. The k-th finding comes from the k-th match: it copies the category's name, explanation and risk level, and its phrase is the matched text. |
| Scanner.PatternFindings | streamlit_app.py:52-54 | The findings of a category's patterns number as many as those patterns' matches. Each one carries the category's name, explanation and risk level. |
| Scanner.CategoryFindings | streamlit_app.py:51-54 | A category gives one finding per match of its own patterns, each carrying the category's name, explanation and risk level. |
| Scanner.ScanFindings | streamlit_app.py:51-54 | The scan gives one finding per match of any pattern of the table. |
| Scanner.TotalWeight | streamlit_app.py:48-56 | The score of a list of findings is zero exactly when the list is empty. |
| Scanner.Scan | streamlit_app.py:46-56 | The nested loops produce the reference findings: categories in order, then patterns, then matches. The final score equals the summed weight of those findings. |
| Scanner.ScanCategory | streamlit_app.py:52-56 | The pattern loop appends the category's findings in pattern order and keeps the score equal to the summed weight. |
| Scanner.ScanMatches | streamlit_app.py:53-56 | The match loop appends one finding per match in match order and adds the category's weight once per match. |
| Scanner.TotalWeightAppend | streamlit_app.py:48-56 | The score is additive: the findings of `a + b` weigh the weight of `a` plus the weight of `b`. |
| Scanner.TotalWeightMonotone | streamlit_app.py:56 | Appending findings never decreases the score. |
| Scanner.TotalWeightBounds | streamlit_app.py:49-56 | The score lies between 3 and 10 times the number of findings. It is zero exactly when there are no findings. |
| Scanner.ScanFindingsAppend | streamlit_app.py:51 | Findings come in category order. Scanning with the categories `t1 + t2` gives the findings of `t1` followed by those of `t2`. |
| Scanner.PatternFindingsAppend | streamlit_app.py:52 | Within a category, findings come in pattern order. The patterns `p1 + p2` give the findings of `p1` followed by those of `p2`. |
| Scanner.SinglePatternFindings | streamlit_app.py:53-54 | One pattern gives exactly as many findings as it has matches. The k-th finding is built from the k-th match. |
| Scanner.PatternFindingsCount | streamlit_app.py:52-56 | A category's findings number as many as its patterns' matches. They weigh the category's weight times that number. |
| Scanner.MatchFindingsWeight | streamlit_app.py:53-56 | The findings of one pattern weigh the category's weight times the number of matches. |
| Scanner.ScanCounts | streamlit_app.py:51-56 | The scan gives one finding per match over the whole table. The score is the sum, over categories, of the category's weight times its number of matches. |
| Scanner.ScoreMonotoneInMatches | streamlit_app.py:51-56 | If every table pattern has at least as many matches in the second text, the second text's score is at least the first text's score. |
| Scanner.ScanFindingsFromRules | streamlit_app.py:54 | Every finding copies the name, explanation and risk level of some table category. Its phrase is a match of one of that category's patterns. |
| Scanner.ScanUsesOnlyTablePatterns | streamlit_app.py:46-56 | The scan depends only on the text and the table's patterns. Matchers that agree on those patterns give the same findings. |
| Tiers.TierOf | streamlit_app.py:64-71 | A score gets no red flags exactly when it is 0, and the critical tier exactly when it is above 30. |
| Tiers.TierMonotone | streamlit_app.py:64-71 | A higher score never gives a less severe tier. |
| Tiers.TierIntervals | streamlit_app.py:64-71 | The tier is none exactly at 0, low-medium exactly on 1..12, high exactly on 13..30, and critical exactly from 31 up. |
| Tiers.TierBoundaries | streamlit_app.py:64-71 | The boundary values map as follows: 0 to none, 1 and 12 to low-medium, 13 and 30 to high, 31 to critical. |
| Guardian.TierReflectsFindings | streamlit_app.py:56-71 | The tier is "no red flags" exactly when there are no findings. More than ten findings always give the critical tier. |
| Reports.Line | streamlit_app.py:83 | Each finding's report line is non-empty and ends with a line break. |
| Reports.Lines | streamlit_app.py:82-83 | The finding lines are empty exactly when there are no findings, and otherwise end with a line break. |
| Reports.Report | streamlit_app.py:81-83 | The report always starts with the header `# Contract Guardian Report` and a blank line. It is exactly the header when there are no findings, and only then. |
| Reports.BuildReport | streamlit_app.py:81-83 | The loop that appends one line per finding to the header builds exactly the report. |
| Reports.LinesAppend | streamlit_app.py:82-83 | The lines of `a + b` are the lines of `a` followed by the lines of `b`. |
| Reports.ReportAppend | streamlit_app.py:81-83 | The report of `a + b` is the report of `a` followed by the lines of `b`, in findings order. |
| Reports.LineHasOneBreak | streamlit_app.py:83 | A finding with no line break in its fields gives exactly one line. |
| Reports.ReportLineCount | streamlit_app.py:81-83 | When no finding contains a line break, the report has the header's two line breaks plus exactly one per finding. Real scans can break this condition: the patterns built on `\s` (`\bauto[-\s]?renew\b`, `\bnon[-\s]?cancellable\b`) match across a line break, as in "auto\nrenew", and OCR text is full of line breaks, one after each page at line 34 alone. Such a phrase adds extra line breaks to the report. |
| Highlight.Replacement | streamlit_app.py:55 | The replacement string of line 55: the opening span, the phrase as matched, the closing span. `Highlight.ReplacementBackslash` states that it holds a backslash exactly when the phrase does. |
| Highlight.ReplacementBackslash | streamlit_app.py:55 | The span text around the phrase holds no backslash, so the replacement string holds one exactly when the phrase does. |
| Highlight.TemplateAccepts | streamlit_app.py:55 | Whether Python 3.12's replacement-template parser accepts the string, for a pattern without groups (`re.escape` of a phrase has none). What it means is stated by `Highlight.PlainRunSkipped` and the rejection lemmas below. |
| Highlight.PlainRunSkipped | streamlit_app.py:55 | The parser reads characters other than backslashes as literal text: skipping a run of them never changes its verdict. |
| Highlight.Highlightable | streamlit_app.py:55 | Whether line 55 runs without raising for a phrase: its replacement string parses. `Highlight.PlainPhraseHighlightable`, `Highlight.BadEscapeRejected` and `Highlight.GroupReferenceRejected` state when it holds and when it fails. |
| Highlight.FirstUnhighlightable | streamlit_app.py:53-55 | The highlighting step processes the findings in order and stops at the first phrase it cannot hold: every earlier phrase can be held, the one it stops at cannot, and it runs to the end only when all can. |
| Highlight.PlainPhraseHighlightable | streamlit_app.py:55 | A phrase without a backslash can always be highlighted, since the fixed span text around it holds none. |
| Highlight.BadEscapeRejected | streamlit_app.py:55 | A phrase whose first backslash is followed by an ASCII letter other than a, b, f, g, n, r, t, v cannot be highlighted ("bad escape"). |
| Highlight.GroupReferenceRejected | streamlit_app.py:55 | A phrase whose first backslash is followed by a digit 1 to 9 and then by no further digit cannot be highlighted: the escaped pattern has no groups to refer to. |
| Highlight.WindowsPathStopsScan | streamlit_app.py:55 | The phrase "waive C:\docs claims", a match of the No Liability pattern `\bwaive.*claims?\b`, cannot be highlighted. |
| Guardian.Analyze | streamlit_app.py:45-86 | A run scans exactly when the stripped text is non-empty. It stops, with the offending phrase and no score, tier or report, exactly when some finding of the scan cannot be highlighted, and the phrase it reports is the first such one in findings order. Otherwise it gives the table's findings in order, all highlightable, their summed weight as the score, that score's tier and the report of those findings. |

## Left out

- Regular-expression semantics: `re.finditer` with `re.IGNORECASE` is a foreign library. It is the `Matcher` parameter, so nothing about a concrete text can be stated here, for example that "shall automatically renew" falls under Auto-Renewal Trap, or how case-insensitive matching and word boundaries behave.
- The highlighted text (streamlit_app.py:55, 61): which occurrences `re.sub` replaces depends on the regex engine and only feeds the display, so it is not modelled. Whether `re.sub` raises is modelled: it parses the replacement string before it searches, so whether it raises depends only on the phrase.
- Scanner.Scan, Scanner.ScanCategory, Scanner.ScanMatches: these loops leave out the highlighting call at streamlit_app.py:55 and so never stop early. `Guardian.Analyze` decides the stop from their complete findings. Nothing of a stopped run is shown, so the outcome is the same as stopping inside the loop.
- Highlight.TemplateAccepts: follows the replacement-template parser of Python 3.12. Earlier Python 3 versions differ in corner cases of `\g<...>` group names, for example `\g<+0>`.
- OCR and file handling (streamlit_app.py:26-38): PDF and image reading and `pytesseract` are I/O and foreign calls. The choice at lines 40-43, where pasted text replaces extracted text, is also left out: the model starts from the text that results.
- Presentation (streamlit_app.py:8-11, 58-79, 84, 88): the page layout, the banner texts for each tier, the risk-label display map at line 75 and the download button. The model keeps the tier, not the banner wording.
- Determinism: Dafny functions are deterministic, so the same text and matcher always give the same findings, score and report. `Scanner.ScanUsesOnlyTablePatterns` adds that only the table's patterns are consulted.
