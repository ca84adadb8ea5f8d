/**
 The downloadable plain-text report: a fixed header, then one line per
 finding, in the order of the findings.
 */
module Reports {
  import opened Scanner

  /** The report's first line, followed by a blank line. */
  const Header: string := "# Contract Guardian Report\n\n"

  /** The report line of one finding: `- <category>: “<phrase>” → <explanation>`. */
  function Line(f: Finding): (line: string)
    ensures |line| > 0 && line[|line| - 1] == '\n'
  {
    "- " + f.category + ": “" + f.phrase + "” → " + f.explanation + "\n"
  }

  /** The lines of `fs`, one per finding, in order. They are empty exactly
      when there are no findings, and otherwise end with a line break. */
  function Lines(fs: seq<Finding>): (r: string)
    ensures |r| == 0 <==> fs == []
    ensures |r| > 0 ==> r[|r| - 1] == '\n'
  {
    if fs == [] then [] else Lines(fs[..|fs| - 1]) + Line(fs[|fs| - 1])
  }

  /** The report for `fs`. It always begins with the header, and with no
      findings it is exactly the header. */
  function Report(fs: seq<Finding>): (r: string)
    ensures |Header| <= |r| && r[..|Header|] == Header
    ensures fs == [] <==> r == Header
  {
    Header + Lines(fs)
  }

  /** Builds the report as the application does: start from the header and
      append one line per finding. */
  method BuildReport(findings: seq<Finding>) returns (report: string)
    ensures report == Report(findings)
  {
    report := Header;
    var i := 0;
    while i < |findings|
      invariant 0 <= i <= |findings|
      invariant report == Header + Lines(findings[..i])
    {
      assert findings[..i + 1][..i] == findings[..i];
      report := report + Line(findings[i]);
      i := i + 1;
    }
    assert findings[..i] == findings;
  }

  /** The lines of `a + b` are the lines of `a` followed by those of `b`. */
  lemma {:induction false} LinesAppend(a: seq<Finding>, b: seq<Finding>)
    ensures Lines(a + b) == Lines(a) + Lines(b)
    decreases |b|
  {
    if b == [] {
      assert a + b == a;
    } else {
      var b' := b[..|b| - 1];
      assert (a + b)[..|a + b| - 1] == a + b';
      assert (a + b)[|a + b| - 1] == b[|b| - 1];
      LinesAppend(a, b');
      calc {
        Lines(a + b);
        Lines(a + b') + Line(b[|b| - 1]);
        (Lines(a) + Lines(b')) + Line(b[|b| - 1]);
        Lines(a) + (Lines(b') + Line(b[|b| - 1]));
        Lines(a) + Lines(b);
      }
    }
  }

  /** More findings extend the report: the report of `a + b` is the report of
      `a` followed by the lines of `b`. */
  lemma ReportAppend(a: seq<Finding>, b: seq<Finding>)
    ensures Report(a + b) == Report(a) + Lines(b)
  {
    LinesAppend(a, b);
  }

  /** The number of occurrences of `c` in `s`. */
  function Occurrences(s: string, c: char): nat {
    if s == [] then 0 else Occurrences(s[..|s| - 1], c) + (if s[|s| - 1] == c then 1 else 0)
  }

  /** Occurrences are counted separately in the two parts of a concatenation. */
  lemma {:induction false} OccurrencesAppend(a: string, b: string, c: char)
    ensures Occurrences(a + b, c) == Occurrences(a, c) + Occurrences(b, c)
    decreases |b|
  {
    if b == [] {
      assert a + b == a;
    } else {
      var b' := b[..|b| - 1];
      assert (a + b)[..|a + b| - 1] == a + b';
      assert (a + b)[|a + b| - 1] == b[|b| - 1];
      OccurrencesAppend(a, b', c);
    }
  }

  /** No field of the finding contains a line break. */
  predicate SingleLine(f: Finding) {
    '\n' !in f.category && '\n' !in f.phrase && '\n' !in f.explanation
  }

  /** A character that is not in `s` occurs zero times in it. */
  lemma {:induction false} NoOccurrences(s: string, c: char)
    requires c !in s
    ensures Occurrences(s, c) == 0
    decreases |s|
  {
    if s != [] {
      assert forall x :: x in s[..|s| - 1] ==> x in s;
      NoOccurrences(s[..|s| - 1], c);
    }
  }

  /** A single-line finding gives exactly one line. */
  lemma LineHasOneBreak(f: Finding)
    requires SingleLine(f)
    ensures Occurrences(Line(f), '\n') == 1
  {
    OccurrencesAppend("- ", f.category, '\n');
    OccurrencesAppend("- " + f.category, ": “", '\n');
    OccurrencesAppend("- " + f.category + ": “", f.phrase, '\n');
    OccurrencesAppend("- " + f.category + ": “" + f.phrase, "” → ", '\n');
    OccurrencesAppend("- " + f.category + ": “" + f.phrase + "” → ", f.explanation, '\n');
    OccurrencesAppend("- " + f.category + ": “" + f.phrase + "” → " + f.explanation, "\n", '\n');
    NoOccurrences(f.category, '\n');
    NoOccurrences(f.phrase, '\n');
    NoOccurrences(f.explanation, '\n');
    NoOccurrences("- ", '\n');
    NoOccurrences(": “", '\n');
    NoOccurrences("” → ", '\n');
    assert Occurrences("\n", '\n') == 1;
  }

  /** One line per finding: when no finding contains a line break, the report
      has exactly the header's two line breaks plus one per finding. */
  lemma {:induction false} ReportLineCount(fs: seq<Finding>)
    requires forall k :: 0 <= k < |fs| ==> SingleLine(fs[k])
    ensures Occurrences(Report(fs), '\n') == 2 + |fs|
  {
    var title := "# Contract Guardian Report";
    assert Header == title + "\n\n";
    NoOccurrences(title, '\n');
    OccurrencesAppend(title, "\n\n", '\n');
    assert Occurrences("\n\n", '\n') == 2 by {
      assert "\n\n"[..1] == "\n";
    }
    OccurrencesAppend(Header, Lines(fs), '\n');
    LinesLineCount(fs);
  }

  /** The lines of single-line findings hold one line break per finding. */
  lemma {:induction false} LinesLineCount(fs: seq<Finding>)
    requires forall k :: 0 <= k < |fs| ==> SingleLine(fs[k])
    ensures Occurrences(Lines(fs), '\n') == |fs|
    decreases |fs|
  {
    if fs != [] {
      var fs' := fs[..|fs| - 1];
      LinesLineCount(fs');
      OccurrencesAppend(Lines(fs'), Line(fs[|fs| - 1]), '\n');
      LineHasOneBreak(fs[|fs| - 1]);
    }
  }
}
