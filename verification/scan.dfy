/**
 The scan-and-score engine: every match of every pattern of every category
 becomes a finding, and every finding adds its category's weight to the score.

 The regular-expression engine is not modelled. A scan is parameterised by a
 `Matcher` that, given a pattern and the text, returns the matched substrings
 from left to right (the role `re.finditer(pattern, text, re.IGNORECASE)`
 plays in the application); everything is specified relative to it.
 */
module Scanner {
  import opened Rules

  /** The matched substrings of `text` for `pattern`, left to right. */
  type Matcher = (string, string) -> seq<string>

  /** One detected occurrence: the category, the matched phrase, and the
      explanation and risk level copied from the category. */
  datatype Finding = Finding(category: string, phrase: string, explanation: string, risk: Risk)

  /** The finding one match of category `c` produces. */
  function FindingOf(c: Category, phrase: string): (f: Finding)
    ensures f.category == c.name && f.explanation == c.explanation && f.risk == c.risk
    ensures f.phrase == phrase
  {
    Finding(c.name, phrase, c.explanation, c.risk)
  }

  // ---------------------------------------------------------------------------
  // Reference definitions. Each one peels off the LAST element, which is the
  // order in which the application's loops extend their results.
  // ---------------------------------------------------------------------------

  /** The findings for the matches `ms` of one pattern of category `c`, in match order. */
  function MatchFindings(c: Category, ms: seq<string>): (fs: seq<Finding>)
    ensures |fs| == |ms|
    ensures forall k :: 0 <= k < |fs| ==> fs[k] == FindingOf(c, ms[k])
  {
    if ms == [] then [] else MatchFindings(c, ms[..|ms| - 1]) + [FindingOf(c, ms[|ms| - 1])]
  }

  /** The findings of category `c` for the patterns `ps`, in pattern order. */
  function PatternFindings(c: Category, ps: seq<string>, text: string, m: Matcher): (fs: seq<Finding>)
    ensures |fs| == PatternMatchCount(ps, text, m)
    ensures forall f :: f in fs ==> f.category == c.name && f.explanation == c.explanation && f.risk == c.risk
  {
    if ps == [] then []
    else PatternFindings(c, ps[..|ps| - 1], text, m) + MatchFindings(c, m(ps[|ps| - 1], text))
  }

  /** All findings of category `c` in `text`: one per match of its patterns,
      each carrying the category's name, explanation and risk level. */
  function CategoryFindings(c: Category, text: string, m: Matcher): (fs: seq<Finding>)
    ensures |fs| == PatternMatchCount(c.patterns, text, m)
    ensures forall f :: f in fs ==> f.category == c.name && f.explanation == c.explanation && f.risk == c.risk
  {
    PatternFindings(c, c.patterns, text, m)
  }

  /** All findings of the categories of `table` in `text`, in category order:
      one per match of a pattern of the table. */
  function ScanFindings(table: seq<Category>, text: string, m: Matcher): (fs: seq<Finding>)
    ensures |fs| == MatchCount(table, text, m)
  {
    if table == [] then []
    else ScanFindings(table[..|table| - 1], text, m) + CategoryFindings(table[|table| - 1], text, m)
  }

  /** The risk score of a list of findings: the sum of their weights. Every
      weight is positive, so the score is zero only without findings. */
  function TotalWeight(fs: seq<Finding>): (w: nat)
    ensures w == 0 <==> fs == []
  {
    if fs == [] then 0 else TotalWeight(fs[..|fs| - 1]) + Weight(fs[|fs| - 1].risk)
  }

  // ---------------------------------------------------------------------------
  // Counting references: the number of matches, and the weighted number.
  // ---------------------------------------------------------------------------

  /** How many matches the patterns `ps` have in `text`. */
  function PatternMatchCount(ps: seq<string>, text: string, m: Matcher): nat {
    if ps == [] then 0 else PatternMatchCount(ps[..|ps| - 1], text, m) + |m(ps[|ps| - 1], text)|
  }

  /** How many matches all patterns of all categories of `table` have in `text`. */
  function MatchCount(table: seq<Category>, text: string, m: Matcher): nat {
    if table == [] then 0
    else MatchCount(table[..|table| - 1], text, m) + PatternMatchCount(table[|table| - 1].patterns, text, m)
  }

  /** Each category's weight times its number of matches, summed over `table`. */
  function WeightedMatchCount(table: seq<Category>, text: string, m: Matcher): nat {
    if table == [] then 0
    else
      var c := table[|table| - 1];
      WeightedMatchCount(table[..|table| - 1], text, m) + Weight(c.risk) * PatternMatchCount(c.patterns, text, m)
  }

  /** `f` is a finding that category `c` produces for some pattern of `c` in `text`. */
  ghost predicate FromRule(f: Finding, c: Category, text: string, m: Matcher) {
    && f.category == c.name
    && f.explanation == c.explanation
    && f.risk == c.risk
    && exists p :: p in c.patterns && f.phrase in m(p, text)
  }

  /** `m1` and `m2` return the same matches in `text` for every pattern of `table`. */
  ghost predicate SameOnPatterns(table: seq<Category>, text: string, m1: Matcher, m2: Matcher) {
    forall c, p :: c in table && p in c.patterns ==> m1(p, text) == m2(p, text)
  }

  // ---------------------------------------------------------------------------
  // The scan, as the application's three nested loops.
  // ---------------------------------------------------------------------------

  /** Scans `text` with the rules of `table`: categories in order, then their
      patterns in order, then each pattern's matches left to right; every
      match appends one finding and adds its category's weight to the score. */
  method Scan(table: seq<Category>, text: string, m: Matcher) returns (findings: seq<Finding>, score: nat)
    ensures findings == ScanFindings(table, text, m)
    ensures score == TotalWeight(findings)
  {
    findings := [];
    score := 0;
    var i := 0;
    while i < |table|
      invariant 0 <= i <= |table|
      invariant findings == ScanFindings(table[..i], text, m)
      invariant score == TotalWeight(findings)
    {
      var fs, w := ScanCategory(table[i], text, m);
      ScanStep(table, i, text, m);
      findings := findings + fs;
      score := score + w;
      i := i + 1;
    }
    assert table[..i] == table;
  }

  /** The loop over the patterns of one category: the category's findings in
      pattern order, and their weight. */
  method ScanCategory(c: Category, text: string, m: Matcher) returns (findings: seq<Finding>, score: nat)
    ensures findings == CategoryFindings(c, text, m)
    ensures score == TotalWeight(findings)
  {
    findings := [];
    score := 0;
    var j := 0;
    while j < |c.patterns|
      invariant 0 <= j <= |c.patterns|
      invariant findings == PatternFindings(c, c.patterns[..j], text, m)
      invariant score == TotalWeight(findings)
    {
      var fs, w := ScanMatches(c, m(c.patterns[j], text));
      PatternStep(c, c.patterns, j, text, m);
      findings := findings + fs;
      score := score + w;
      j := j + 1;
    }
    assert c.patterns[..j] == c.patterns;
  }

  /** The loop over the matches `ms` of one pattern of category `c`: one
      finding per match, in match order, each adding the category's weight. */
  method ScanMatches(c: Category, ms: seq<string>) returns (findings: seq<Finding>, score: nat)
    ensures findings == MatchFindings(c, ms)
    ensures score == TotalWeight(findings)
  {
    findings := [];
    score := 0;
    var k := 0;
    while k < |ms|
      invariant 0 <= k <= |ms|
      invariant findings == MatchFindings(c, ms[..k])
      invariant score == TotalWeight(findings)
    {
      MatchStep(c, ms, k);
      findings := findings + [FindingOf(c, ms[k])];
      score := score + Weight(c.risk);
      k := k + 1;
    }
    assert ms[..k] == ms;
  }

  /** One step of the category loop: the next category's findings and weight. */
  lemma ScanStep(table: seq<Category>, i: nat, text: string, m: Matcher)
    requires i < |table|
    ensures ScanFindings(table[..i + 1], text, m) == ScanFindings(table[..i], text, m) + CategoryFindings(table[i], text, m)
    ensures TotalWeight(ScanFindings(table[..i + 1], text, m))
         == TotalWeight(ScanFindings(table[..i], text, m)) + TotalWeight(CategoryFindings(table[i], text, m))
  {
    assert table[..i + 1][..i] == table[..i];
    TotalWeightAppend(ScanFindings(table[..i], text, m), CategoryFindings(table[i], text, m));
  }

  /** One step of the pattern loop: the next pattern's findings and weight. */
  lemma PatternStep(c: Category, ps: seq<string>, j: nat, text: string, m: Matcher)
    requires j < |ps|
    ensures PatternFindings(c, ps[..j + 1], text, m) == PatternFindings(c, ps[..j], text, m) + MatchFindings(c, m(ps[j], text))
    ensures TotalWeight(PatternFindings(c, ps[..j + 1], text, m))
         == TotalWeight(PatternFindings(c, ps[..j], text, m)) + TotalWeight(MatchFindings(c, m(ps[j], text)))
  {
    assert ps[..j + 1][..j] == ps[..j];
    TotalWeightAppend(PatternFindings(c, ps[..j], text, m), MatchFindings(c, m(ps[j], text)));
  }

  /** One step of the match loop: one more finding, one more weight. */
  lemma MatchStep(c: Category, ms: seq<string>, k: nat)
    requires k < |ms|
    ensures MatchFindings(c, ms[..k + 1]) == MatchFindings(c, ms[..k]) + [FindingOf(c, ms[k])]
    ensures TotalWeight(MatchFindings(c, ms[..k + 1])) == TotalWeight(MatchFindings(c, ms[..k])) + Weight(c.risk)
  {
    assert ms[..k + 1][..k] == ms[..k];
    var fs := MatchFindings(c, ms[..k + 1]);
    assert fs[..|fs| - 1] == MatchFindings(c, ms[..k]);
  }

  // ---------------------------------------------------------------------------
  // Properties of the scan.
  // ---------------------------------------------------------------------------

  /** The score is additive: the findings of `a + b` weigh what `a` and `b` weigh together. */
  lemma {:induction false} TotalWeightAppend(a: seq<Finding>, b: seq<Finding>)
    ensures TotalWeight(a + b) == TotalWeight(a) + TotalWeight(b)
    decreases |b|
  {
    if b == [] {
      assert a + b == a;
    } else {
      var b' := b[..|b| - 1];
      assert (a + b)[..|a + b| - 1] == a + b';
      assert (a + b)[|a + b| - 1] == b[|b| - 1];
      TotalWeightAppend(a, b');
    }
  }

  /** Appending findings never decreases the score. */
  lemma TotalWeightMonotone(a: seq<Finding>, b: seq<Finding>)
    ensures TotalWeight(a) <= TotalWeight(a + b)
  {
    TotalWeightAppend(a, b);
  }

  /** Every finding weighs between 3 (medium) and 10 (critical) points, so the
      score is zero exactly when there are no findings. */
  lemma {:induction false} TotalWeightBounds(fs: seq<Finding>)
    ensures 3 * |fs| <= TotalWeight(fs) <= 10 * |fs|
    ensures TotalWeight(fs) == 0 <==> fs == []
    decreases |fs|
  {
    if fs != [] {
      TotalWeightBounds(fs[..|fs| - 1]);
      var r := fs[|fs| - 1].risk;
      assert r == Medium || r == High || r == Critical;
    }
  }

  /** Scanning with the categories of `t1` and then those of `t2` gives the
      findings of `t1` followed by the findings of `t2`: findings appear in
      category order. */
  lemma {:induction false} ScanFindingsAppend(t1: seq<Category>, t2: seq<Category>, text: string, m: Matcher)
    ensures ScanFindings(t1 + t2, text, m) == ScanFindings(t1, text, m) + ScanFindings(t2, text, m)
    decreases |t2|
  {
    if t2 == [] {
      assert t1 + t2 == t1;
    } else {
      var t2' := t2[..|t2| - 1];
      var c := t2[|t2| - 1];
      assert (t1 + t2)[..|t1 + t2| - 1] == t1 + t2';
      assert (t1 + t2)[|t1 + t2| - 1] == c;
      ScanFindingsAppend(t1, t2', text, m);
      calc {
        ScanFindings(t1 + t2, text, m);
        ScanFindings(t1 + t2', text, m) + CategoryFindings(c, text, m);
        (ScanFindings(t1, text, m) + ScanFindings(t2', text, m)) + CategoryFindings(c, text, m);
        ScanFindings(t1, text, m) + (ScanFindings(t2', text, m) + CategoryFindings(c, text, m));
        ScanFindings(t1, text, m) + ScanFindings(t2, text, m);
      }
    }
  }

  /** Within one category, the findings of patterns `p1` come before those of
      patterns `p2`: findings appear in pattern order. */
  lemma {:induction false} PatternFindingsAppend(c: Category, p1: seq<string>, p2: seq<string>, text: string, m: Matcher)
    ensures PatternFindings(c, p1 + p2, text, m) == PatternFindings(c, p1, text, m) + PatternFindings(c, p2, text, m)
    decreases |p2|
  {
    if p2 == [] {
      assert p1 + p2 == p1;
    } else {
      var p2' := p2[..|p2| - 1];
      var ms := m(p2[|p2| - 1], text);
      assert (p1 + p2)[..|p1 + p2| - 1] == p1 + p2';
      assert (p1 + p2)[|p1 + p2| - 1] == p2[|p2| - 1];
      PatternFindingsAppend(c, p1, p2', text, m);
      calc {
        PatternFindings(c, p1 + p2, text, m);
        PatternFindings(c, p1 + p2', text, m) + MatchFindings(c, ms);
        (PatternFindings(c, p1, text, m) + PatternFindings(c, p2', text, m)) + MatchFindings(c, ms);
        PatternFindings(c, p1, text, m) + (PatternFindings(c, p2', text, m) + MatchFindings(c, ms));
        PatternFindings(c, p1, text, m) + PatternFindings(c, p2, text, m);
      }
    }
  }

  /** Multiplication by a weight distributes over a sum of match counts. */
  lemma Distribute(w: nat, a: nat, b: nat)
    ensures w * (a + b) == w * a + w * b
  {
  }

  /** A category with a single pattern yields exactly one finding per match of
      that pattern, in match order. */
  lemma SinglePatternFindings(c: Category, p: string, text: string, m: Matcher)
    ensures |PatternFindings(c, [p], text, m)| == |m(p, text)|
    ensures forall k :: 0 <= k < |m(p, text)| ==> PatternFindings(c, [p], text, m)[k] == FindingOf(c, m(p, text)[k])
  {
    assert [p][..0] == [];
  }

  /** The number of findings of `ps` is the number of their matches. */
  lemma {:induction false} PatternFindingsCount(c: Category, ps: seq<string>, text: string, m: Matcher)
    ensures |PatternFindings(c, ps, text, m)| == PatternMatchCount(ps, text, m)
    ensures TotalWeight(PatternFindings(c, ps, text, m)) == Weight(c.risk) * PatternMatchCount(ps, text, m)
    decreases |ps|
  {
    if ps != [] {
      var ps' := ps[..|ps| - 1];
      var ms := m(ps[|ps| - 1], text);
      var w, n' := Weight(c.risk), PatternMatchCount(ps', text, m);
      var fs', mf := PatternFindings(c, ps', text, m), MatchFindings(c, ms);
      assert PatternFindings(c, ps, text, m) == fs' + mf;
      assert PatternMatchCount(ps, text, m) == n' + |ms|;
      PatternFindingsCount(c, ps', text, m);
      TotalWeightAppend(fs', mf);
      MatchFindingsWeight(c, ms);
      Distribute(w, n', |ms|);
    }
  }

  /** The findings of one pattern weigh the category's weight once per match. */
  lemma {:induction false} MatchFindingsWeight(c: Category, ms: seq<string>)
    ensures TotalWeight(MatchFindings(c, ms)) == Weight(c.risk) * |ms|
    decreases |ms|
  {
    if ms != [] {
      var ms' := ms[..|ms| - 1];
      var fs := MatchFindings(c, ms);
      MatchFindingsWeight(c, ms');
      assert fs[..|fs| - 1] == MatchFindings(c, ms');
      assert fs[|fs| - 1].risk == c.risk;
      Distribute(Weight(c.risk), |ms'|, 1);
    }
  }

  /** One finding per match: the scan produces exactly as many findings as the
      patterns of the table have matches, and its score is each category's
      weight times that category's number of matches. */
  lemma {:induction false} ScanCounts(table: seq<Category>, text: string, m: Matcher)
    ensures |ScanFindings(table, text, m)| == MatchCount(table, text, m)
    ensures TotalWeight(ScanFindings(table, text, m)) == WeightedMatchCount(table, text, m)
    decreases |table|
  {
    if table != [] {
      var t' := table[..|table| - 1];
      var c := table[|table| - 1];
      ScanCounts(t', text, m);
      PatternFindingsCount(c, c.patterns, text, m);
      TotalWeightAppend(ScanFindings(t', text, m), CategoryFindings(c, text, m));
    }
  }

  /** More matches can only mean a higher score: if every pattern of the table
      has at least as many matches under `m2` as under `m1`, the score under
      `m2` is at least the score under `m1`. */
  lemma ScoreMonotoneInMatches(table: seq<Category>, text1: string, m1: Matcher, text2: string, m2: Matcher)
    requires forall c, p :: c in table && p in c.patterns ==> |m1(p, text1)| <= |m2(p, text2)|
    ensures TotalWeight(ScanFindings(table, text1, m1)) <= TotalWeight(ScanFindings(table, text2, m2))
  {
    ScanCounts(table, text1, m1);
    ScanCounts(table, text2, m2);
    WeightedMatchCountMonotone(table, text1, m1, text2, m2);
  }

  /** The weighted match count grows with the per-pattern match counts. */
  lemma {:induction false} WeightedMatchCountMonotone(table: seq<Category>, text1: string, m1: Matcher, text2: string, m2: Matcher)
    requires forall c, p :: c in table && p in c.patterns ==> |m1(p, text1)| <= |m2(p, text2)|
    ensures WeightedMatchCount(table, text1, m1) <= WeightedMatchCount(table, text2, m2)
    decreases |table|
  {
    if table != [] {
      var t' := table[..|table| - 1];
      var c := table[|table| - 1];
      WeightedMatchCountMonotone(t', text1, m1, text2, m2);
      PatternMatchCountMonotone(c.patterns, text1, m1, text2, m2);
    }
  }

  /** The match count of a pattern list grows with each pattern's match count. */
  lemma {:induction false} PatternMatchCountMonotone(ps: seq<string>, text1: string, m1: Matcher, text2: string, m2: Matcher)
    requires forall p :: p in ps ==> |m1(p, text1)| <= |m2(p, text2)|
    ensures PatternMatchCount(ps, text1, m1) <= PatternMatchCount(ps, text2, m2)
    decreases |ps|
  {
    if ps != [] {
      PatternMatchCountMonotone(ps[..|ps| - 1], text1, m1, text2, m2);
    }
  }

  /** Every finding copies the name, explanation and risk level of a category
      of the table, and its phrase is one of the matches of a pattern of that
      category. */
  lemma {:induction false} ScanFindingsFromRules(table: seq<Category>, text: string, m: Matcher)
    ensures forall f :: f in ScanFindings(table, text, m) ==> exists c :: c in table && FromRule(f, c, text, m)
    decreases |table|
  {
    if table != [] {
      var t' := table[..|table| - 1];
      var c := table[|table| - 1];
      ScanFindingsFromRules(t', text, m);
      PatternFindingsFromRule(c, c.patterns, text, m);
      forall f | f in ScanFindings(table, text, m)
        ensures exists c :: c in table && FromRule(f, c, text, m)
      {
        if f in ScanFindings(t', text, m) {
          var c' :| c' in t' && FromRule(f, c', text, m);
          assert c' in table;
        } else {
          assert f in CategoryFindings(c, text, m);
          assert c in table;
        }
      }
    }
  }

  /** Every finding of patterns of `c` is a finding of `c` for one of its patterns. */
  lemma {:induction false} PatternFindingsFromRule(c: Category, ps: seq<string>, text: string, m: Matcher)
    requires forall p :: p in ps ==> p in c.patterns
    ensures forall f :: f in PatternFindings(c, ps, text, m) ==> FromRule(f, c, text, m)
    decreases |ps|
  {
    if ps != [] {
      var ps' := ps[..|ps| - 1];
      var p := ps[|ps| - 1];
      PatternFindingsFromRule(c, ps', text, m);
      forall f | f in MatchFindings(c, m(p, text))
        ensures FromRule(f, c, text, m)
      {
        var k :| 0 <= k < |MatchFindings(c, m(p, text))| && MatchFindings(c, m(p, text))[k] == f;
        assert f.phrase == m(p, text)[k];
        assert p in c.patterns;
      }
    }
  }

  /** The scan consults the matcher only on the patterns of the table: two
      matchers that agree on those patterns produce the same findings. */
  lemma {:induction false} ScanUsesOnlyTablePatterns(table: seq<Category>, text: string, m1: Matcher, m2: Matcher)
    requires SameOnPatterns(table, text, m1, m2)
    ensures ScanFindings(table, text, m1) == ScanFindings(table, text, m2)
    decreases |table|
  {
    if table != [] {
      var t' := table[..|table| - 1];
      var c := table[|table| - 1];
      ScanUsesOnlyTablePatterns(t', text, m1, m2);
      PatternFindingsFrame(c, c.patterns, text, m1, m2);
    }
  }

  /** The findings of a pattern list depend only on the matcher's answers for those patterns. */
  lemma {:induction false} PatternFindingsFrame(c: Category, ps: seq<string>, text: string, m1: Matcher, m2: Matcher)
    requires forall p :: p in ps ==> m1(p, text) == m2(p, text)
    ensures PatternFindings(c, ps, text, m1) == PatternFindings(c, ps, text, m2)
    decreases |ps|
  {
    if ps != [] {
      PatternFindingsFrame(c, ps[..|ps| - 1], text, m1, m2);
    }
  }
}
