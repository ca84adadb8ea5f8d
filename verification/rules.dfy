/**
 The fixed red-flag rule table of Contract Guardian: an ordered mapping from a
 category name to the patterns that detect it, a plain-English explanation and
 a risk level, together with the fixed weight each risk level adds to the score.
 */
module Rules {

  /** The three risk levels a category can carry, from least to most severe. */
  datatype Risk = Medium | High | Critical {

    /** Ordinal severity: a larger rank is a more severe level. */
    function Rank(): nat {
      match this
      case Medium => 0
      case High => 1
      case Critical => 2
    }
  }

  /** The weight table of the scan: each risk level and the points one match of it adds. */
  const Weights: map<Risk, nat> := map[Medium := 3, High := 6, Critical := 10]

  /** The points one match of a category of the given risk adds to the score.
      The lookup in `Weights` is total: every risk level is a key. */
  function Weight(r: Risk): (w: nat)
    ensures w > 0
    ensures r == Medium ==> w == 3
    ensures r == High ==> w == 6
    ensures r == Critical ==> w == 10
  {
    assert r == Medium || r == High || r == Critical;
    Weights[r]
  }

  /** A more severe risk level always weighs strictly more. */
  lemma WeightFollowsSeverity(a: Risk, b: Risk)
    ensures a.Rank() < b.Rank() <==> Weight(a) < Weight(b)
    ensures a == b <==> Weight(a) == Weight(b)
  {
  }

  /** One rule category: its name, the regular expressions that detect it (in
      declared order), the explanation shown to the reader and its risk level. */
  datatype Category = Category(name: string, patterns: seq<string>, explanation: string, risk: Risk)

  /** The rule table is an ordered mapping, so no two categories share a name. */
  ghost predicate DistinctNames(table: seq<Category>) {
    forall i, j :: 0 <= i < j < |table| ==> table[i].name != table[j].name
  }

  /** The rule table, in its iteration order. */
  const RedFlags: seq<Category> := [
    Category("One-Sided Control",
      ["\\bsole discretion\\b", "\\bat (our|their) sole discretion\\b", "\\breserves? the right\\b",
       "\\bmay (modify|change|amend|terminate)\\b", "\\bwithout (prior )?notice\\b", "\\bat any time\\b"],
      "They can change the deal anytime — even after you sign.", High),
    Category("Auto-Renewal Trap",
      ["\\bauto[-\\s]?renew\\b", "\\bautomatic renewal\\b", "\\bnon[-\\s]?cancellable\\b", "\\bearly termination fee\\b"],
      "You’re locked in and it’s hard or expensive to get out.", High),
    Category("No Liability",
      ["\\bhold harmless\\b", "\\bindemnify\\b", "\\bno liability\\b", "\\blimitation of liability\\b", "\\bwaive.*claims?\\b"],
      "If they mess up, you can’t sue — even if it’s their fault.", Critical),
    Category("Forced Arbitration",
      ["\\bbinding arbitration\\b", "\\bclass action waiver\\b", "\\bwaive.*jury\\b"],
      "No real court, no class action. You fight alone.", Critical),
    Category("Hidden Fees",
      ["\\badditional fees?\\b", "\\bvariable.*rate\\b", "\\bprice.*increase\\b"],
      "They can raise prices or add surprise charges later.", High),
    Category("No Warranty",
      ["\\bas[- ]?is\\b", "\\bwithout warranty\\b", "\\bno guarantee\\b"],
      "If it breaks or doesn’t work — you’re on your own.", Medium),
    Category("Vague = They Win",
      ["\\breasonable\\b", "\\bas (we|they) (deem|determine)\\b", "\\bin (our|their) judgment\\b"],
      "They decide what “reasonable” means. Guess who wins?", Medium)
  ]

  /** The shape of the rule table: seven categories with distinct names, each
      with at least one pattern, and their risk levels in table order. */
  lemma RedFlagsShape()
    ensures |RedFlags| == 7
    ensures DistinctNames(RedFlags)
    ensures forall c :: c in RedFlags ==> |c.patterns| > 0
    ensures [RedFlags[0].risk, RedFlags[1].risk, RedFlags[2].risk, RedFlags[3].risk,
             RedFlags[4].risk, RedFlags[5].risk, RedFlags[6].risk]
         == [High, High, Critical, Critical, High, Medium, Medium]
  {
  }
}
