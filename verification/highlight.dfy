/**
 The highlighting step of the scan. Each match is wrapped in an HTML span by a
 `re.sub` whose replacement string embeds the matched phrase as it is. Python
 parses that replacement string as a template before it substitutes anything,
 and a phrase holding a backslash escape the template language rejects makes
 the call raise, which ends the run. This module decides which phrases the
 template parser accepts, following Python 3.12's `re` module; the
 highlighted text itself is not modelled.
 */
module Highlight {
  import opened Scanner

  /** The text placed before and after the phrase in the replacement string.
      The opening span is written as five short literals only so that the
      prover can check each for backslashes; joined, they are one literal. */
  const SpanOpen: string :=
    "**<span style='" + "background-color:" + "#ff9999;" + "padding:2px 5px;" + "border-radius:3px'>"
  const SpanClose: string := "</span>**"

  /** The replacement string the highlighting step passes to `re.sub` for
      `phrase`. The span text around the phrase holds no backslash, so the
      replacement string holds one exactly when the phrase does. */
  function Replacement(phrase: string): string {
    SpanOpen + phrase + SpanClose
  }

  predicate IsDigit(c: char) { '0' <= c <= '9' }

  predicate IsOctalDigit(c: char) { '0' <= c <= '7' }

  predicate IsAsciiLetter(c: char) { 'a' <= c <= 'z' || 'A' <= c <= 'Z' }

  /** The letters with a meaning after a backslash in a replacement string,
      together with the backslash itself. */
  predicate IsTemplateEscape(c: char) {
    c in "abfnrtv\\"
  }

  /** The first position at or after `from` that holds `c`, or `|t|` when there is none. */
  function IndexOf(t: string, c: char, from: nat): (j: nat)
    requires from <= |t|
    ensures from <= j <= |t|
    ensures j < |t| ==> t[j] == c
    ensures forall k :: from <= k < j ==> t[k] != c
    decreases |t| - from
  {
    if from == |t| || t[from] == c then from else IndexOf(t, c, from + 1)
  }

  /** A group name that refers to group 0, the whole match: decimal digits, all zero. */
  predicate NamesWholeMatch(name: string) {
    |name| > 0 && forall k :: 0 <= k < |name| ==> name[k] == '0'
  }

  /** Whether the template parser accepts the replacement string `t` from
      position `i` on, when the pattern has no groups (an escaped phrase has
      none). Outside a backslash escape every character is literal. After a
      backslash:
      - `\g<name>` is accepted only when the name refers to group 0; a missing
        `<`, a missing `>`, an empty name or any other name raises;
      - `\0` starts an octal escape and is always accepted;
      - `\1` to `\9` are group references and raise, unless three octal digits
        follow the backslash with a value of at most 0o377;
      - `\a`, `\b`, `\f`, `\n`, `\r`, `\t`, `\v` and `\\` are accepted, any
        other ASCII letter raises, and any other character is kept as it is;
      - a backslash at the very end raises. */
  predicate TemplateAccepts(t: string, i: nat)
    decreases |t| - i
  {
    if i >= |t| then true
    else if t[i] != '\\' then TemplateAccepts(t, i + 1)
    else if i + 1 == |t| then false
    else
      var c := t[i + 1];
      if c == 'g' then
        if i + 2 < |t| && t[i + 2] == '<' then
          var j := IndexOf(t, '>', i + 3);
          j < |t| && NamesWholeMatch(t[i + 3..j]) && TemplateAccepts(t, j + 1)
        else false
      else if c == '0' then TemplateAccepts(t, i + 2)
      else if IsDigit(c) then
        i + 3 < |t| && IsOctalDigit(c) && IsOctalDigit(t[i + 2]) && IsOctalDigit(t[i + 3])
        && c <= '3' && TemplateAccepts(t, i + 4)
      else if IsTemplateEscape(c) || !IsAsciiLetter(c) then TemplateAccepts(t, i + 2)
      else false
  }

  /** The highlighting step can run for `phrase`: its replacement string parses. */
  predicate Highlightable(phrase: string) {
    TemplateAccepts(Replacement(phrase), 0)
  }

  /** The position of the first finding whose phrase cannot be highlighted,
      which is where the scan stops; `|fs|` when every phrase can be. */
  function FirstUnhighlightable(fs: seq<Finding>): (k: nat)
    ensures k <= |fs|
    ensures forall j :: 0 <= j < k ==> Highlightable(fs[j].phrase)
    ensures k < |fs| ==> !Highlightable(fs[k].phrase)
  {
    if fs == [] then 0
    else if !Highlightable(fs[0].phrase) then 0
    else 1 + FirstUnhighlightable(fs[1..])
  }

  /** Characters that are not backslashes are skipped by the parser. */
  lemma {:induction false} PlainRunSkipped(t: string, i: nat, j: nat)
    requires i <= j <= |t|
    requires forall k :: i <= k < j ==> t[k] != '\\'
    ensures TemplateAccepts(t, i) == TemplateAccepts(t, j)
    decreases j - i
  {
    if i < j {
      PlainRunSkipped(t, i + 1, j);
    }
  }

  /** The fixed text around the phrase holds no backslash. */
  lemma SpansArePlain()
    ensures '\\' !in SpanOpen && '\\' !in SpanClose
  {
    assert '\\' !in "**<span style='";
    assert '\\' !in "background-color:";
    assert '\\' !in "#ff9999;";
    assert '\\' !in "padding:2px 5px;";
    assert '\\' !in "border-radius:3px'>";
  }

  /** The replacement string holds a backslash exactly when the phrase does. */
  lemma ReplacementBackslash(phrase: string)
    ensures '\\' in Replacement(phrase) <==> '\\' in phrase
  {
    SpansArePlain();
  }

  /** A prefix without a backslash is read as literal text. */
  lemma PlainPrefixSkipped(u: string, v: string)
    requires '\\' !in u
    ensures TemplateAccepts(u + v, 0) == TemplateAccepts(u + v, |u|)
  {
    forall k | 0 <= k < |u|
      ensures (u + v)[k] != '\\'
    {
      assert (u + v)[k] == u[k];
    }
    PlainRunSkipped(u + v, 0, |u|);
  }

  /** A phrase without a backslash can always be highlighted. */
  lemma PlainPhraseHighlightable(phrase: string)
    requires '\\' !in phrase
    ensures Highlightable(phrase)
  {
    var t := Replacement(phrase);
    SpansArePlain();
    assert '\\' !in t;
    assert t == t + [];
    PlainPrefixSkipped(t, []);
  }

  /** The characters of `a + "\\" + b` before the backslash are those of `a`. */
  lemma PlainUpToBackslash(a: string, b: string)
    requires '\\' !in a
    ensures forall k :: 0 <= k < |a| ==> (a + "\\" + b)[k] != '\\'
  {
    forall k | 0 <= k < |a|
      ensures (a + "\\" + b)[k] != '\\'
    {
      assert (a + "\\" + b)[k] == a[k];
    }
  }

  /** When the first `n` characters of the phrase are not backslashes, the
      parser's verdict is decided from position `n` of the phrase on. */
  lemma PlainPrefixDecides(p: string, n: nat)
    requires n <= |p|
    requires forall k :: 0 <= k < n ==> p[k] != '\\'
    ensures Highlightable(p) == TemplateAccepts(Replacement(p), |SpanOpen| + n)
  {
    SpansArePlain();
    PlainBeforePhrase(SpanOpen, p, SpanClose, n);
    PlainRunSkipped(Replacement(p), 0, |SpanOpen| + n);
  }

  /** In `o + p + c`, the part before position `n` of `p` holds no backslash
      when neither `o` nor that part of `p` does. */
  lemma PlainBeforePhrase(o: string, p: string, c: string, n: nat)
    requires n <= |p|
    requires '\\' !in o
    requires forall k :: 0 <= k < n ==> p[k] != '\\'
    ensures forall k :: 0 <= k < |o| + n ==> (o + p + c)[k] != '\\'
  {
    forall k | 0 <= k < |o| + n
      ensures (o + p + c)[k] != '\\'
    {
      if k < |o| {
        assert (o + p + c)[k] == o[k];
      } else {
        assert (o + p + c)[k] == p[k - |o|];
      }
    }
  }

  /** A phrase whose first backslash is followed by an ASCII letter without a
      meaning in a replacement string cannot be highlighted ("bad escape"). */
  lemma BadEscapeRejected(a: string, c: char, b: string)
    requires '\\' !in a
    requires IsAsciiLetter(c) && !IsTemplateEscape(c) && c != 'g'
    ensures !Highlightable(a + "\\" + [c] + b)
  {
    var p := a + "\\" + [c] + b;
    assert p == a + "\\" + ([c] + b);
    PlainUpToBackslash(a, [c] + b);
    PlainPrefixDecides(p, |a|);
    var t := Replacement(p);
    var i := |SpanOpen| + |a|;
    assert t == (SpanOpen + a) + (['\\', c] + b + SpanClose);
    assert t[i] == '\\' && t[i + 1] == c;
  }

  /** A phrase whose first backslash is followed by a digit 1 to 9 and then by
      something other than a digit cannot be highlighted: it refers to a group
      the escaped pattern does not have ("invalid group reference"). */
  lemma GroupReferenceRejected(a: string, d: char, b: string)
    requires '\\' !in a
    requires '1' <= d <= '9'
    requires b == [] || !IsDigit(b[0])
    ensures !Highlightable(a + "\\" + [d] + b)
  {
    var p := a + "\\" + [d] + b;
    assert p == a + "\\" + ([d] + b);
    PlainUpToBackslash(a, [d] + b);
    PlainPrefixDecides(p, |a|);
    var t := Replacement(p);
    var i := |SpanOpen| + |a|;
    assert t == (SpanOpen + a) + (['\\', d] + b + SpanClose);
    assert t[i] == '\\' && t[i + 1] == d;
    if b == [] {
      assert t[i + 2] == SpanClose[0] == '<';
    } else {
      assert t[i + 2] == b[0];
    }
  }

  /** A path in a waiver clause stops the scan: the match "waive C:\docs claims"
      of the pattern `\bwaive.*claims?\b` holds `\d`. */
  lemma WindowsPathStopsScan()
    ensures !Highlightable("waive C:\\docs claims")
  {
    assert "waive C:\\docs claims" == "waive C:" + "\\" + ['d'] + "ocs claims";
    BadEscapeRejected("waive C:", 'd', "ocs claims");
  }
}
