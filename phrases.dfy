/** Ordered phrase tables: the service maps a fault message to a fixed error text by testing
    groups of phrases against the lower-cased message, in a fixed order, first match wins. */
module Phrases {
  import opened Wrappers
  import opened Seqs
  import opened Strings

  /** What a table row answers: a fixed text, or a prefix followed by a detail (the fault's
      own message or a path). */
  datatype Reply = Says(text: string) | Quotes(prefix: string)

  /** One row: every phrase of `all` and at least one phrase of `any` must occur. */
  datatype Rule = Rule(all: seq<string>, any: seq<string>, reply: Reply)

  predicate ContainsAll(s: string, phrases: seq<string>) {
    forall k :: 0 <= k < |phrases| ==> Contains(s, phrases[k])
  }

  /** Python's `any(phrase in s for phrase in phrases)`. */
  predicate ContainsAny(s: string, phrases: seq<string>) {
    exists k :: 0 <= k < |phrases| && Contains(s, phrases[k])
  }

  predicate Matches(low: string, rule: Rule) {
    ContainsAll(low, rule.all) && ContainsAny(low, rule.any)
  }

  function Render(reply: Reply, detail: string): string {
    match reply
    case Says(text) => text
    case Quotes(prefix) => prefix + detail
  }

  /** The reply of the first row matching the lower-cased message, or None when no row
      matches (the source then re-raises or falls through to its default). */
  function Classify(msg: string, detail: string, rules: seq<Rule>): Option<string> {
    var k := FirstIndex(rules, (rule: Rule) => Matches(Lower(msg), rule));
    if k < |rules| then Some(Render(rules[k].reply, detail)) else None
  }

  /** First match wins: row `k` answers exactly when it matches and no earlier row does. */
  lemma ClassifyPicks(msg: string, detail: string, rules: seq<Rule>, k: nat)
    requires k < |rules| && Matches(Lower(msg), rules[k])
    requires forall j :: 0 <= j < k ==> !Matches(Lower(msg), rules[j])
    ensures Classify(msg, detail, rules) == Some(Render(rules[k].reply, detail))
  {
    var p := (rule: Rule) => Matches(Lower(msg), rule);
    assert p(rules[k]);
  }

  /** A message that matches no row is not classified. */
  lemma ClassifyNone(msg: string, detail: string, rules: seq<Rule>)
    requires forall j :: 0 <= j < |rules| ==> !Matches(Lower(msg), rules[j])
    ensures Classify(msg, detail, rules) == None
  {
    var p := (rule: Rule) => Matches(Lower(msg), rule);
    assert forall j :: 0 <= j < |rules| ==> !p(rules[j]);
  }

  /** A classified message matched some row and no earlier one. */
  lemma ClassifySome(msg: string, detail: string, rules: seq<Rule>)
    requires Classify(msg, detail, rules).Some?
    ensures exists k :: (0 <= k < |rules| && Matches(Lower(msg), rules[k])
      && Classify(msg, detail, rules) == Some(Render(rules[k].reply, detail)))
  {
    var p := (rule: Rule) => Matches(Lower(msg), rule);
    var f := FirstIndex(rules, p);
    assert p(rules[f]);
  }

  /** A row matches a message that contains all of its `all` phrases and its `k`-th `any` phrase. */
  lemma MatchesByPhrase(low: string, rule: Rule, k: nat)
    requires ContainsAll(low, rule.all) && k < |rule.any| && Contains(low, rule.any[k])
    ensures Matches(low, rule)
  {
  }
}
