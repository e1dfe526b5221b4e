/**
  First-match keyword tables. Every classifier in the loaders and views is an
  `if any(k in text ...) / elif ... / else` chain; `FirstMatch` is that chain
  read as data, and each classifier is proved equal to `FirstMatch` over its
  own table.
*/
module Rules {
  import opened Text

  /** One `if`/`elif` arm: any of `keywords` in the text selects `outcome`. */
  datatype Rule<T> = Rule(keywords: seq<string>, outcome: T)

  predicate Fires<T>(rule: Rule<T>, text: string)
  {
    ContainsAny(text, rule.keywords)
  }

  /**
    The outcome of the first rule that fires on `text`, or `fallback` when none
    does.
  */
  function FirstMatch<T>(rules: seq<Rule<T>>, text: string, fallback: T): (r: T)
    ensures (exists k | 0 <= k < |rules| :: Fires(rules[k], text)
               && (forall j | 0 <= j < k :: !Fires(rules[j], text))
               && r == rules[k].outcome)
         || ((forall k | 0 <= k < |rules| :: !Fires(rules[k], text)) && r == fallback)
  {
    if rules == [] then fallback
    else if Fires(rules[0], text) then rules[0].outcome
    else
      var r := FirstMatch(rules[1..], text, fallback);
      assert forall k | 1 <= k < |rules| :: rules[k] == rules[1..][k - 1];
      r
  }

  /** The rule that fires first decides, whatever comes after it. */
  lemma {:induction false} FirstMatchAt<T>(rules: seq<Rule<T>>, text: string, fallback: T, k: nat)
    requires k < |rules| && Fires(rules[k], text)
    requires forall j | 0 <= j < k :: !Fires(rules[j], text)
    ensures FirstMatch(rules, text, fallback) == rules[k].outcome
  {
    if k > 0 {
      FirstMatchAt(rules[1..], text, fallback, k - 1);
    }
  }

  /** When no rule fires the fallback is the answer. */
  lemma {:induction false} FirstMatchNone<T>(rules: seq<Rule<T>>, text: string, fallback: T)
    requires forall k | 0 <= k < |rules| :: !Fires(rules[k], text)
    ensures FirstMatch(rules, text, fallback) == fallback
    decreases |rules|
  {
    if rules != [] {
      FirstMatchNone(rules[1..], text, fallback);
    }
  }

  /** A keyword at position `i` makes its rule fire. */
  lemma FiresAt<T>(rule: Rule<T>, text: string, k: nat, i: nat)
    requires k < |rule.keywords| && i <= |text| && rule.keywords[k] <= text[i..]
    ensures Fires(rule, text)
  {
    ContainsAt(text, rule.keywords[k], i);
  }

  /** Short tables, unrolled. */
  lemma FirstMatchOne<T>(r0: Rule<T>, text: string, fallback: T)
    ensures FirstMatch([r0], text, fallback) == if Fires(r0, text) then r0.outcome else fallback
  {
    var rules := [r0];
    assert rules[0] == r0;
    if Fires(r0, text) {
      FirstMatchAt(rules, text, fallback, 0);
    } else {
      FirstMatchNone(rules, text, fallback);
    }
  }

  lemma FirstMatchTwo<T>(r0: Rule<T>, r1: Rule<T>, text: string, fallback: T)
    ensures FirstMatch([r0, r1], text, fallback)
         == if Fires(r0, text) then r0.outcome else if Fires(r1, text) then r1.outcome else fallback
  {
    var rules := [r0, r1];
    assert rules[0] == r0 && rules[1] == r1;
    if Fires(r0, text) {
      FirstMatchAt(rules, text, fallback, 0);
    } else if Fires(r1, text) {
      FirstMatchAt(rules, text, fallback, 1);
    } else {
      FirstMatchNone(rules, text, fallback);
    }
  }

  lemma FirstMatchThree<T>(r0: Rule<T>, r1: Rule<T>, r2: Rule<T>, text: string, fallback: T)
    ensures FirstMatch([r0, r1, r2], text, fallback)
         == if Fires(r0, text) then r0.outcome else if Fires(r1, text) then r1.outcome
            else if Fires(r2, text) then r2.outcome else fallback
  {
    var rules := [r0, r1, r2];
    assert rules[0] == r0 && rules[1] == r1 && rules[2] == r2;
    if Fires(r0, text) {
      FirstMatchAt(rules, text, fallback, 0);
    } else if Fires(r1, text) {
      FirstMatchAt(rules, text, fallback, 1);
    } else if Fires(r2, text) {
      FirstMatchAt(rules, text, fallback, 2);
    } else {
      FirstMatchNone(rules, text, fallback);
    }
  }

  lemma FirstMatchFour<T>(r0: Rule<T>, r1: Rule<T>, r2: Rule<T>, r3: Rule<T>, text: string, fallback: T)
    ensures FirstMatch([r0, r1, r2, r3], text, fallback)
         == if Fires(r0, text) then r0.outcome else if Fires(r1, text) then r1.outcome
            else if Fires(r2, text) then r2.outcome else if Fires(r3, text) then r3.outcome else fallback
  {
    var rules := [r0, r1, r2, r3];
    assert rules[0] == r0 && rules[1] == r1 && rules[2] == r2 && rules[3] == r3;
    if Fires(r0, text) {
      FirstMatchAt(rules, text, fallback, 0);
    } else if Fires(r1, text) {
      FirstMatchAt(rules, text, fallback, 1);
    } else if Fires(r2, text) {
      FirstMatchAt(rules, text, fallback, 2);
    } else if Fires(r3, text) {
      FirstMatchAt(rules, text, fallback, 3);
    } else {
      FirstMatchNone(rules, text, fallback);
    }
  }
}
