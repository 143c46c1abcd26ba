/**
 `PasswordChecker` itself: construction from the common-password source and
 the entry point `check_password`, which runs the eight rules in a fixed
 order and attaches the score and the label.
 */
module Evaluator {
  import opened Wrappers
  import opened Ascii
  import opened Denylist
  import opened Checks
  import opened Scoring

  /** The checker: the common-password set, built once and only read. */
  datatype Checker = Checker(commonPasswords: set<string>)

  /** Construction. `None` stands for a source that cannot be found, which
      leaves the set empty; `Some(lines)` for the lines that were read. */
  function NewChecker(source: Option<seq<string>>): (c: Checker)
    ensures forall w :: w in c.commonPasswords ==> IsEntry(w)
    ensures source.None? ==> c.commonPasswords == {}
    ensures source.Some? ==> forall w :: w in c.commonPasswords <==> |w| > 0 && Listed(source.value, w)
  {
    Checker(LoadSource(source))
  }

  /** The dictionary `check_password` returns. An empty password gets the
      `Rejected` shape, which has no `passed` and `total` entries. */
  datatype Report =
    | Rejected(score: nat, strength: Strength, results: seq<CheckOutcome>)
    | Evaluated(score: nat, strength: Strength, results: seq<CheckOutcome>, passed: nat, total: nat)

  const EmptyOutcome: CheckOutcome := CheckOutcome(false, "✗ Password cannot be empty.")

  /** The number of passing outcomes from position `i` on. */
  function PassedFrom(results: seq<CheckOutcome>, i: nat): (n: nat)
    requires i <= |results|
    ensures n == |set j | i <= j < |results| && results[j].passed|
    ensures n <= |results| - i
    decreases |results| - i
  {
    if i == |results| then 0
    else
      var here := if results[i].passed then {i} else {};
      assert (set j | i <= j < |results| && results[j].passed)
          == (set j | i + 1 <= j < |results| && results[j].passed) + here;
      (if results[i].passed then 1 else 0) + PassedFrom(results, i + 1)
  }

  /** `sum(1 for r in results if r[0])`: the number of passing outcomes. */
  function CountPassed(results: seq<CheckOutcome>): (n: nat)
    ensures n == |set i | 0 <= i < |results| && results[i].passed|
  {
    PassedFrom(results, 0)
  }

  /** The eight rules of the checker. */
  datatype Rule =
    | LengthRule | UppercaseRule | LowercaseRule | NumbersRule
    | SpecialRule | CommonRule | SequentialRule | RepeatedRule

  /** The order in which the checker runs and reports the rules. */
  const RuleOrder: seq<Rule> := [
    LengthRule, UppercaseRule, LowercaseRule, NumbersRule,
    SpecialRule, CommonRule, SequentialRule, RepeatedRule
  ]

  /** The outcome of one rule. */
  function RunRule(c: Checker, p: string, rule: Rule): CheckOutcome {
    match rule
    case LengthRule => CheckLength(p)
    case UppercaseRule => CheckUppercase(p)
    case LowercaseRule => CheckLowercase(p)
    case NumbersRule => CheckNumbers(p)
    case SpecialRule => CheckSpecialCharacters(p)
    case CommonRule => CheckCommonPassword(c.commonPasswords, p)
    case SequentialRule => CheckSequentialCharacters(p)
    case RepeatedRule => CheckRepeatedCharacters(p)
  }

  /** The list of eight outcomes, position by position. */
  function Outcomes(a: CheckOutcome, b: CheckOutcome, c: CheckOutcome, d: CheckOutcome,
                    e: CheckOutcome, f: CheckOutcome, g: CheckOutcome, h: CheckOutcome): (rs: seq<CheckOutcome>)
    ensures |rs| == 8
    ensures rs[0] == a && rs[1] == b && rs[2] == c && rs[3] == d
    ensures rs[4] == e && rs[5] == f && rs[6] == g && rs[7] == h
  {
    [a, b, c, d, e, f, g, h]
  }

  /** The eight rule outcomes, in the order the checker runs them. */
  function RunChecks(c: Checker, p: string): (rs: seq<CheckOutcome>)
    ensures |rs| == |RuleOrder|
  {
    Outcomes(CheckLength(p), CheckUppercase(p), CheckLowercase(p), CheckNumbers(p),
             CheckSpecialCharacters(p), CheckCommonPassword(c.commonPasswords, p),
             CheckSequentialCharacters(p), CheckRepeatedCharacters(p))
  }

  /** Outcome `i` of the list is the outcome of rule `RuleOrder[i]`. */
  lemma RunChecksInRuleOrder(c: Checker, p: string, i: nat)
    requires i < |RuleOrder|
    ensures RunChecks(c, p)[i] == RunRule(c, p, RuleOrder[i])
  {
    var rs := RunChecks(c, p);
    var rule := RuleOrder[i];
    match rule
    case LengthRule => assert i == 0; assert rs[0] == CheckLength(p);
    case UppercaseRule => assert i == 1; assert rs[1] == CheckUppercase(p);
    case LowercaseRule => assert i == 2; assert rs[2] == CheckLowercase(p);
    case NumbersRule => assert i == 3; assert rs[3] == CheckNumbers(p);
    case SpecialRule => assert i == 4; assert rs[4] == CheckSpecialCharacters(p);
    case CommonRule => assert i == 5; assert rs[5] == CheckCommonPassword(c.commonPasswords, p);
    case SequentialRule => assert i == 6; assert rs[6] == CheckSequentialCharacters(p);
    case RepeatedRule => assert i == 7; assert rs[7] == CheckRepeatedCharacters(p);
  }

  /** `check_password`: an empty password is rejected with score 0, "Very
      Weak" and the single empty-password outcome; any other password gets
      the eight rule outcomes in order, the number that passed, the total 8,
      the score and its label. */
  function CheckPassword(c: Checker, p: string): (r: Report)
    ensures r.Rejected? <==> |p| == 0
    ensures r.Rejected? ==> r.score == 0 && r.strength == VeryWeak && r.results == [EmptyOutcome]
    ensures r.Evaluated? ==>
      && |r.results| == r.total == |RuleOrder|
      && r.results[0] == CheckLength(p)
      && r.results[1] == CheckUppercase(p)
      && r.results[2] == CheckLowercase(p)
      && r.results[3] == CheckNumbers(p)
      && r.results[4] == CheckSpecialCharacters(p)
      && r.results[5] == CheckCommonPassword(c.commonPasswords, p)
      && r.results[6] == CheckSequentialCharacters(p)
      && r.results[7] == CheckRepeatedCharacters(p)
      && r.passed == CountPassed(r.results)
      && r.score == CalculateScore(c.commonPasswords, p)
    ensures r.score <= MaxScore
    ensures r.strength == StrengthLabel(r.score)
  {
    if |p| == 0 then
      Rejected(0, VeryWeak, [EmptyOutcome])
    else
      var results := RunChecks(c, p);
      var score := CalculateScore(c.commonPasswords, p);
      Evaluated(score, StrengthLabel(score), results, CountPassed(results), |results|)
  }

  /** The count over eight outcomes, term by term. */
  lemma CountPassedOfEight(rs: seq<CheckOutcome>)
    requires |rs| == 8
    ensures CountPassed(rs) ==
      Points(rs[0].passed, 1) + Points(rs[1].passed, 1) + Points(rs[2].passed, 1) + Points(rs[3].passed, 1)
      + Points(rs[4].passed, 1) + Points(rs[5].passed, 1) + Points(rs[6].passed, 1) + Points(rs[7].passed, 1)
  {
    assert PassedFrom(rs, 7) == Points(rs[7].passed, 1);
    assert PassedFrom(rs, 6) == Points(rs[6].passed, 1) + PassedFrom(rs, 7);
    assert PassedFrom(rs, 5) == Points(rs[5].passed, 1) + PassedFrom(rs, 6);
    assert PassedFrom(rs, 4) == Points(rs[4].passed, 1) + PassedFrom(rs, 5);
    assert PassedFrom(rs, 3) == Points(rs[3].passed, 1) + PassedFrom(rs, 4);
    assert PassedFrom(rs, 2) == Points(rs[2].passed, 1) + PassedFrom(rs, 3);
    assert PassedFrom(rs, 1) == Points(rs[1].passed, 1) + PassedFrom(rs, 2);
  }

  /** When the count of passing outcomes from `i` on is the number of
      outcomes from `i` on, each of them passed. */
  lemma {:induction false} FullCountMeansAllPassed(results: seq<CheckOutcome>, i: nat)
    requires i <= |results|
    requires PassedFrom(results, i) == |results| - i
    ensures forall j :: i <= j < |results| ==> results[j].passed
    decreases |results| - i
  {
    if i < |results| {
      FullCountMeansAllPassed(results, i + 1);
    }
  }

  /** The points a rule is worth when it passes; length earns its points by
      tier instead. */
  function Weight(rule: Rule): nat {
    match rule
    case LengthRule => 0
    case UppercaseRule => 8
    case LowercaseRule => 8
    case NumbersRule => 7
    case SpecialRule => 7
    case CommonRule => 15
    case SequentialRule => 10
    case RepeatedRule => 10
  }

  /** The weights of the rules, from position `i` on, whose outcome passed. */
  function EarnedFrom(results: seq<CheckOutcome>, rules: seq<Rule>, i: nat): nat
    requires |results| == |rules| && i <= |rules|
    decreases |rules| - i
  {
    if i == |rules| then 0
    else Points(results[i].passed, Weight(rules[i])) + EarnedFrom(results, rules, i + 1)
  }

  /** The weights of the rules whose outcome passed. */
  function EarnedPoints(results: seq<CheckOutcome>, rules: seq<Rule>): nat
    requires |results| == |rules|
  {
    EarnedFrom(results, rules, 0)
  }

  /** The weights earned over a report of eight outcomes, term by term. */
  lemma EarnedPointsInOrder(rs: seq<CheckOutcome>)
    requires |rs| == |RuleOrder|
    ensures EarnedPoints(rs, RuleOrder) ==
      Points(rs[1].passed, 8) + Points(rs[2].passed, 8) + Points(rs[3].passed, 7) + Points(rs[4].passed, 7)
      + Points(rs[5].passed, 15) + Points(rs[6].passed, 10) + Points(rs[7].passed, 10)
  {
    assert EarnedFrom(rs, RuleOrder, 7) == Points(rs[7].passed, 10);
    assert EarnedFrom(rs, RuleOrder, 6) == Points(rs[6].passed, 10) + EarnedFrom(rs, RuleOrder, 7);
    assert EarnedFrom(rs, RuleOrder, 5) == Points(rs[5].passed, 15) + EarnedFrom(rs, RuleOrder, 6);
    assert EarnedFrom(rs, RuleOrder, 4) == Points(rs[4].passed, 7) + EarnedFrom(rs, RuleOrder, 5);
    assert EarnedFrom(rs, RuleOrder, 3) == Points(rs[3].passed, 7) + EarnedFrom(rs, RuleOrder, 4);
    assert EarnedFrom(rs, RuleOrder, 2) == Points(rs[2].passed, 8) + EarnedFrom(rs, RuleOrder, 3);
    assert EarnedFrom(rs, RuleOrder, 1) == Points(rs[1].passed, 8) + EarnedFrom(rs, RuleOrder, 2);
  }

  /** The score of a non-empty password is determined by the report itself:
      the length tier, the weights of the passing rules, 10 more when the
      four character-class rules all passed and 5 more for more than 20
      characters. Score and outcomes are computed separately and agree. */
  lemma ScoreFromReport(c: Checker, p: string)
    requires |p| > 0
    ensures var r := CheckPassword(c, p);
      r.score == LengthPoints(|p|)
        + EarnedPoints(r.results, RuleOrder)
        + Points(r.results[1].passed && r.results[2].passed && r.results[3].passed && r.results[4].passed, 10)
        + Points(|p| > 20, 5)
  {
    var r := CheckPassword(c, p);
    EarnedPointsInOrder(r.results);
    assert r.score == RawScore(c.commonPasswords, p);
  }

  /** A password that passes all eight rules scores at least 85 and is
      labelled "Strong" or "Very Strong". */
  lemma AllPassedIsStrong(c: Checker, p: string)
    requires var r := CheckPassword(c, p); r.Evaluated? && r.passed == r.total
    ensures var r := CheckPassword(c, p); r.score >= 85 && r.strength.Rank() >= Strong.Rank()
  {
    var r := CheckPassword(c, p);
    FullCountMeansAllPassed(r.results, 0);
    assert r.results[0].passed && r.results[1].passed && r.results[2].passed && r.results[3].passed;
    assert r.results[4].passed && r.results[5].passed && r.results[6].passed && r.results[7].passed;
    AllRulesPassedScore(c.commonPasswords, p);
    LabelMonotone(85, r.score);
  }

  /** The empty password never reaches the scoring function; scored on its
      own it would earn the 35 points of the three security rules. */
  lemma EmptyPasswordBypassesScoring(c: Checker)
    requires "" !in c.commonPasswords
    ensures CheckPassword(c, "").score == 0
    ensures CalculateScore(c.commonPasswords, "") == 35
  {
    assert CheckSequentialCharacters("").passed;
    assert CheckRepeatedCharacters("").passed;
  }
}
