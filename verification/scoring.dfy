/**
 The additive score of `calculate_score` and the strength label of
 `get_strength_label`.
 */
module Scoring {
  import opened Checks

  /** Points for length: 20 from 20 characters, 15 from 16, 10 from 12, 5
      from 8, none below 8. */
  function LengthPoints(n: nat): (r: nat)
    ensures r <= 20 && r % 5 == 0
    ensures r == 0 <==> n < 8
  {
    if n >= 20 then 20
    else if n >= 16 then 15
    else if n >= 12 then 10
    else if n >= 8 then 5
    else 0
  }

  /** A longer password never earns fewer length points. */
  lemma LengthPointsMonotone(a: nat, b: nat)
    requires a <= b
    ensures LengthPoints(a) <= LengthPoints(b)
  {
  }

  function Points(ok: bool, weight: nat): nat {
    if ok then weight else 0
  }

  /** True when all four character-class rules pass. */
  predicate HasAllTypes(p: string) {
    && CheckUppercase(p).passed
    && CheckLowercase(p).passed
    && CheckNumbers(p).passed
    && CheckSpecialCharacters(p).passed
  }

  /** The sum before the cap: length tier, 8/8/7/7 for the class rules,
      15/10/10 for the common, sequential and repeated rules, 10 when all
      four classes pass and 5 for more than 20 characters. */
  function RawScore(common: set<string>, p: string): nat {
    LengthPoints(|p|)
    + Points(CheckUppercase(p).passed, 8)
    + Points(CheckLowercase(p).passed, 8)
    + Points(CheckNumbers(p).passed, 7)
    + Points(CheckSpecialCharacters(p).passed, 7)
    + Points(CheckCommonPassword(common, p).passed, 15)
    + Points(CheckSequentialCharacters(p).passed, 10)
    + Points(CheckRepeatedCharacters(p).passed, 10)
    + Points(HasAllTypes(p), 10)
    + Points(|p| > 20, 5)
  }

  const MaxScore: nat := 100

  /** `min(score, 100)`. The weights add up to exactly 100, so the cap never
      changes the sum: the score is the uncapped sum, and it is at most 100. */
  function CalculateScore(common: set<string>, p: string): (r: nat)
    ensures r <= MaxScore
    ensures r == RawScore(common, p)
  {
    var raw := RawScore(common, p);
    if raw < MaxScore then raw else MaxScore
  }

  /** The score is 100 exactly when the password is longer than 20
      characters and the seven rules other than length all pass. */
  lemma PerfectScoreIff(common: set<string>, p: string)
    ensures CalculateScore(common, p) == MaxScore <==>
      && |p| > 20
      && HasAllTypes(p)
      && CheckCommonPassword(common, p).passed
      && CheckSequentialCharacters(p).passed
      && CheckRepeatedCharacters(p).passed
  {
  }

  /** A password that passes all eight rules scores at least 85: at least
      10 for twelve characters, 30 for the classes, 35 for the security
      rules and the 10-point bonus. */
  lemma AllRulesPassedScore(common: set<string>, p: string)
    requires CheckLength(p).passed
    requires HasAllTypes(p)
    requires CheckCommonPassword(common, p).passed
    requires CheckSequentialCharacters(p).passed
    requires CheckRepeatedCharacters(p).passed
    ensures CalculateScore(common, p) >= 85
  {
    LengthPointsMonotone(MinLength, |p|);
  }

  /** The five strength labels, weakest first. */
  datatype Strength = VeryWeak | Weak | Moderate | Strong | VeryStrong {

    /** The label text the checker returns. */
    function Name(): string {
      match this
      case VeryWeak => "Very Weak"
      case Weak => "Weak"
      case Moderate => "Moderate"
      case Strong => "Strong"
      case VeryStrong => "Very Strong"
    }

    /** Position in the order weakest to strongest. */
    function Rank(): nat {
      match this
      case VeryWeak => 0
      case Weak => 1
      case Moderate => 2
      case Strong => 3
      case VeryStrong => 4
    }

    /** The least score that earns the label. */
    function Floor(): int {
      match this
      case VeryWeak => 0
      case Weak => 26
      case Moderate => 51
      case Strong => 71
      case VeryStrong => 86
    }
  }

  /** The label of a score: the strongest label whose floor the score
      reaches, and "Very Weak" when it reaches none. */
  function StrengthLabel(score: int): (r: Strength)
    ensures r == VeryWeak || score >= r.Floor()
    ensures forall l: Strength :: r.Rank() < l.Rank() ==> score < l.Floor()
  {
    if score >= 86 then VeryStrong
    else if score >= 71 then Strong
    else if score >= 51 then Moderate
    else if score >= 26 then Weak
    else VeryWeak
  }

  /** A higher score never earns a weaker label. */
  lemma LabelMonotone(a: int, b: int)
    requires a <= b
    ensures StrengthLabel(a).Rank() <= StrengthLabel(b).Rank()
  {
  }

  /** Every label is earned by its own floor: the floors are the exact
      boundaries of the mapping. */
  lemma LabelOfFloor(l: Strength)
    ensures StrengthLabel(l.Floor()) == l
    ensures l != VeryWeak ==> StrengthLabel(l.Floor() - 1).Rank() == l.Rank() - 1
  {
  }

  /** The boundaries on both sides of each threshold. */
  lemma LabelBoundaries()
    ensures StrengthLabel(86) == VeryStrong && StrengthLabel(85) == Strong
    ensures StrengthLabel(71) == Strong && StrengthLabel(70) == Moderate
    ensures StrengthLabel(51) == Moderate && StrengthLabel(50) == Weak
    ensures StrengthLabel(26) == Weak && StrengthLabel(25) == VeryWeak
  {
  }

  /** Distinct labels have distinct names. */
  lemma NamesDistinct(l: Strength, m: Strength)
    ensures l.Name() == m.Name() ==> l == m
  {
  }
}
