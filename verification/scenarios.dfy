/**
 Concrete inputs run through the model: the normal forms lines load as,
 the rule verdicts, scores and labels particular passwords get.
 */
module DenylistExamples {
  import opened Wrappers
  import opened Ascii
  import opened Denylist

  /** A list of one line that is not blank loads exactly its normal form. */
  lemma LoadOne(line: string)
    requires |Normalize(line)| > 0
    ensures Load([line]) == {Normalize(line)}
  {
    var lines := [line];
    assert lines[..0] == [];
    assert lines[0] == line;
    assert Load(lines) == Load([]) + {Normalize(line)};
  }

  /** The line "password123" is already in normal form. */
  lemma PlainLineNormal()
    ensures Normalize("password123") == "password123"
  {
    var t := "password123";
    StrippedIsFixed(t);
    assert NoUpper(t);
    LowerIdempotent(t);
  }

  /** The line "PASSWORD123" read with its line break is stripped and
      lower-cased. */
  lemma UpperLineNormal()
    ensures Normalize("PASSWORD123\n") == "password123"
  {
    var t := "PASSWORD123";
    StripTrailingSpace(t, '\n');
    assert t + ['\n'] == "PASSWORD123\n";
    assert Lower(t) == "password123";
  }

  /** Both lines load as the single entry "password123". */
  lemma OneEntryLists()
    ensures Load(["password123"]) == {"password123"}
    ensures Load(["PASSWORD123\n"]) == {"password123"}
  {
    PlainLineNormal();
    LoadOne("password123");
    UpperLineNormal();
    LoadOne("PASSWORD123\n");
  }
}

module RuleExamples {
  import opened Wrappers
  import opened Ascii
  import opened Denylist
  import opened Checks
  import opened DenylistExamples

  /** Ascending and descending runs of letters or digits fail the
      sequential rule; letters that only form a run once lower-cased do too. */
  lemma SequentialExamples()
    ensures !CheckSequentialCharacters("abc").passed
    ensures !CheckSequentialCharacters("x321").passed
    ensures !CheckSequentialCharacters("`AB").passed
    ensures CheckSequentialCharacters("ace").passed
    ensures CheckSequentialCharacters("ab").passed
  {
    assert SequentialAt("abc", 0);
    assert SequentialAt("x321", 1);
    assert SequentialAt("`ab", 0);
  }

  /** A run of three or more of one character fails the repeated rule and
      the message quotes at most four of them; a run of newlines does not
      count. */
  lemma RepeatedExamples()
    ensures CheckRepeatedCharacters("aaa") == CheckOutcome(false, "✗ Contains repeated characters: ('aaa')")
    ensures CheckRepeatedCharacters("x11111") == CheckOutcome(false, "✗ Contains repeated characters: ('1111')")
    ensures CheckRepeatedCharacters("aab") == CheckOutcome(true, "✓ No repeated characters")
    ensures CheckRepeatedCharacters("\n\n\n").passed
  {
    assert TripleAt("aaa", 0);
    assert TripleAt("x11111", 1);
    assert !TripleAt("x11111", 0);
  }

  /** A list holding "password123" rejects that password in any letter
      case. */
  lemma CaseInsensitiveMatch()
    ensures !CheckCommonPassword({"password123"}, "Password123").passed
    ensures !CheckCommonPassword({"password123"}, "pAsSwOrD123").passed
  {
    assert Lower("Password123") == "password123";
    assert Lower("pAsSwOrD123") == "password123";
  }

  /** The same, with the list loaded from its lines. */
  lemma CommonPasswordExamples()
    ensures !CheckCommonPassword(Load(["password123"]), "Password123").passed
    ensures !CheckCommonPassword(Load(["PASSWORD123\n"]), "pAsSwOrD123").passed
  {
    OneEntryLists();
    CaseInsensitiveMatch();
  }

  /** With no list the rule is skipped and passes. */
  lemma MissingListExample()
    ensures CheckCommonPassword(LoadSource(None), "password123")
         == CheckOutcome(true, "Common password check skipped (no file)")
  {
  }

  /** A set holding two distinct elements has at least two. */
  lemma AtLeastTwo(s: set<int>, a: int, b: int)
    requires a in s && b in s && a != b
    ensures |s| >= 2
  {
    assert s == (s - {a, b}) + {a, b};
  }

  /** "Abc12345!!" has one upper-case letter, too few for the rule. */
  lemma ShortMixedUpper()
    ensures !CheckUppercase("Abc12345!!").passed
  {
    assert Positions("Abc12345!!", Uppercase) == {0};
  }

  /** "Abc12345!!" has two lower-case letters. */
  lemma ShortMixedLower()
    ensures CheckLowercase("Abc12345!!").passed
  {
    assert Positions("Abc12345!!", Lowercase) == {1, 2};
  }

  /** "Abc12345!!" has five digits. */
  lemma ShortMixedNumbers()
    ensures CheckNumbers("Abc12345!!").passed
  {
    AtLeastTwo(Positions("Abc12345!!", Number), 3, 4);
  }

  /** "Abc12345!!" has two special characters. */
  lemma ShortMixedSpecials()
    ensures CheckSpecialCharacters("Abc12345!!").passed
  {
    AtLeastTwo(Positions("Abc12345!!", SpecialChar), 8, 9);
  }

  /** The class verdicts on "Abc12345!!": one upper-case letter is too
      few; the other three classes pass. */
  lemma ShortMixedClassVerdicts()
    ensures !CheckUppercase("Abc12345!!").passed
    ensures CheckLowercase("Abc12345!!").passed
    ensures CheckNumbers("Abc12345!!").passed
    ensures CheckSpecialCharacters("Abc12345!!").passed
  {
    ShortMixedUpper();
    ShortMixedLower();
    ShortMixedNumbers();
    ShortMixedSpecials();
  }

  /** The verdicts of the three security rules on "Abc12345!!": "abc" is a
      sequential run, and no character repeats three times. */
  lemma ShortMixedSecurityVerdicts()
    ensures CheckCommonPassword({}, "Abc12345!!").passed
    ensures !CheckSequentialCharacters("Abc12345!!").passed
    ensures CheckRepeatedCharacters("Abc12345!!").passed
  {
    ShortMixedSequential();
    ShortMixedNoRepeat();
  }

  lemma ShortMixedSequential()
    ensures !CheckSequentialCharacters("Abc12345!!").passed
  {
    assert SequentialAt(Lower("Abc12345!!"), 0);
  }

  lemma ShortMixedNoRepeat()
    ensures CheckRepeatedCharacters("Abc12345!!").passed
  {
  }

  /** The eight verdicts on "Abc12345!!": length fails (10 < 12), one
      upper-case letter fails, "abc" is a sequential run; the other five pass. */
  lemma ShortMixedVerdicts()
    ensures !CheckLength("Abc12345!!").passed
    ensures !CheckUppercase("Abc12345!!").passed
    ensures CheckLowercase("Abc12345!!").passed
    ensures CheckNumbers("Abc12345!!").passed
    ensures CheckSpecialCharacters("Abc12345!!").passed
    ensures CheckCommonPassword({}, "Abc12345!!").passed
    ensures !CheckSequentialCharacters("Abc12345!!").passed
    ensures CheckRepeatedCharacters("Abc12345!!").passed
  {
    ShortMixedClassVerdicts();
    ShortMixedSecurityVerdicts();
  }
}

module ScoreExamples {
  import opened Checks
  import opened Scoring
  import opened Evaluator
  import opened RuleExamples

  /** "Abc12345!!" scores 5 + 8 + 7 + 7 + 15 + 10 = 52. */
  lemma ShortMixedScore()
    ensures CalculateScore({}, "Abc12345!!") == 52
  {
    ShortMixedVerdicts();
  }

  /** "Abc12345!!" is reported with score 52 and label "Moderate". */
  lemma ShortMixedPassword()
    ensures var r := CheckPassword(Checker({}), "Abc12345!!");
      r.score == 52 && r.strength == Moderate
  {
    ShortMixedScore();
  }

  /** "Abc12345!!" passes 5 of the 8 rules. */
  lemma ShortMixedPassed()
    ensures CheckPassword(Checker({}), "Abc12345!!").passed == 5
  {
    ShortMixedVerdicts();
    var r := CheckPassword(Checker({}), "Abc12345!!");
    CountPassedOfEight(r.results);
  }
}
