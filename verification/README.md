# Password strength checker: a Dafny model

This project models the evaluation engine of the password strength checker:
the class `PasswordChecker` in `password_checker.py`, without its printing
and file handling. The engine has four parts:

- eight independent rules, each mapping a password to a verdict and a message:
  - length of at least 12;
  - at least two upper-case letters;
  - at least two lower-case letters;
  - at least two digits;
  - at least two characters from a fixed special set;
  - not in a list of common passwords, compared case-insensitively;
  - no ascending or descending run of three code points;
  - no character three times in a row.
- an additive score from 0 to 100.
- a strength label chosen by four thresholds.
- the entry point `check_password`, which runs the eight rules in order and
  reports the outcomes, how many passed, the score and the label.

The common-password list is built from the lines of a text file. Each line is
stripped and lower-cased, and blank results are dropped. The model takes the
lines as a parameter, and `None` stands for a file that cannot be found.

Modules, in dependency order:

- `Wrappers`: the `Option` datatype.
- `Ascii`: the character classes, lower-casing and stripping.
- `Decimal`: how integers appear in messages, and how a number is read back
  from the text around it.
- `Denylist`: line normalisation and loading of the list.
- `Checks`: the eight rules, each with a reference predicate for its verdict:
  - the class rules pass when the set of matching positions has at least two
    elements;
  - the sequential rule fails when some window of the lower-cased password is
    a run;
  - the repeated-character rule fails when some non-newline character is
    followed by two copies of itself.
- `Scoring`: `calculate_score` and `get_strength_label`.
- `Evaluator`: the checker, the report of `check_password`, and the lemmas that
  tie the report to the score.
- `DenylistExamples`, `RuleExamples` and `ScoreExamples`: concrete inputs worked
  through the model.

The character domain is ASCII:

- upper case is `A`-`Z`;
- lower case is `a`-`z`;
- digits are `0`-`9`;
- lower-casing changes only `A`-`Z`;
- whitespace is the ASCII part of Python's `str.isspace`.

Where the source's comments and its code differ, the model follows the code:

- The comment at `password_checker.py:199` announces "max 50 points" for the
  three security rules, but their weights add up to 35 (15 + 10 + 10). The
  model uses 35. All the weights then add up to exactly 100, so the cap
  `min(score, 100)` never lowers a score (`Scoring.CalculateScore`).
- The sequential rule scans `range(len(password) - 2)` over the lower-cased
  text. On the ASCII domain lower-casing keeps the length, so both lengths
  agree.

## Model

| member | source | states |
|---|---|---|
| Ascii.ClassesDisjoint | password_checker.py:62-108 | A special character is never a letter or a digit, and no character is in two of the upper, lower and digit classes |
| Ascii.Lower | password_checker.py:123 | Lower-casing keeps the length and maps each position independently |
| Ascii.LowerMapsOnlyUpper | password_checker.py:123 | After lower-casing no upper-case letter is left; each upper-case letter becomes the lower-case letter 32 code points above it, and every other character is kept |
| Ascii.LowerIdempotent | password_checker.py:147 | Lower-casing twice is lower-casing once, and a string without upper-case letters is unchanged |
| Ascii.Strip | password_checker.py:29 | The stripped line neither starts nor ends with whitespace and is no longer than the line |
| Ascii.StripIsInfix | password_checker.py:29 | The stripped line is the part of the line between a whitespace prefix and a whitespace suffix, starting where the leading whitespace ends |
| Ascii.StripEmptyIffSpace | password_checker.py:29-30 | A line strips to the empty string exactly when it is all whitespace, so exactly such lines are skipped |
| Ascii.StrippedIsFixed | password_checker.py:29 | A string that neither starts nor ends with whitespace is its own stripped form |
| Ascii.StripTrailingSpace | password_checker.py:28-29 | The line break a line is read with is removed by stripping |
| Ascii.StripIdempotent | password_checker.py:29 | Stripping twice is stripping once |
| Decimal.Digits | password_checker.py:51 | The decimal text of a count is non-empty, all digits and has no leading zero |
| Decimal.ValueOfDigits | password_checker.py:51 | Reading back the decimal text of a number gives the number |
| Decimal.DigitsInjective | password_checker.py:66 | Different counts give different message text |
| Decimal.LeadingNumberOf | password_checker.py:66 | A number followed by a non-digit is read back whole from the front of the text |
| Decimal.TrailingNumberOf | password_checker.py:68 | A number preceded by a non-digit is read back whole from the end of the text |
| Denylist.Normalize | password_checker.py:29 | A normalised line is stripped and has no upper-case letter left |
| Denylist.ListedSnoc | password_checker.py:28-31 | Reading one more line adds exactly that line's normal form to the words the lines produce |
| Denylist.Load | password_checker.py:20-31 | A word is in the loaded set exactly when some line normalises to it and it is not empty; every entry is non-empty, stripped and lower case |
| Denylist.LoadSource | password_checker.py:20-38 | A missing file gives the empty set; the lines of a readable file give the set that `Load` characterises |
| Checks.CountMessageReports | password_checker.py:50-53 | A counting message starts with the mark of its verdict, then the topic, then the measured number, and ends with the threshold in parentheses |
| Checks.CountMessageReads | password_checker.py:51-53 | Both numbers of a counting message are recovered from the text around them |
| Checks.CheckLength | password_checker.py:42-53 | The length rule passes exactly when the password has at least 12 characters |
| Checks.LengthMessageReports | password_checker.py:47-53 | The length message reports the verdict, the password's length and the minimum 12 |
| Checks.CountTrueIsTrueBelow | password_checker.py:62 | The running count of flagged positions equals the size of the set of flagged positions |
| Checks.CountIsPositions | password_checker.py:62 | The per-class count of the source equals the number of positions holding a character of that class |
| Checks.ClassCheck | password_checker.py:62-68 | A class rule passes exactly when at least two positions hold a character of its class |
| Checks.ClassMessageReports | password_checker.py:62-68 | A class message reports the verdict, the number of characters of the class and the minimum 2 |
| Checks.CheckUppercase | password_checker.py:57-68 | Passes exactly when at least two positions hold an upper-case letter |
| Checks.CheckLowercase | password_checker.py:72-83 | Passes exactly when at least two positions hold a lower-case letter |
| Checks.CheckNumbers | password_checker.py:87-98 | Passes exactly when at least two positions hold a digit |
| Checks.CheckSpecialCharacters | password_checker.py:102-114 | Passes exactly when at least two positions hold a character of the special set |
| Checks.CheckCommonPassword | password_checker.py:140-150 | With an empty list the rule is skipped and passes; otherwise it fails exactly when the lower-cased password is listed, with the matching message |
| Checks.CommonPasswordIgnoresCase | password_checker.py:147 | Passwords that agree after lower-casing get the same outcome |
| Checks.FindSequential | password_checker.py:126-134 | The scan finds nothing exactly when no window from the start position is a run; what it finds is a run |
| Checks.CheckSequentialCharacters | password_checker.py:118-136 | Fails exactly when some window of three characters of the lower-cased password climbs or falls by one code point each, with the matching message |
| Checks.ShortPasswordHasNoSequence | password_checker.py:126 | Passwords shorter than three characters always pass the sequential rule |
| Checks.FindTriple | password_checker.py:160-161 | The search finds nothing exactly when no triple starts from the given position; otherwise it finds the leftmost one |
| Checks.SearchRepeated | password_checker.py:159-164 | The match exists exactly when some non-newline character occurs three times in a row; it is the leftmost such run, three or four copies of one character, four exactly when a fourth copy follows |
| Checks.CheckRepeatedCharacters | password_checker.py:154-167 | Fails exactly when some non-newline character occurs three times in a row, and the message quotes the leftmost match |
| Scoring.LengthPoints | password_checker.py:178-187 | Length earns at most 20 points, in steps of 5, and nothing below 8 characters |
| Scoring.LengthPointsMonotone | password_checker.py:179-187 | A longer password never earns fewer length points |
| Scoring.CalculateScore | password_checker.py:171-224 | The score is at most 100 and is the uncapped sum of all weights earned, so the cap never changes a score |
| Scoring.PerfectScoreIff | password_checker.py:176-224 | The score is 100 exactly when the password is longer than 20 characters and the seven rules other than length all pass |
| Scoring.AllRulesPassedScore | password_checker.py:176-224 | A password that passes all eight rules scores at least 85 |
| Scoring.StrengthLabel | password_checker.py:228-242 | The label is the strongest one whose floor the score reaches, and "Very Weak" when none is reached |
| Scoring.LabelMonotone | password_checker.py:233-242 | A higher score never gets a weaker label |
| Scoring.LabelOfFloor | password_checker.py:233-242 | Each label's floor earns that label, and one point less earns the label just below |
| Scoring.LabelBoundaries | password_checker.py:233-242 | The label changes at 86, 71, 51 and 26, and not one point earlier |
| Scoring.NamesDistinct | password_checker.py:234-242 | The five labels have five different names |
| Evaluator.NewChecker | password_checker.py:9-12 | A new checker holds exactly the loaded list: empty when the file is missing, otherwise the non-empty normal forms of its lines |
| Evaluator.PassedFrom | password_checker.py:279 | The count of passing outcomes from a position on is the size of the set of their positions |
| Evaluator.CountPassed | password_checker.py:279 | The number passed is the size of the set of positions whose outcome passed |
| Evaluator.RunChecksInRuleOrder | password_checker.py:260-269 | Outcome i of the report comes from rule i of the fixed rule order |
| Evaluator.CheckPassword | password_checker.py:246-281 | The empty password alone is rejected, with score 0, "Very Weak" and the single empty-password outcome. Any other password gets the eight outcomes in order, total 8, the number that passed, the score and the label of that score |
| Evaluator.CountPassedOfEight | password_checker.py:279 | The number passed over eight outcomes is the sum of their verdicts |
| Evaluator.FullCountMeansAllPassed | password_checker.py:279 | When the count of passing outcomes equals the number of outcomes, every outcome passed |
| Evaluator.EarnedPointsInOrder | password_checker.py:189-205 | The weights earned over a report are 8, 8, 7, 7, 15, 10 and 10 for the rules after length that passed |
| Evaluator.ScoreFromReport | password_checker.py:259-272 | The score of a non-empty password is recomputed from its report: the length tier, the weights of the passing rules, 10 when all four class rules passed, and 5 above 20 characters |
| Evaluator.AllPassedIsStrong | password_checker.py:259-281 | A report in which all eight rules passed has score at least 85 and label "Strong" or better |
| Evaluator.EmptyPasswordBypassesScoring | password_checker.py:251-256 | The empty password gets score 0 even though scoring it would give 35 |
| DenylistExamples.LoadOne | password_checker.py:28-31 | A one-line list with a non-blank line loads exactly that line's normal form |
| DenylistExamples.PlainLineNormal | password_checker.py:29 | The line "password123" is already in normal form |
| DenylistExamples.UpperLineNormal | password_checker.py:29 | The line "PASSWORD123" with its line break normalises to "password123" |
| DenylistExamples.OneEntryLists | password_checker.py:27-31 | Both of those one-line files load as the single entry "password123" |
| RuleExamples.SequentialExamples | password_checker.py:123-136 | "abc", "x321" and "`AB" fail the sequential rule, the last only after lower-casing; "ace" and "ab" pass |
| RuleExamples.RepeatedExamples | password_checker.py:159-167 | "aaa" and "x11111" fail and their messages quote 'aaa' and '1111'; "aab" passes, and so do three newlines |
| RuleExamples.CaseInsensitiveMatch | password_checker.py:147-148 | A list holding "password123" rejects "Password123" and "pAsSwOrD123" |
| RuleExamples.CommonPasswordExamples | password_checker.py:140-150 | The same rejections hold when the list is loaded from its lines |
| RuleExamples.MissingListExample | password_checker.py:145-146 | Without a list the rule passes with the "skipped" message |
| RuleExamples.ShortMixedVerdicts | password_checker.py:42-167 | "Abc12345!!" fails length, upper case and sequential, and passes the other five rules |
| ScoreExamples.ShortMixedScore | password_checker.py:176-224 | "Abc12345!!" scores 52 |
| ScoreExamples.ShortMixedPassword | password_checker.py:271-278 | "Abc12345!!" is reported with score 52 and label "Moderate" |
| ScoreExamples.ShortMixedPassed | password_checker.py:279-280 | "Abc12345!!" passes 5 of the 8 rules |

## Left out

- The file system part of `load_common_passwords`, not modelled because it is I/O: resolving the script's directory, opening `data/common_passwords.txt`, and the messages it prints. A missing file is the `None` source. An error part-way through reading leaves the set built so far in the source; in the model that is the lines read before the error.
- All `print` output, not modelled because it is I/O.
- The console driver `main` and the separate `main.py`, not modelled because they only read input and print reports.
- Unicode semantics of `isupper`, `islower`, `isdigit`, `lower` and `strip`, not modelled because the model works on ASCII. Non-ASCII letters and digits belong to no class, and lower-casing leaves them unchanged.
- The regular-expression engine. Only the one pattern `(.)\1{2,3}` is modelled, by `Checks.SearchRepeated`.
- The text of Python's integer formatting beyond what `Decimal.Digits` states: decimal digits with no leading zero.
- Checks.CheckLength: its contract states the verdict; the message is stated through what it reports (`Checks.LengthMessageReports`), not character by character.
- Checks.ClassCheck: its contract states the verdict; the message is stated through `Checks.ClassMessageReports`.
- Checks.CheckUppercase: its contract states the verdict; the message is stated through `Checks.ClassMessageReports`.
- Checks.CheckLowercase: its contract states the verdict; the message is stated through `Checks.ClassMessageReports`.
- Checks.CheckNumbers: its contract states the verdict; the message is stated through `Checks.ClassMessageReports`.
- Checks.CheckSpecialCharacters: its contract states the verdict; the message is stated through `Checks.ClassMessageReports`.
- The dictionary returned by `check_password`. It becomes the `Evaluator.Report` datatype, and the label is the `Scoring.Strength` value whose `Name()` is the source's label text.
