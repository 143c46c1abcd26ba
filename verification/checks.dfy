/**
 The eight rules of `PasswordChecker`. Each rule maps the password (and, for
 the common-password rule, the loaded list) to a verdict and a message.
 */
module Checks {
  import opened Ascii
  import opened Decimal
  import opened Wrappers

  /** The `(bool, str)` pair every rule returns. */
  datatype CheckOutcome = CheckOutcome(passed: bool, message: string)

  const PassMark: char := '✓'
  const FailMark: char := '✗'

  const MinLength: nat := 12
  /** How many characters of each class the class rules require. */
  const MinPerClass: nat := 2

  // ---------------------------------------------------------------------
  // Messages of the counting rules
  // ---------------------------------------------------------------------

  function Mark(ok: bool): char {
    if ok then PassMark else FailMark
  }

  /** True when `r` carries a counting message about `topic`: the mark says
      the verdict, the topic follows the mark, the measured value is the
      number right after `topic: `, and the threshold is the number right
      before the closing parenthesis. A number is read back from its digits
      by `Decimal.Value` (see `Decimal.ValueOfDigits`). */
  ghost predicate Reports(r: CheckOutcome, topic: string, measured: nat, threshold: nat) {
    var m := r.message;
    && |topic| + 4 <= |m|
    && (m[0] == PassMark <==> r.passed)
    && m[2..2 + |topic|] == topic
    && LeadingNumber(m[|topic| + 4..]) == Digits(measured)
    && m[|m| - 1] == ')'
    && TrailingNumber(m[..|m| - 1]) == Digits(threshold)
  }

  /** The message text of a counting rule, in its passing form
      `✓ <topic>: <n><unit> (minimum: <t>)` or its failing form
      `✗ <topic>: <n><unit> (minimum required: <t>)`. */
  function CountMessage(ok: bool, topic: string, count: nat, unit: string, required: nat): string {
    [Mark(ok)] + " " + topic + ": " + Digits(count) + unit + " ("
    + (if ok then "minimum: " else "minimum required: ") + Digits(required) + ")"
  }

  /** A counting message reports its verdict, topic, count and threshold,
      as long as the unit after the count does not start with a digit. */
  lemma CountMessageReports(ok: bool, topic: string, count: nat, unit: string, required: nat)
    requires |unit| == 0 || !IsDigit(unit[0])
    ensures Reports(CheckOutcome(ok, CountMessage(ok, topic, count, unit, required)), topic, count, required)
  {
    var head := [Mark(ok)] + " " + topic + ": ";
    var tail := unit + " (" + (if ok then "minimum: " else "minimum required: ");
    assert CountMessage(ok, topic, count, unit, required) == head + Digits(count) + tail + Digits(required) + ")";
    CountMessageReads(ok, head, topic, Digits(count), tail, Digits(required));
  }

  /** The reading half of `CountMessage`: both numbers are recovered from
      the text around them. */
  lemma CountMessageReads(ok: bool, head: string, topic: string, d1: string, tail: string, d2: string)
    requires head == [Mark(ok)] + " " + topic + ": "
    requires AllDigits(d1) && AllDigits(d2)
    requires |tail| > 0 && !IsDigit(tail[0]) && !IsDigit(tail[|tail| - 1])
    ensures var m := head + d1 + tail + d2 + ")";
      && |topic| + 4 <= |m|
      && (m[0] == PassMark <==> ok)
      && m[2..2 + |topic|] == topic
      && LeadingNumber(m[|topic| + 4..]) == d1
      && m[|m| - 1] == ')'
      && TrailingNumber(m[..|m| - 1]) == d2
  {
    var m := head + d1 + tail + d2 + ")";
    var front := head + d1 + tail;
    assert m == front + d2 + ")";
    assert m[..|m| - 1] == front + d2;
    TrailingNumberOf(front, d2);
    var rest := tail + d2 + ")";
    assert m == head + (d1 + rest);
    assert m[|head|..] == d1 + rest;
    LeadingNumberOf(d1, rest);
    assert m[0] == Mark(ok);
    assert m[2..2 + |topic|] == head[2..2 + |topic|] == topic;
  }

  // ---------------------------------------------------------------------
  // Rule 1: length
  // ---------------------------------------------------------------------

  /** Passes exactly when the password has at least 12 characters; the
      message reports the length and the minimum. */
  function CheckLength(p: string): (r: CheckOutcome)
    ensures r.passed <==> |p| >= MinLength
  {
    var ok := |p| >= MinLength;
    CheckOutcome(ok, CountMessage(ok, "Length", |p|, " characters", MinLength))
  }

  // ---------------------------------------------------------------------
  // Rules 2-5: character classes
  // ---------------------------------------------------------------------

  datatype CharClass = Uppercase | Lowercase | Number | SpecialChar

  predicate InClass(k: CharClass, c: char) {
    match k
    case Uppercase => IsUpper(c)
    case Lowercase => IsLower(c)
    case Number => IsDigit(c)
    case SpecialChar => IsSpecial(c)
  }

  /** For each position of `s`, whether its character is in class `k`. */
  function Flags(s: string, k: CharClass): (f: seq<bool>)
    ensures |f| == |s|
    ensures forall i :: 0 <= i < |s| ==> f[i] == InClass(k, s[i])
  {
    seq(|s|, i requires 0 <= i < |s| => InClass(k, s[i]))
  }

  /** The number of `true` flags among the first `n`. */
  function CountTrue(f: seq<bool>, n: nat): (m: nat)
    requires n <= |f|
    ensures m <= n
  {
    if n == 0 then 0 else CountTrue(f, n - 1) + (if f[n - 1] then 1 else 0)
  }

  /** The positions below `n` whose flag is `true`. */
  ghost function TrueBelow(f: seq<bool>, n: nat): set<int>
    requires n <= |f|
  {
    set i | 0 <= i < n && f[i]
  }

  /** The running count of `true` flags is the number of their positions. */
  lemma {:induction false} CountTrueIsTrueBelow(f: seq<bool>, n: nat)
    requires n <= |f|
    ensures CountTrue(f, n) == |TrueBelow(f, n)|
  {
    if n > 0 {
      CountTrueIsTrueBelow(f, n - 1);
      assert n - 1 !in TrueBelow(f, n - 1);
      if f[n - 1] {
        assert TrueBelow(f, n) == TrueBelow(f, n - 1) + {n - 1};
      } else {
        assert TrueBelow(f, n) == TrueBelow(f, n - 1);
      }
    }
  }

  /** `sum(1 for c in s if <c is in class k>)`. */
  function Count(s: string, k: CharClass): (n: nat)
    ensures n <= |s|
  {
    CountTrue(Flags(s, k), |s|)
  }

  /** The positions of `s` holding a character of class `k`. */
  ghost function Positions(s: string, k: CharClass): set<int> {
    set i | 0 <= i < |s| && InClass(k, s[i])
  }

  /** The running count is the number of matching positions. */
  lemma CountIsPositions(s: string, k: CharClass)
    ensures Count(s, k) == |Positions(s, k)|
  {
    var f := Flags(s, k);
    CountTrueIsTrueBelow(f, |s|);
    assert Positions(s, k) == TrueBelow(f, |s|);
  }

  /** The shared shape of the four class rules. */
  function ClassCheck(p: string, k: CharClass, topic: string): (r: CheckOutcome)
    ensures r.passed <==> |Positions(p, k)| >= MinPerClass
  {
    var n := Count(p, k);
    CountIsPositions(p, k);
    var ok := n >= MinPerClass;
    CheckOutcome(ok, CountMessage(ok, topic, n, "", MinPerClass))
  }

  /** Passes exactly when at least two characters are upper case. */
  function CheckUppercase(p: string): (r: CheckOutcome)
    ensures r.passed <==> |Positions(p, Uppercase)| >= MinPerClass
  {
    ClassCheck(p, Uppercase, "Uppercase letters")
  }

  /** Passes exactly when at least two characters are lower case. */
  function CheckLowercase(p: string): (r: CheckOutcome)
    ensures r.passed <==> |Positions(p, Lowercase)| >= MinPerClass
  {
    ClassCheck(p, Lowercase, "Lowercase letters")
  }

  /** Passes exactly when at least two characters are decimal digits. */
  function CheckNumbers(p: string): (r: CheckOutcome)
    ensures r.passed <==> |Positions(p, Number)| >= MinPerClass
  {
    ClassCheck(p, Number, "Numbers")
  }

  /** Passes exactly when at least two characters are in the special set. */
  function CheckSpecialCharacters(p: string): (r: CheckOutcome)
    ensures r.passed <==> |Positions(p, SpecialChar)| >= MinPerClass
  {
    ClassCheck(p, SpecialChar, "Special characters")
  }

  /** The length message reports the length and the minimum of 12. */
  lemma LengthMessageReports(p: string)
    ensures Reports(CheckLength(p), "Length", |p|, MinLength)
  {
    CountMessageReports(|p| >= MinLength, "Length", |p|, " characters", MinLength);
  }

  /** Each class message reports how many characters of its class the
      password has and the minimum of 2. */
  lemma ClassMessageReports(p: string, k: CharClass, topic: string)
    ensures Reports(ClassCheck(p, k, topic), topic, |Positions(p, k)|, MinPerClass)
  {
    CountIsPositions(p, k);
    CountMessageReports(Count(p, k) >= MinPerClass, topic, Count(p, k), "", MinPerClass);
  }

  // ---------------------------------------------------------------------
  // Rule 6: common password
  // ---------------------------------------------------------------------

  const SkippedMessage: string := "Common password check skipped (no file)"
  const CommonMessage: string := "✗ This is a commonly used password (not secure)"
  const NotCommonMessage: string := "✓ Not a common password"

  /** Skipped (and passing) when the list is empty; otherwise fails exactly
      when the lower-cased password is listed. */
  function CheckCommonPassword(common: set<string>, p: string): (r: CheckOutcome)
    ensures r.passed <==> common == {} || Lower(p) !in common
    ensures common == {} ==> r.message == SkippedMessage
    ensures common != {} ==> r.message == if r.passed then NotCommonMessage else CommonMessage
  {
    if |common| == 0 then CheckOutcome(true, SkippedMessage)
    else if Lower(p) in common then CheckOutcome(false, CommonMessage)
    else CheckOutcome(true, NotCommonMessage)
  }

  /** The rule ignores letter case: passwords that agree after lower-casing
      get the same outcome. */
  lemma CommonPasswordIgnoresCase(common: set<string>, p: string, q: string)
    requires Lower(p) == Lower(q)
    ensures CheckCommonPassword(common, p) == CheckCommonPassword(common, q)
  {
  }

  // ---------------------------------------------------------------------
  // Rule 7: sequential characters
  // ---------------------------------------------------------------------

  const SequentialMessage: string := "✗ Contains sequential characters"
  const NoSequentialMessage: string := "✓ No sequential characters found."

  /** Three code points starting at `i` that climb, or fall, by one each. */
  predicate SequentialAt(s: string, i: nat)
    requires i + 2 < |s|
  {
    || (s[i + 1] as int == s[i] as int + 1 && s[i + 2] as int == s[i] as int + 2)
    || (s[i + 1] as int == s[i] as int - 1 && s[i + 2] as int == s[i] as int - 2)
  }

  /** The reference condition of the rule: some window of three consecutive
      characters of the lower-cased password is an ascending or descending
      run of code points. */
  ghost predicate HasSequentialRun(p: string) {
    var l := Lower(p);
    exists i: nat :: i + 2 < |l| && SequentialAt(l, i)
  }

  /** The scan `for i in range(len(password) - 2)`, from window `i` on: the
      first window holding a run, or `None` when none from `i` on does. */
  function FindSequential(s: string, i: nat): (r: Option<nat>)
    ensures r.None? <==> forall j: nat :: i <= j && j + 2 < |s| ==> !SequentialAt(s, j)
    ensures r.Some? ==> i <= r.value && r.value + 2 < |s| && SequentialAt(s, r.value)
    decreases |s| - i
  {
    if i + 2 >= |s| then None
    else if SequentialAt(s, i) then Some(i)
    else FindSequential(s, i + 1)
  }

  /** Fails exactly when the lower-cased password holds a sequential run. */
  function CheckSequentialCharacters(p: string): (r: CheckOutcome)
    ensures r.passed <==> !HasSequentialRun(p)
    ensures r.message == if r.passed then NoSequentialMessage else SequentialMessage
  {
    if FindSequential(Lower(p), 0).Some? then CheckOutcome(false, SequentialMessage)
    else CheckOutcome(true, NoSequentialMessage)
  }

  /** Passwords of fewer than three characters have no window to scan. */
  lemma ShortPasswordHasNoSequence(p: string)
    requires |p| < 3
    ensures CheckSequentialCharacters(p).passed
  {
  }

  // ---------------------------------------------------------------------
  // Rule 8: repeated characters
  // ---------------------------------------------------------------------

  const NoRepeatedMessage: string := "✓ No repeated characters"
  const RepeatedPrefix: string := "✗ Contains repeated characters: ('"
  const RepeatedSuffix: string := "')"

  /** Where a match of the pattern `(.)\1{2,3}` starts: a character other
      than a newline (which `.` does not match) repeated at the next two
      positions. */
  predicate TripleAt(s: string, i: nat)
    requires i + 2 < |s|
  {
    s[i] != '\n' && s[i + 1] == s[i] && s[i + 2] == s[i]
  }

  /** The reference condition of the rule: some character other than a
      newline occurs three times in a row. */
  ghost predicate HasRepeatedRun(p: string) {
    exists i: nat :: i + 2 < |p| && TripleAt(p, i)
  }

  /** The first start of a triple at or after `i`. */
  function FindTriple(s: string, i: nat): (r: Option<nat>)
    ensures r.None? <==> forall j: nat :: i <= j && j + 2 < |s| ==> !TripleAt(s, j)
    ensures r.Some? ==> i <= r.value && r.value + 2 < |s| && TripleAt(s, r.value)
    ensures r.Some? ==> forall j: nat :: i <= j < r.value ==> !TripleAt(s, j)
    decreases |s| - i
  {
    if i + 2 >= |s| then None
    else if TripleAt(s, i) then Some(i)
    else FindTriple(s, i + 1)
  }

  /** A matched substring: where it starts and how long it is. */
  datatype Span = Span(start: nat, len: nat)

  /** What `re.search(r'(.)\1{2,3}', p)` matches: the leftmost triple,
      extended greedily by a fourth copy of the character when one follows. */
  function SearchRepeated(p: string): (r: Option<Span>)
    ensures r.None? <==> !HasRepeatedRun(p)
    ensures r.Some? ==> var m := r.value;
      && (m.len == 3 || m.len == 4)
      && m.start + m.len <= |p|
      && TripleAt(p, m.start)
      && (forall j: nat :: j < m.start ==> !TripleAt(p, j))
      && (forall k :: m.start <= k < m.start + m.len ==> p[k] == p[m.start])
      && (m.len == 4 <==> m.start + 3 < |p| && p[m.start + 3] == p[m.start])
  {
    match FindTriple(p, 0)
    case None => None
    case Some(i) =>
      var n := if i + 3 < |p| && p[i + 3] == p[i] then 4 else 3;
      Some(Span(i, n))
  }

  /** Fails exactly when some character other than a newline occurs three
      times in a row; the message quotes the leftmost match. */
  function CheckRepeatedCharacters(p: string): (r: CheckOutcome)
    ensures r.passed <==> !HasRepeatedRun(p)
    ensures r.passed ==> r.message == NoRepeatedMessage
    ensures !r.passed ==> var m := SearchRepeated(p).value;
      r.message == RepeatedPrefix + p[m.start..m.start + m.len] + RepeatedSuffix
  {
    match SearchRepeated(p)
    case None => CheckOutcome(true, NoRepeatedMessage)
    case Some(m) => CheckOutcome(false, RepeatedPrefix + p[m.start..m.start + m.len] + RepeatedSuffix)
  }
}
