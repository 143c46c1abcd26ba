/**
 The common-password list. The file read, the path resolution and the
 warnings printed while loading are I/O and are left to the caller, which
 hands the lines it read to `Load`; this module models what happens to them.
 */
module Denylist {
  import opened Ascii
  import opened Wrappers

  /** One line of the list as it is stored: stripped, then lower-cased. */
  function Normalize(line: string): (w: string)
    ensures IsStripped(w) && NoUpper(w)
    ensures |w| <= |line|
  {
    Lower(Strip(line))
  }

  /** The form every stored entry has: non-empty, stripped, lower case. */
  predicate IsEntry(w: string) {
    |w| > 0 && IsStripped(w) && NoUpper(w)
  }

  /** True when some line of `lines` normalises to `w`. */
  ghost predicate Listed(lines: seq<string>, w: string) {
    exists i :: 0 <= i < |lines| && Normalize(lines[i]) == w
  }

  /** The set built from the lines of the list: each line is normalised and
      blank results are skipped. A word is in the set exactly when some line
      normalises to it and it is not blank, and every entry has the stored
      form. */
  function Load(lines: seq<string>): (r: set<string>)
    ensures forall w :: w in r ==> IsEntry(w)
    ensures forall w :: w in r <==> |w| > 0 && Listed(lines, w)
    ensures |lines| == 0 ==> r == {}
  {
    if |lines| == 0 then {}
    else
      var front := lines[..|lines| - 1];
      var w := Normalize(lines[|lines| - 1]);
      ListedSnoc(front, lines[|lines| - 1]);
      assert front + [lines[|lines| - 1]] == lines;
      if |w| > 0 then Load(front) + {w} else Load(front)
  }

  /** Adding one line to the list adds exactly its normal form. */
  lemma ListedSnoc(front: seq<string>, line: string)
    ensures forall w :: Listed(front + [line], w) <==> Listed(front, w) || w == Normalize(line)
  {
    var lines := front + [line];
    forall w
      ensures Listed(lines, w) <==> Listed(front, w) || w == Normalize(line)
    {
      if Listed(lines, w) {
        var i :| 0 <= i < |lines| && Normalize(lines[i]) == w;
        if i < |front| { assert lines[i] == front[i]; }
      }
      if Listed(front, w) {
        var i :| 0 <= i < |front| && Normalize(front[i]) == w;
        assert lines[i] == front[i];
      }
      if w == Normalize(line) {
        assert lines[|front|] == line;
      }
    }
  }

  /** A source that is missing loads as the empty set: the common-password
      rule is then skipped rather than construction failing. */
  function LoadSource(source: Option<seq<string>>): (r: set<string>)
    ensures source.None? ==> r == {}
    ensures source.Some? ==> forall w :: w in r <==> |w| > 0 && Listed(source.value, w)
  {
    match source
    case None => {}
    case Some(lines) => Load(lines)
  }
}
