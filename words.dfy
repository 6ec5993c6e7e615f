/**
 * Word counting as done by the length checks on joke titles and bodies:
 * `len(x.split())` with no separator argument, which splits a string into
 * the maximal runs of non-whitespace characters.
 */
module Words {

  /** The characters Python's argument-less `str.split()` treats as whitespace. */
  predicate IsSpace(c: char) {
    || c == ' '
    || ('\t' <= c <= '\r')            // tab, line feed, vertical tab, form feed, carriage return
    || ('\U{1c}' <= c <= '\U{1f}')     // file, group, record and unit separators
    || c == '\U{85}' || c == '\U{a0}' || c == '\U{1680}'
    || ('\U{2000}' <= c <= '\U{200a}')
    || c == '\U{2028}' || c == '\U{2029}' || c == '\U{202f}' || c == '\U{205f}' || c == '\U{3000}'
  }

  predicate NoSpace(w: string) {
    forall p :: 0 <= p < |w| ==> !IsSpace(w[p])
  }

  predicate Blank(s: string) {
    forall p :: 0 <= p < |s| ==> IsSpace(s[p])
  }

  /** The first index at or after `i` that is not whitespace (or the end). */
  function SkipSpace(s: string, i: nat): (j: nat)
    requires i <= |s|
    ensures i <= j <= |s|
    ensures forall p :: i <= p < j ==> IsSpace(s[p])
    ensures j == |s| || !IsSpace(s[j])
    decreases |s| - i
  {
    if i == |s| || !IsSpace(s[i]) then i else SkipSpace(s, i + 1)
  }

  /** The first index at or after `i` that is whitespace (or the end). */
  function SkipWord(s: string, i: nat): (j: nat)
    requires i <= |s|
    ensures i <= j <= |s|
    ensures forall p :: i <= p < j ==> !IsSpace(s[p])
    ensures j == |s| || IsSpace(s[j])
    decreases |s| - i
  {
    if i == |s| || IsSpace(s[i]) then i else SkipWord(s, i + 1)
  }

  /** The words of `s[i..]`, scanning left to right as `str.split()` does. */
  function SplitFrom(s: string, i: nat): (words: seq<string>)
    requires i <= |s|
    ensures forall w :: w in words ==> w != [] && NoSpace(w)
    decreases |s| - i
  {
    var j := SkipSpace(s, i);
    if j == |s| then []
    else
      var k := SkipWord(s, j);
      [s[j..k]] + SplitFrom(s, k)
  }

  function Split(s: string): seq<string> {
    SplitFrom(s, 0)
  }

  function WordCount(s: string): nat {
    |Split(s)|
  }

  // An independent definition of the count: the number of positions that start a run
  // of non-whitespace characters.

  predicate RunStart(s: string, p: nat)
    requires p < |s|
  {
    !IsSpace(s[p]) && (p == 0 || IsSpace(s[p - 1]))
  }

  function RunStartsFrom(s: string, i: nat): nat
    requires i <= |s|
    decreases |s| - i
  {
    if i == |s| then 0 else (if RunStart(s, i) then 1 else 0) + RunStartsFrom(s, i + 1)
  }

  lemma {:induction false} NoRunStartsBetween(s: string, i: nat, j: nat)
    requires i <= j <= |s|
    requires forall p :: i <= p < j ==> !RunStart(s, p)
    ensures RunStartsFrom(s, i) == RunStartsFrom(s, j)
    decreases j - i
  {
    if i < j {
      NoRunStartsBetween(s, i + 1, j);
    }
  }

  lemma {:induction false} SplitFromCountsRunStarts(s: string, i: nat)
    requires i <= |s|
    requires i == 0 || i == |s| || IsSpace(s[i - 1]) || IsSpace(s[i])
    ensures |SplitFrom(s, i)| == RunStartsFrom(s, i)
    decreases |s| - i
  {
    var j := SkipSpace(s, i);
    NoRunStartsBetween(s, i, j);
    if j < |s| {
      var k := SkipWord(s, j);
      assert RunStart(s, j);
      assert RunStartsFrom(s, j) == 1 + RunStartsFrom(s, j + 1);
      NoRunStartsBetween(s, j + 1, k);
      SplitFromCountsRunStarts(s, k);
    }
  }

  /** `str.split()` yields exactly one word per run start. */
  lemma WordCountIsRunStarts(s: string)
    ensures WordCount(s) == RunStartsFrom(s, 0)
  {
    SplitFromCountsRunStarts(s, 0);
  }

  /** A string has no words exactly when it is empty or all whitespace. */
  lemma WordCountZeroIffBlank(s: string)
    ensures WordCount(s) == 0 <==> Blank(s)
  {
  }
}
