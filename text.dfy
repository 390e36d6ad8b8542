/** The two string operations the analyzer relies on: finding the first
    occurrence of a character and splitting a string on a separator. */
module Text {
  /** The position of the first c in s, or |s| when c does not occur. */
  function FirstIndex(s: string, c: char): (i: nat)
    ensures i <= |s| && (i < |s| ==> s[i] == c)
    ensures forall j :: 0 <= j < i ==> s[j] != c
  {
    if s == [] then 0
    else if s[0] == c then 0
    else 1 + FirstIndex(s[1..], c)
  }

  lemma FirstIndexAbsent(s: string, c: char)
    requires c !in s
    ensures FirstIndex(s, c) == |s|
  {
  }

  lemma FirstIndexAt(s: string, c: char, i: nat)
    requires i < |s| && s[i] == c && forall j :: 0 <= j < i ==> s[j] != c
    ensures FirstIndex(s, c) == i
  {
  }

  /** The pieces of s between occurrences of sep, as Python's str.split
      with a separator gives them: one more piece than there are
      separators (SplitCount), none of them holding sep. */
  function Split(s: string, sep: char): (parts: seq<string>)
    ensures |parts| >= 1
    ensures forall k :: 0 <= k < |parts| ==> sep !in parts[k]
    decreases |s|
  {
    var i := FirstIndex(s, sep);
    if i == |s| then [s]
    else [s[..i]] + Split(s[i + 1..], sep)
  }

  /** Splitting gives one more piece than there are separators. */
  lemma {:induction false} SplitCount(s: string, sep: char)
    ensures |Split(s, sep)| == 1 + multiset(s)[sep]
    decreases |s|
  {
    var i := FirstIndex(s, sep);
    if i == |s| {
      assert sep !in s;
    } else {
      SplitCount(s[i + 1..], sep);
      assert s == s[..i] + [sep] + s[i + 1..];
      assert sep !in s[..i];
    }
  }

  /** Splitting a + [sep] + b, where a holds no separator, gives a and then
      the pieces of b. */
  lemma {:induction false} SplitAt(a: string, sep: char, b: string)
    requires sep !in a
    ensures Split(a + [sep] + b, sep) == [a] + Split(b, sep)
  {
    var s := a + [sep] + b;
    FirstIndexAt(s, sep, |a|);
    assert s[..|a|] == a && s[|a| + 1..] == b;
  }

  /** A string without the separator is a single piece. */
  lemma SplitNone(s: string, sep: char)
    requires sep !in s
    ensures Split(s, sep) == [s]
  {
    FirstIndexAbsent(s, sep);
  }
}
