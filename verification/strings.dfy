/** The string operations the matcher applies: ASCII lower-casing and ", "-joined lists. */
module Strings {

  /** Lower-cases one ASCII letter; every other character is unchanged. */
  function LowerChar(c: char): char {
    if 'A' <= c <= 'Z' then (c as int + 32) as char else c
  }

  /** `s.lower()` restricted to ASCII. */
  function Lower(s: string): (r: string)
    ensures |r| == |s|
    ensures forall i :: 0 <= i < |s| ==> r[i] == LowerChar(s[i])
    ensures forall i :: 0 <= i < |r| ==> !('A' <= r[i] <= 'Z')
  {
    seq(|s|, i requires 0 <= i < |s| => LowerChar(s[i]))
  }

  /** Lower-casing twice is lower-casing once. */
  lemma LowerIdempotent(s: string)
    ensures Lower(Lower(s)) == Lower(s)
  {
    assert forall i :: 0 <= i < |s| ==> LowerChar(LowerChar(s[i])) == LowerChar(s[i]);
  }

  const ListSeparator: string := ", "

  /** The string has no comma, so a ", " boundary can never fall inside it. */
  predicate CommaFree(w: string) {
    forall i :: 0 <= i < |w| ==> w[i] != ','
  }

  /** `", ".join(words)`. */
  function Join(words: seq<string>): string
    decreases |words|
  {
    if |words| == 0 then ""
    else if |words| == 1 then words[0]
    else words[0] + ListSeparator + Join(words[1..])
  }

  /**
   * The joined string is empty for no words; otherwise it opens with the first word, closes
   * with the last, and puts the separator straight after the first word when there are more.
   */
  lemma {:induction false} JoinShape(words: seq<string>)
    ensures |words| == 0 ==> Join(words) == ""
    ensures |words| > 0 ==> words[0] <= Join(words)
    ensures |words| > 0 ==>
      |words[|words| - 1]| <= |Join(words)| &&
      Join(words)[|Join(words)| - |words[|words| - 1]|..] == words[|words| - 1]
    ensures |words| > 1 ==> words[0] + ListSeparator <= Join(words)
    decreases |words|
  {
    if |words| > 1 {
      var rest := Join(words[1..]);
      JoinShape(words[1..]);
      assert words[1..][|words[1..]| - 1] == words[|words| - 1];
      assert Join(words) == (words[0] + ListSeparator) + rest;
      assert Join(words)[|Join(words)| - |rest|..] == rest;
    }
  }

  /** Cuts `s` at every ", "; the inverse of `Join` on comma-free words. */
  function Split(s: string): (r: seq<string>)
    ensures |r| > 0
    decreases |s|
  {
    if |s| == 0 then [""]
    else if |s| >= 2 && s[0] == ',' && s[1] == ' ' then [""] + Split(s[2..])
    else
      var rest := Split(s[1..]);
      [[s[0]] + rest[0]] + rest[1..]
  }

  /** A comma-free word glues onto the first piece of whatever follows it. */
  lemma {:induction false} SplitAfterWord(w: string, s: string)
    requires CommaFree(w)
    ensures Split(w + s) == [w + Split(s)[0]] + Split(s)[1..]
    decreases |w|
  {
    if |w| == 0 {
      assert w + s == s;
      assert w + Split(s)[0] == Split(s)[0];
    } else {
      assert (w + s)[1..] == w[1..] + s;
      assert (w + s)[0] == w[0];
      SplitAfterWord(w[1..], s);
      assert [w[0]] + (w[1..] + Split(s)[0]) == w + Split(s)[0];
    }
  }

  /** Splitting a joined non-empty list of comma-free words gives the words back. */
  lemma {:induction false} SplitJoin(words: seq<string>)
    requires |words| > 0
    requires forall k :: 0 <= k < |words| ==> CommaFree(words[k])
    ensures Split(Join(words)) == words
    decreases |words|
  {
    if |words| == 1 {
      SplitAfterWord(words[0], "");
      assert words[0] + "" == words[0];
    } else {
      var tail := Join(words[1..]);
      assert Join(words) == words[0] + (ListSeparator + tail);
      SplitAfterWord(words[0], ListSeparator + tail);
      assert (ListSeparator + tail)[2..] == tail;
      SplitJoin(words[1..]);
      assert Split(ListSeparator + tail) == [""] + words[1..];
      assert words[0] + "" == words[0];
    }
  }
}
