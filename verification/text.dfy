/**
 The few string primitives of JavaScript the application's decisions rest on:
 `toLowerCase` (on the ASCII letters), `startsWith` and `includes`.
 */
module Text {

  /** Lower-cases an ASCII capital letter and leaves every other character alone. */
  function LowerChar(c: char): (l: char)
    ensures 'A' <= c <= 'Z' ==> l as int == c as int + 32
    ensures !('A' <= c <= 'Z') ==> l == c
  {
    if 'A' <= c <= 'Z' then (c as int + 32) as char else c
  }

  /** `s.toLowerCase()` restricted to ASCII. */
  function ToLower(s: string): (r: string)
    ensures |r| == |s|
    ensures forall i :: 0 <= i < |s| ==> r[i] == LowerChar(s[i])
  {
    if s == [] then [] else [LowerChar(s[0])] + ToLower(s[1..])
  }

  /** `s.startsWith(prefix)`. */
  predicate StartsWith(s: string, prefix: string) {
    |prefix| <= |s| && s[..|prefix|] == prefix
  }

  /** `s.includes(needle)`, computed by trying each start position in turn. */
  predicate Contains(s: string, needle: string)
    decreases |s|
  {
    StartsWith(s, needle) || (|s| > 0 && Contains(s[1..], needle))
  }

  /** The position-wise reading of `includes`: some window of `s` equals the needle. */
  ghost predicate OccursAt(s: string, needle: string, i: int) {
    0 <= i && i + |needle| <= |s| && s[i..i + |needle|] == needle
  }

  /** The needle occurs somewhere in `s`. */
  ghost predicate Occurs(s: string, needle: string) {
    exists i :: OccursAt(s, needle, i)
  }

  /** The recursive search finds the needle exactly when it occurs at some position. */
  lemma ContainsIffOccurs(s: string, needle: string)
    ensures Contains(s, needle) <==> exists i :: OccursAt(s, needle, i)
  {
    if Contains(s, needle) {
      var i := ContainsWitness(s, needle);
    }
    forall i | OccursAt(s, needle, i)
      ensures Contains(s, needle)
    {
      OccursImpliesContains(s, needle, i);
    }
  }

  /** A position at which a found needle occurs. */
  lemma {:induction false} ContainsWitness(s: string, needle: string) returns (i: int)
    requires Contains(s, needle)
    ensures OccursAt(s, needle, i)
    decreases |s|
  {
    if StartsWith(s, needle) {
      i := 0;
    } else {
      var j := ContainsWitness(s[1..], needle);
      assert s[1..][j..j + |needle|] == s[j + 1..j + 1 + |needle|];
      i := j + 1;
    }
  }

  /** An occurrence at position `i` is found by the search. */
  lemma {:induction false} OccursImpliesContains(s: string, needle: string, i: int)
    requires OccursAt(s, needle, i)
    ensures Contains(s, needle)
    decreases i
  {
    if i > 0 {
      assert s[1..][i - 1..i - 1 + |needle|] == s[i..i + |needle|];
      OccursImpliesContains(s[1..], needle, i - 1);
    }
  }

  /** A string in which the needle's first character never appears does not include the needle. */
  lemma {:induction false} ContainsFirstChar(s: string, needle: string)
    requires needle != [] && Contains(s, needle)
    ensures needle[0] in s
    decreases |s|
  {
    if !StartsWith(s, needle) {
      ContainsFirstChar(s[1..], needle);
    }
  }
}
