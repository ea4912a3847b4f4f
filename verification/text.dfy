/** The few string operations of Python that the signal logic relies on. */
module Text {

  /** `sub` occurs in `s` starting at index `i`. */
  predicate OccursAt(s: string, sub: string, i: nat) {
    i + |sub| <= |s| && s[i..i + |sub|] == sub
  }

  /** Python's `sub in s` on strings: substring containment. */
  predicate Contains(s: string, sub: string)
    decreases |s|
  {
    if |s| < |sub| then false
    else s[..|sub|] == sub || Contains(s[1..], sub)
  }

  /** An occurrence in the tail `s[1..]` is an occurrence in `s`, one position later. */
  lemma ShiftOccurrence(s: string, sub: string, i: nat)
    requires |s| > 0
    ensures OccursAt(s[1..], sub, i) <==> OccursAt(s, sub, i + 1)
  {
    if i + 1 + |sub| <= |s| {
      assert s[1..][i..i + |sub|] == s[i + 1..i + 1 + |sub|];
    }
  }

  /** `Contains` agrees with the positional definition of an occurrence. */
  lemma {:induction false} ContainsIffOccurs(s: string, sub: string)
    ensures Contains(s, sub) <==> exists i: nat | i <= |s| :: OccursAt(s, sub, i)
    decreases |s|
  {
    if |s| < |sub| {
      assert forall i: nat | i <= |s| :: !OccursAt(s, sub, i);
    } else if s[..|sub|] == sub {
      assert OccursAt(s, sub, 0);
    } else {
      ContainsIffOccurs(s[1..], sub);
      if Contains(s[1..], sub) {
        var i: nat :| i <= |s[1..]| && OccursAt(s[1..], sub, i);
        ShiftOccurrence(s, sub, i);
      } else {
        forall i: nat | i <= |s| ensures !OccursAt(s, sub, i) {
          if i > 0 {
            ShiftOccurrence(s, sub, i - 1);
          }
        }
      }
    }
  }

  /** `sub` cannot occur when no position with room for it holds its first character. */
  lemma {:induction false} AbsentWithoutFirstChar(s: string, sub: string)
    requires |sub| > 0
    requires forall i | 0 <= i <= |s| - |sub| :: s[i] != sub[0]
    ensures !Contains(s, sub)
    decreases |s|
  {
    if |s| >= |sub| {
      assert s[..|sub|][0] == s[0];
      assert forall i | 0 <= i <= |s[1..]| - |sub| :: s[1..][i] == s[i + 1];
      AbsentWithoutFirstChar(s[1..], sub);
    }
  }

  /** Python's `s.split(sep)[0]`: the part of `s` before the first `sep` (all of `s` when there is none). */
  function SplitHead(s: string, sep: char): (r: string)
    ensures |r| <= |s| && r == s[..|r|]
    ensures sep !in r
    ensures |r| < |s| ==> s[|r|] == sep
  {
    if |s| == 0 || s[0] == sep then ""
    else [s[0]] + SplitHead(s[1..], sep)
  }

  /** Python's `str.lower()` restricted to ASCII letters; every other character is kept. */
  function LowerAscii(s: string): (r: string)
    ensures |r| == |s|
    ensures forall i | 0 <= i < |s| :: 'A' <= s[i] <= 'Z' ==> r[i] == s[i] - 'A' + 'a'
    ensures forall i | 0 <= i < |s| :: !('A' <= s[i] <= 'Z') ==> r[i] == s[i]
  {
    if |s| == 0 then ""
    else [if 'A' <= s[0] <= 'Z' then (s[0] - 'A' + 'a') else s[0]] + LowerAscii(s[1..])
  }
}
