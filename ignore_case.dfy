/**
 * Kotlin's `CharSequence.contains(other, ignoreCase = true)`, restricted to
 * ASCII letters: two characters are equal ignoring case when their lower-case
 * forms are equal.
 */
module IgnoreCase {

  function LowerChar(c: char): (d: char)
    ensures 'A' <= c <= 'Z' ==> 'a' <= d <= 'z'
    ensures !('A' <= c <= 'Z') ==> d == c
  {
    if 'A' <= c <= 'Z' then (c as int - 'A' as int + 'a' as int) as char else c
  }

  function LowerString(s: string): (r: string)
    ensures |r| == |s|
    ensures forall i :: 0 <= i < |s| ==> r[i] == LowerChar(s[i])
  {
    if s == [] then [] else [LowerChar(s[0])] + LowerString(s[1..])
  }

  /** `s` begins with `q`, ignoring case. */
  predicate StartsWithIgnoringCase(s: string, q: string) {
    if q == [] then true
    else s != [] && LowerChar(s[0]) == LowerChar(q[0]) && StartsWithIgnoringCase(s[1..], q[1..])
  }

  /** `s` has `q` as a substring, ignoring case: tried at each start position in turn. */
  predicate ContainsIgnoringCase(s: string, q: string) {
    StartsWithIgnoringCase(s, q) || (s != [] && ContainsIgnoringCase(s[1..], q))
  }

  /** Reference definition: `q` matches `s` at position `i`, ignoring case. */
  ghost predicate OccursAt(s: string, q: string, i: int) {
    0 <= i && i + |q| <= |s| && forall j :: 0 <= j < |q| ==> LowerChar(s[i + j]) == LowerChar(q[j])
  }

  lemma {:induction false} StartsWithMeansOccursAtZero(s: string, q: string)
    ensures StartsWithIgnoringCase(s, q) <==> OccursAt(s, q, 0)
    decreases |q|
  {
    if q != [] && s != [] {
      StartsWithMeansOccursAtZero(s[1..], q[1..]);
      if OccursAt(s, q, 0) {
        assert OccursAt(s[1..], q[1..], 0) by {
          forall j | 0 <= j < |q| - 1 ensures LowerChar(s[1..][j]) == LowerChar(q[1..][j]) {
            assert s[1..][j] == s[j + 1] && q[1..][j] == q[j + 1];
          }
        }
      }
      if StartsWithIgnoringCase(s, q) {
        forall j | 0 <= j < |q| ensures LowerChar(s[j]) == LowerChar(q[j]) {
          if j > 0 {
            assert s[1..][j - 1] == s[j] && q[1..][j - 1] == q[j];
          }
        }
      }
    }
  }

  /** The scanning definition agrees with the reference definition. */
  lemma {:induction false} ContainsMeansOccurs(s: string, q: string)
    ensures ContainsIgnoringCase(s, q) <==> exists i :: OccursAt(s, q, i)
    decreases |s|
  {
    StartsWithMeansOccursAtZero(s, q);
    if s != [] {
      ContainsMeansOccurs(s[1..], q);
      if i :| OccursAt(s[1..], q, i) {
        assert OccursAt(s, q, i + 1) by {
          forall j | 0 <= j < |q| ensures LowerChar(s[i + 1 + j]) == LowerChar(q[j]) {
            assert s[1..][i + j] == s[i + 1 + j];
          }
        }
      }
      if i :| OccursAt(s, q, i) && i > 0 {
        assert OccursAt(s[1..], q, i - 1) by {
          forall j | 0 <= j < |q| ensures LowerChar(s[1..][i - 1 + j]) == LowerChar(q[j]) {
            assert s[1..][i - 1 + j] == s[i + j];
          }
        }
      }
    } else {
      if i :| OccursAt(s, q, i) {
        assert i == 0;
      }
    }
  }

  /** Only the lower-case form of the query matters. */
  lemma ContainsIgnoresQueryCase(s: string, q1: string, q2: string)
    requires LowerString(q1) == LowerString(q2)
    ensures ContainsIgnoringCase(s, q1) == ContainsIgnoringCase(s, q2)
  {
    ContainsMeansOccurs(s, q1);
    ContainsMeansOccurs(s, q2);
    forall i ensures OccursAt(s, q1, i) <==> OccursAt(s, q2, i) {
      assert |q1| == |LowerString(q1)| == |q2|;
      forall j | 0 <= j < |q1| ensures LowerChar(q1[j]) == LowerChar(q2[j]) {
        assert LowerString(q1)[j] == LowerString(q2)[j];
      }
    }
  }

  /** `LowerString(q)` is the slice of `LowerString(s)` starting at `i`. */
  ghost predicate LowerSliceAt(s: string, q: string, i: int) {
    0 <= i <= |s| - |q| && LowerString(s)[i..i + |q|] == LowerString(q)
  }

  lemma OccursAtMeansLowerSlice(s: string, q: string, i: int)
    ensures OccursAt(s, q, i) <==> LowerSliceAt(s, q, i)
  {
  }

  /** Ignoring case is the same as a plain substring test on lower-cased text. */
  lemma ContainsMeansLowerSubstring(s: string, q: string)
    ensures ContainsIgnoringCase(s, q) <==> exists i :: LowerSliceAt(s, q, i)
  {
    ContainsMeansOccurs(s, q);
    forall i ensures OccursAt(s, q, i) <==> LowerSliceAt(s, q, i) {
      OccursAtMeansLowerSlice(s, q, i);
    }
  }
}
