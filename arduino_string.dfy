/**
 * The two Arduino `String` operations the codec is built from, with the
 * semantics of the Arduino core's WString implementation.
 *
 * `indexOf` answers a position or -1. `substring` takes unsigned bounds: the
 * -1 of a failed `indexOf`, passed as the right end, becomes UINT_MAX and is
 * therefore clamped to the length; a left end beyond the right end is swapped
 * with it; a left end at or past the length gives the empty string.
 */
module ArduinoString {

  /** `s.indexOf(c, from)`: the first position at or after `from` holding `c`, or -1. */
  function IndexOf(s: string, c: char, from: nat): (r: int)
    ensures r == -1 || (from <= r < |s| && s[r] == c)
    decreases |s| - from
  {
    if from >= |s| then -1
    else if s[from] == c then from
    else IndexOf(s, c, from + 1)
  }

  /** The answer is the first occurrence, and -1 exactly when there is none. */
  lemma {:induction false} IndexOfFirst(s: string, c: char, from: nat)
    ensures IndexOf(s, c, from) >= 0 ==> forall i :: from <= i < IndexOf(s, c, from) ==> s[i] != c
    ensures IndexOf(s, c, from) == -1 <==> forall i :: from <= i < |s| ==> s[i] != c
    decreases |s| - from
  {
    if from < |s| && s[from] != c {
      IndexOfFirst(s, c, from + 1);
    }
  }

  /** `IndexOf` finds `c` at `k` when `k` holds it and nothing between `from` and `k` does. */
  lemma IndexOfAt(s: string, c: char, from: nat, k: nat)
    requires from <= k < |s| && s[k] == c
    requires forall i :: from <= i < k ==> s[i] != c
    ensures IndexOf(s, c, from) == k
  {
    IndexOfFirst(s, c, from);
  }

  /** `IndexOf` answers -1 when nothing from `from` on holds `c`. */
  lemma IndexOfNone(s: string, c: char, from: nat)
    requires forall i :: from <= i < |s| ==> s[i] != c
    ensures IndexOf(s, c, from) == -1
  {
    IndexOfFirst(s, c, from);
  }

  /** `IndexOf` finds `c` just past a run `a` of other characters starting at `from`. */
  lemma IndexOfAfter(s: string, c: char, from: nat, a: string)
    requires from + |a| < |s| && s[from..from + |a|] == a && c !in a && s[from + |a|] == c
    ensures IndexOf(s, c, from) == from + |a|
  {
    forall i | from <= i < from + |a| ensures s[i] != c {
      assert s[i] == a[i - from];
    }
    IndexOfAt(s, c, from, from + |a|);
  }

  /** `IndexOf` answers -1 when the text from `from` on is a run `a` without `c`. */
  lemma IndexOfPast(s: string, c: char, from: nat, a: string)
    requires from + |a| == |s| && s[from..] == a && c !in a
    ensures IndexOf(s, c, from) == -1
  {
    forall i | from <= i < |s| ensures s[i] != c {
      assert s[i] == a[i - from];
    }
    IndexOfNone(s, c, from);
  }

  /** A slice that reads `a`, then `c`, then `b` splits into those three parts. */
  lemma SliceParts(s: string, from: nat, a: string, c: char, b: string)
    requires from + |a| + 1 + |b| <= |s| && s[from..from + |a| + 1 + |b|] == a + [c] + b
    ensures s[from..from + |a|] == a
    ensures s[from + |a|] == c
    ensures s[from + |a| + 1..from + |a| + 1 + |b|] == b
  {
    var w := s[from..from + |a| + 1 + |b|];
    assert s[from..from + |a|] == w[..|a|];
    assert s[from + |a|] == w[|a|];
    assert s[from + |a| + 1..from + |a| + 1 + |b|] == w[|a| + 1..];
  }

  /**
   * `s.substring(left, right)`. A negative `right` is the -1 of a failed
   * `indexOf` seen through an unsigned parameter: larger than any length.
   */
  function Substring(s: string, left: nat, right: int): (r: string)
    ensures left <= right <= |s| ==> r == s[left..right]
    ensures (right < 0 || right > |s|) && left < |s| ==> r == s[left..]
    ensures left >= |s| && (right < 0 || right >= left) ==> r == ""
    ensures 0 <= right < left && right < |s| ==> r == s[right..if left > |s| then |s| else left]
    ensures 0 <= right < left && right >= |s| ==> r == ""
  {
    var lo := if 0 <= right < left then right else left;
    var hi := if 0 <= right < left then left else right;
    if lo >= |s| then ""
    else s[lo .. if hi < 0 || hi > |s| then |s| else hi]
  }

  /** `s.substring(left)`, which is `s.substring(left, s.length())`. */
  function SubstringFrom(s: string, left: nat): (r: string)
    ensures left < |s| ==> r == s[left..]
    ensures left >= |s| ==> r == ""
  {
    Substring(s, left, |s|)
  }
}
