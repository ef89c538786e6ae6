/**
 * Substring search with the meaning of `std::string::find(p)` started at
 * position 0: the first index at which `p` occurs in `s`, or nothing (npos).
 * The player tests `find(p) == 0`, which is a prefix test; that is what
 * FindZeroIsPrefix states.
 */
module StringFind {
  import opened Wrappers

  /** `p` occurs in `s` starting at index `k`. */
  predicate OccursAt(s: string, p: string, k: nat) {
    k + |p| <= |s| && s[k..k + |p|] == p
  }

  /** `p` occurs somewhere in `s`. */
  ghost predicate Contains(s: string, p: string) {
    exists k: nat :: OccursAt(s, p, k)
  }

  /** The first index at which `p` occurs in `s`; None plays the part of npos. */
  function Find(s: string, p: string): Option<nat>
    decreases |s|
  {
    if p <= s then Some(0)
    else if s == [] then None
    else match Find(s[1..], p)
      case None => None
      case Some(i) => Some(i + 1)
  }

  /** Dropping the first character shifts every occurrence one place to the left. */
  lemma OccursAtTail(s: string, p: string, k: nat)
    requires |s| > 0
    ensures OccursAt(s, p, k + 1) <==> OccursAt(s[1..], p, k)
  {
  }

  /** Find returns the first occurrence, and None exactly when there is none. */
  lemma {:induction false} FindIsFirstOccurrence(s: string, p: string)
    ensures Find(s, p).Some? ==> OccursAt(s, p, Find(s, p).value)
    ensures Find(s, p).Some? ==> forall k: nat :: k < Find(s, p).value ==> !OccursAt(s, p, k)
    ensures Find(s, p).None? ==> forall k: nat :: !OccursAt(s, p, k)
    decreases |s|
  {
    if p <= s {
      assert s[0..|p|] == p;
    } else if s == [] {
      forall k: nat ensures !OccursAt(s, p, k) {
        assert |p| > 0;
      }
    } else {
      FindIsFirstOccurrence(s[1..], p);
      forall k: nat | k > 0 ensures OccursAt(s, p, k) <==> OccursAt(s[1..], p, k - 1) {
        OccursAtTail(s, p, k - 1);
      }
    }
  }

  /** The player's `find(p) == 0` test holds exactly when `p` is a prefix of `s`. */
  lemma FindZeroIsPrefix(s: string, p: string)
    ensures Find(s, p) == Some(0) <==> p <= s
  {
  }

}
