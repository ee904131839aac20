// The reference program "kmp": prefix table and search for the first occurrence.
module Kmp {

  /** The k characters of s that end before position i are the first k characters of p. */
  predicate Match(s: string, i: nat, p: string, k: nat) {
    k <= i <= |s| && k <= |p| && s[i - k..i] == p[..k]
  }

  /** k is the length of a proper border of p[..i]. */
  predicate Border(p: string, i: nat, k: nat) {
    k < i && Match(p, i, p, k)
  }

  /** k is the length of the longest proper border of p[..i]. */
  ghost predicate LongestBorder(p: string, i: nat, k: nat) {
    Border(p, i, k) && forall b: nat :: Border(p, i, b) ==> b <= k
  }

  predicate Occurs(s: string, p: string, start: nat) {
    start + |p| <= |s| && s[start..start + |p|] == p
  }

  /** Inside a match of length j, the shorter matches are exactly the borders of p[..j]. */
  lemma ShorterMatches(s: string, i: nat, p: string, j: nat, k: nat)
    requires Match(s, i, p, j) && k < j
    ensures Match(s, i, p, k) <==> Border(p, j, k)
  {
    assert s[i - k..i] == s[i - j..i][j - k..j];
    assert p[..j][j - k..j] == p[j - k..j];
  }

  /** A longer match one position on is a match here plus one equal character. */
  lemma MatchExtends(s: string, i: nat, p: string, k: nat)
    requires i < |s| && k < |p|
    ensures Match(s, i + 1, p, k + 1) <==> Match(s, i, p, k) && s[i] == p[k]
  {
    if k <= i {
      assert s[i - k..i + 1] == s[i - k..i] + [s[i]];
      assert p[..k + 1] == p[..k] + [p[k]];
      if Match(s, i + 1, p, k + 1) {
        assert s[i - k..i] == s[i - k..i + 1][..k];
        assert p[..k] == p[..k + 1][..k];
        assert s[i] == s[i - k..i + 1][k];
      }
    }
  }

  lemma OccursIsMatch(s: string, p: string, start: nat)
    ensures Occurs(s, p, start) <==> Match(s, start + |p|, p, |p|)
  {
    assert p[..|p|] == p;
  }

  /** The table is right for every prefix shorter than n + 1. */
  ghost predicate TableUpTo(p: string, pi: seq<nat>, n: nat) {
    n <= |pi| <= |p| && forall i :: 0 <= i < n ==> LongestBorder(p, i + 1, pi[i])
  }

  /** The common inner loop: shrink the match until the next character fits. On return no longer
      candidate fits, so j plus a possible equal character is the longest match one position on. */
  method FallBack(s: string, i: nat, p: string, pi: array<nat>, start: nat) returns (j: nat)
    requires i < |s| && start < |p|
    requires TableUpTo(p, pi[..], start)
    requires Match(s, i, p, start)
    ensures j <= start && Match(s, i, p, j) && (j > 0 ==> s[i] == p[j])
    ensures forall k :: j < k <= start && Match(s, i, p, k) ==> s[i] != p[k]
  {
    j := start;
    while j != 0 && s[i] != p[j]
      invariant j <= start && Match(s, i, p, j)
      invariant forall k :: j < k <= start && Match(s, i, p, k) ==> s[i] != p[k]
      decreases j
    {
      var shorter := pi[j - 1];
      assert LongestBorder(p, j, pi[..][j - 1]);
      ShorterMatches(s, i, p, j, shorter);
      forall k | shorter < k < j ensures !Match(s, i, p, k) {
        ShorterMatches(s, i, p, j, k);
      }
      j := shorter;
    }
  }

  method PrefixTable(p: string) returns (pi: array<nat>)
    requires |p| >= 1
    ensures fresh(pi) && pi.Length == |p| && TableUpTo(p, pi[..], |p|)
  {
    pi := new nat[|p|](_ => 0);
    var j := 0;
    for i := 1 to |p|
      invariant TableUpTo(p, pi[..], i)
      invariant j == pi[i - 1]
    {
      assert LongestBorder(p, i, pi[..][i - 1]);
      j := FallBack(p, i, p, pi, j);
      MatchExtends(p, i, p, j);
      if p[i] == p[j] {
        j := j + 1;
      }
      ghost var next := i + 1;
      forall b: nat | Border(p, next, b) ensures b <= j {
        if b > 0 {
          MatchExtends(p, i, p, b - 1);
          assert Border(p, i, b - 1);
        }
      }
      assert LongestBorder(p, i + 1, j);
      ghost var before := pi[..];
      pi[i] := j;
      assert forall q :: 0 <= q < i ==> pi[..][q] == before[q];
    }
  }

  /** j is the length of the longest match that ends before position i. */
  ghost predicate LongestMatch(s: string, i: nat, p: string, j: nat) {
    Match(s, i, p, j) && forall k: nat :: Match(s, i, p, k) ==> k <= j
  }

  /** What FallBack leaves is one character short of the longest match one position on. */
  lemma LongestNext(s: string, i: nat, p: string, start: nat, j: nat)
    requires i < |s| && start < |p| && LongestMatch(s, i, p, start)
    requires j <= start && Match(s, i, p, j) && (j > 0 ==> s[i] == p[j])
    requires forall k :: j < k <= start && Match(s, i, p, k) ==> s[i] != p[k]
    ensures LongestMatch(s, i + 1, p, if s[i] == p[j] then j + 1 else j)
  {
    MatchExtends(s, i, p, j);
    var next := i + 1;
    forall k: nat | Match(s, next, p, k)
      ensures k <= if s[i] == p[j] then j + 1 else j
    {
      if k > 0 {
        MatchExtends(s, i, p, k - 1);
      }
    }
  }

  /** No match of the whole pattern ends at n or before. */
  ghost predicate NoneUpTo(s: string, p: string, n: nat) {
    forall e: nat :: e <= n ==> !Match(s, e, p, |p|)
  }

  lemma NoneStartsBefore(s: string, p: string, n: nat, start: nat)
    requires NoneUpTo(s, p, n) && start + |p| <= n
    ensures !Occurs(s, p, start)
  {
    OccursIsMatch(s, p, start);
  }

  /** The program prints the 1-based position of the first occurrence, or -1 when there is none. */
  method Find(s: string, p: string) returns (ans: int)
    requires |p| >= 1
    ensures ans == -1 || ans >= 1
    ensures ans == -1 <==> forall start: nat :: !Occurs(s, p, start)
    ensures ans != -1 ==> Occurs(s, p, ans - 1) && forall start: nat :: start < ans - 1 ==> !Occurs(s, p, start)
  {
    var pi := PrefixTable(p);
    var j := 0;
    ans := -1;
    for i := 0 to |s|
      invariant j < |p| && LongestMatch(s, i, p, j) && TableUpTo(p, pi[..], |p|) && NoneUpTo(s, p, i)
    {
      var start := j;
      j := FallBack(s, i, p, pi, j);
      LongestNext(s, i, p, start, j);
      if s[i] == p[j] {
        j := j + 1;
      }
      if j == |p| {
        ans := i - |p| + 2;
        OccursIsMatch(s, p, ans - 1);
        forall first: nat | first < ans - 1
          ensures !Occurs(s, p, first)
        {
          NoneStartsBefore(s, p, i, first);
        }
        return;
      }
    }
    forall first: nat
      ensures !Occurs(s, p, first)
    {
      if first + |p| <= |s| {
        NoneStartsBefore(s, p, |s|, first);
      }
    }
  }
}
