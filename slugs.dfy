/**
 * Unique slugs by a suffix counter, as the type and listing `save` methods
 * (house/models.py, lines 20-31 and 161-174) and the importer
 * (house/services/importer.py, lines 29-36) make them: the first candidate, then
 * `base-1`, `base-2`, ... until one is not taken.
 */
module Slugs {
  import opened Text

  /** `f"{base}-{k}"`. */
  function Suffixed(base: string, k: nat): string {
    base + "-" + NatToString(k)
  }

  /** The k-th slug tried: `first`, then the suffixed forms of `base`. */
  function Candidate(first: string, base: string, k: nat): string {
    if k == 0 then first else Suffixed(base, k)
  }

  /** Different counters give different slugs. */
  lemma SuffixedInjective(base: string, a: nat, b: nat)
    requires Suffixed(base, a) == Suffixed(base, b)
    ensures a == b
  {
    var n := |base| + 1;
    assert Suffixed(base, a)[n..] == NatToString(a);
    assert Suffixed(base, b)[n..] == NatToString(b);
    ParseIntNatToString(a);
    ParseIntNatToString(b);
  }

  /** The suffixed slugs with counters 1 to n. */
  function SuffixedUpTo(base: string, n: nat): set<string> {
    set j | 1 <= j <= n :: Suffixed(base, j)
  }

  lemma {:induction false} SuffixedUpToCard(base: string, n: nat)
    ensures |SuffixedUpTo(base, n)| == n
  {
    if n > 0 {
      SuffixedUpToCard(base, n - 1);
      assert SuffixedUpTo(base, n) == SuffixedUpTo(base, n - 1) + {Suffixed(base, n)};
      if Suffixed(base, n) in SuffixedUpTo(base, n - 1) {
        var j :| 1 <= j <= n - 1 && Suffixed(base, j) == Suffixed(base, n);
        SuffixedInjective(base, j, n);
      }
    }
  }

  /** When the first k + 1 candidates are all taken, there are at least k taken slugs:
      the counter cannot run past the number of taken slugs. */
  lemma CounterBounded(first: string, base: string, taken: set<string>, k: nat)
    requires forall j :: 0 <= j <= k ==> Candidate(first, base, j) in taken
    ensures k <= |taken|
  {
    assert SuffixedUpTo(base, k) <= taken by {
      forall s | s in SuffixedUpTo(base, k) ensures s in taken {
        var j :| 1 <= j <= k && Suffixed(base, j) == s;
        assert Candidate(first, base, j) == s;
      }
    }
    SuffixedUpToCard(base, k);
    SubsetCard(SuffixedUpTo(base, k), taken);
  }

  /** The first candidate from the k-th on that is not taken. */
  function FirstFreeFrom(first: string, base: string, taken: set<string>, k: nat): (r: string)
    requires forall j :: 0 <= j < k ==> Candidate(first, base, j) in taken
    ensures r !in taken
    ensures exists n: nat :: k <= n && r == Candidate(first, base, n)
                        && forall j :: 0 <= j < n ==> Candidate(first, base, j) in taken
    decreases |taken| + 1 - k
  {
    if Candidate(first, base, k) !in taken then Candidate(first, base, k)
    else
      CounterBounded(first, base, taken, k);
      FirstFreeFrom(first, base, taken, k + 1)
  }

  /** The slug the suffix loop settles on: the first candidate not taken. The loop always
      stops, because the suffixed forms are pairwise distinct and only finitely many
      slugs are taken. */
  function FirstFree(first: string, base: string, taken: set<string>): (r: string)
    ensures r !in taken
    ensures exists n: nat :: r == Candidate(first, base, n)
                        && forall j :: 0 <= j < n ==> Candidate(first, base, j) in taken
  {
    FirstFreeFrom(first, base, taken, 0)
  }

  /** A free first candidate is kept as it is. */
  lemma FreeFirstKept(first: string, base: string, taken: set<string>)
    requires first !in taken
    ensures FirstFree(first, base, taken) == first
  {
  }

  /** The suffix loop. */
  method UniqueSlug(first: string, base: string, taken: set<string>) returns (slug: string)
    ensures slug == FirstFree(first, base, taken)
  {
    slug := first;
    var counter := 1;
    while slug in taken
      invariant counter >= 1
      invariant slug == Candidate(first, base, counter - 1)
      invariant forall j :: 0 <= j < counter - 1 ==> Candidate(first, base, j) in taken
      invariant FirstFreeFrom(first, base, taken, counter - 1) == FirstFree(first, base, taken)
      decreases |taken| + 1 - counter
    {
      CounterBounded(first, base, taken, counter - 1);
      slug := Suffixed(base, counter);
      counter := counter + 1;
    }
  }
}
