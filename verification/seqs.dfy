/** Facts about sequences without repetition, shared by the block generator and the block order. */
module Seqs {

  /** No element occurs twice. */
  predicate Distinct<T(==)>(s: seq<T>)
  {
    forall i, j :: 0 <= i < j < |s| ==> s[i] != s[j]
  }

  /** The set of elements of a sequence. */
  function Elements<T(==)>(s: seq<T>): set<T>
  {
    set x | x in s
  }

  /** The integers 0 .. n-1, Python's `range(n)` as a set. */
  function Range(n: nat): (r: set<nat>)
    ensures |r| == n
    ensures forall i: nat :: i in r <==> i < n
  {
    if n == 0 then {} else Range(n - 1) + {n - 1}
  }

  /** What `random.sample(population, k)` returns: k distinct members of the population. */
  predicate IsSample<T(==)>(s: seq<T>, population: set<T>, k: nat)
  {
    && |s| == k
    && Distinct(s)
    && forall i :: 0 <= i < |s| ==> s[i] in population
  }

  lemma {:induction false} DistinctCount<T>(s: seq<T>)
    requires Distinct(s)
    ensures |Elements(s)| == |s|
  {
    if s != [] {
      DistinctCount(s[1..]);
      assert Elements(s) == Elements(s[1..]) + {s[0]};
      assert s[0] !in Elements(s[1..]);
    }
  }

  lemma {:induction false} SubsetCount<T>(a: set<T>, b: set<T>)
    requires a <= b
    ensures |a| <= |b|
    decreases a
  {
    if a != {} {
      var x :| x in a;
      SubsetCount(a - {x}, b - {x});
    }
  }

  /** Pigeonhole: a sample as large as its population is the whole population. */
  lemma FullSampleCovers<T>(s: seq<T>, population: set<T>)
    requires IsSample(s, population, |population|)
    ensures Elements(s) == population
  {
    DistinctCount(s);
    if Elements(s) != population {
      var x :| x in population && x !in Elements(s);
      SubsetCount(Elements(s), population - {x});
    }
  }

  /** A sequence that rises at every step rises between any two positions, so it has no repetition. */
  lemma {:induction false} RisingBetween(s: string, i: nat, j: nat)
    requires forall k :: 0 <= k < |s| - 1 ==> s[k] < s[k + 1]
    requires i < j < |s|
    ensures s[i] < s[j]
    decreases j - i
  {
    if i + 1 < j {
      RisingBetween(s, i + 1, j);
    }
  }

  lemma RisingIsDistinct(s: string)
    requires forall k :: 0 <= k < |s| - 1 ==> s[k] < s[k + 1]
    ensures Distinct(s)
  {
    forall i, j | 0 <= i < j < |s|
      ensures s[i] != s[j]
    {
      RisingBetween(s, i, j);
    }
  }
}
