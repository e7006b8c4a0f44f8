/** Result records returned by graders (scores, ranks, errors) and the rank
    validator shared by GraderRank and GraderRankCallback: a rank list is
    accepted only when it is a permutation of 1..n. */
module GraderSchema {
  import opened Common
  import opened JsonValue

  datatype GraderMode = Pointwise | Listwise

  /** GraderScore, GraderRank and GraderError: every result has a name, a
      reason and metadata; a score, a rank or an error message distinguishes them. */
  datatype GraderResult =
    | GraderScore(name: string, score: real, reason: string, metadata: map<string, Json>)
    | GraderRank(name: string, rank: seq<int>, reason: string, metadata: map<string, Json>)
    | GraderError(name: string, reason: string, error: string, metadata: map<string, Json>)

  /** The four ways validate_rank rejects a list, in the order it checks them. */
  datatype RankError =
    | EmptyRank             // "Rank list cannot be empty"
    | NonPositiveRank       // "All ranks should be positive integers"
    | DuplicateRank         // "Ranks should be unique"
    | NotPermutation(n: nat) // "Ranks should be a permutation of [1..n]"

  datatype Validated<T> = Valid(value: T) | Invalid(why: RankError)

  // ---------------------------------------------------------------------
  // Specification: what a proper ranking is, independently of the checks.

  /** The identity ranking [1, 2, ..., n]. */
  function Iota(n: nat): (r: seq<int>)
    ensures |r| == n
    ensures forall i :: 0 <= i < n ==> r[i] == i + 1
  {
    seq(n, i requires 0 <= i < n => i + 1)
  }

  /** A proper ranking: non-empty and a rearrangement of [1, ..., n]. */
  ghost predicate IsRanking(rank: seq<int>) {
    |rank| >= 1 && multiset(rank) == multiset(Iota(|rank|))
  }

  // ---------------------------------------------------------------------
  // The validator, check by check as the source performs them.

  predicate AllPositive(rank: seq<int>) {
    forall i :: 0 <= i < |rank| ==> rank[i] > 0
  }

  /** The integers lo..hi-1 as a set (`set(range(lo, hi))`). */
  function RangeSet(lo: int, hi: int): set<int>
    decreases hi - lo
  {
    if hi <= lo then {} else RangeSet(lo, hi - 1) + {hi - 1}
  }

  function ValidateRank(rank: seq<int>): (r: Validated<seq<int>>)
    ensures r.Valid? ==> r.value == rank
  {
    if |rank| == 0 then Invalid(EmptyRank)
    else if !AllPositive(rank) then Invalid(NonPositiveRank)
    else if |rank| != |Elems(rank)| then Invalid(DuplicateRank)
    else if Elems(rank) != RangeSet(1, |rank| + 1) then Invalid(NotPermutation(|rank|))
    else Valid(rank)
  }

  // ---------------------------------------------------------------------
  // Lemmas connecting the checks with the specification.

  /** The set of a sequence's entries (`set(s)`). */
  function Elems<T>(s: seq<T>): set<T> {
    set x | x in s
  }

  lemma {:induction false} RangeSetSize(lo: int, hi: int)
    requires lo <= hi
    ensures |RangeSet(lo, hi)| == hi - lo
    ensures forall x :: x in RangeSet(lo, hi) <==> lo <= x < hi
    decreases hi - lo
  {
    if lo < hi {
      RangeSetSize(lo, hi - 1);
    }
  }

  lemma {:induction false} SetSizeAtMostLength<T>(s: seq<T>)
    ensures |Elems(s)| <= |s|
  {
    if |s| > 0 {
      SetSizeAtMostLength(s[1..]);
      assert Elems(s) == Elems(s[1..]) + {s[0]};
    } else {
      assert Elems(s) == {};
    }
  }

  /** A sequence has as many distinct elements as entries iff no entry repeats. */
  lemma {:induction false} DistinctIffSetSize<T>(s: seq<T>)
    ensures Distinct(s) <==> |Elems(s)| == |s|
  {
    if |s| == 0 {
      assert Elems(s) == {};
    } else {
      var t := s[1..];
      DistinctIffSetSize(t);
      SetSizeAtMostLength(t);
      assert Elems(s) == Elems(t) + {s[0]};
      if s[0] in t {
        assert Elems(s) == Elems(t);
        var k :| 0 <= k < |t| && t[k] == s[0];
        assert s[0] == s[k + 1];
      } else {
        assert |Elems(s)| == |Elems(t)| + 1;
        assert Distinct(s) <==> Distinct(t) by {
          if Distinct(t) {
            forall i, j | 0 <= i < j < |s| ensures s[i] != s[j] {
              if i > 0 {
                assert s[i] == t[i - 1] && s[j] == t[j - 1];
              } else {
                assert s[j] == t[j - 1];
              }
            }
          }
          if Distinct(s) {
            forall i, j | 0 <= i < j < |t| ensures t[i] != t[j] {
              assert t[i] == s[i + 1] && t[j] == s[j + 1];
            }
          }
        }
      }
    }
  }

  lemma {:induction false} MultisetOfDistinct<T>(s: seq<T>)
    requires Distinct(s)
    ensures forall x :: x in s ==> multiset(s)[x] == 1
  {
    if |s| > 0 {
      var t := s[1..];
      assert s == [s[0]] + t;
      assert Distinct(t) by {
        forall i, j | 0 <= i < j < |t| ensures t[i] != t[j] {
          assert s[i + 1] != s[j + 1];
        }
      }
      MultisetOfDistinct(t);
      forall k | 0 <= k < |t| ensures t[k] != s[0] {
        assert t[k] == s[k + 1];
      }
      assert s[0] !in t;
    }
  }

  /** Two equal entries make their value occur at least twice. */
  lemma RepeatCountsTwice<T>(s: seq<T>, i: nat, j: nat)
    requires i < j < |s|
    ensures s[i] == s[j] ==> multiset(s)[s[i]] >= 2
  {
    assert s == s[..i] + [s[i]] + s[i + 1..j] + [s[j]] + s[j + 1..];
    assert multiset(s) == multiset(s[..i]) + multiset{s[i]} + multiset(s[i + 1..j]) + multiset{s[j]} + multiset(s[j + 1..]);
  }

  lemma DistinctFromMultiset<T>(s: seq<T>)
    requires forall x :: x in s ==> multiset(s)[x] == 1
    ensures Distinct(s)
  {
    forall i, j | 0 <= i < j < |s| ensures s[i] != s[j] {
      RepeatCountsTwice(s, i, j);
    }
  }

  lemma IotaDistinct(n: nat)
    ensures Distinct(Iota(n))
    ensures Elems(Iota(n)) == RangeSet(1, n + 1)
  {
    var s := Iota(n);
    RangeSetSize(1, n + 1);
    forall x | 1 <= x < n + 1 ensures x in s {
      assert s[x - 1] == x;
    }
  }

  /** Two duplicate-free sequences are permutations of each other iff they
      hold the same elements. */
  lemma DistinctMultisetIffSet<T>(a: seq<T>, b: seq<T>)
    requires Distinct(a) && Distinct(b)
    ensures multiset(a) == multiset(b) <==> Elems(a) == Elems(b)
  {
    MultisetOfDistinct(a);
    MultisetOfDistinct(b);
    if Elems(a) == Elems(b) {
      forall x ensures multiset(a)[x] == multiset(b)[x] {
        assert x in a <==> x in Elems(a);
        assert x in b <==> x in Elems(b);
        if x in a {
          assert x in Elems(b);
          assert multiset(a)[x] == 1 && multiset(b)[x] == 1;
        } else {
          assert x !in Elems(b);
          assert x !in multiset(a) && x !in multiset(b);
        }
      }
    }
    if multiset(a) == multiset(b) {
      forall x ensures x in a <==> x in b {
        assert x in a <==> x in multiset(a);
        assert x in b <==> x in multiset(b);
      }
    }
  }

  /** validate_rank accepts exactly the proper rankings of 1..n, n >= 1. */
  lemma ValidateRankIsPermutationCheck(rank: seq<int>)
    ensures ValidateRank(rank).Valid? <==> IsRanking(rank)
  {
    var n := |rank|;
    var iota := Iota(n);
    IotaDistinct(n);
    RangeSetSize(1, n + 1);
    DistinctIffSetSize(rank);
    DistinctIffSetSize(iota);
    if ValidateRank(rank).Valid? {
      DistinctMultisetIffSet(rank, iota);
    }
    if IsRanking(rank) {
      assert forall x :: x in rank <==> x in iota by {
        forall x ensures x in rank <==> x in iota {
          assert x in rank <==> x in multiset(rank);
          assert x in iota <==> x in multiset(iota);
        }
      }
      MultisetOfDistinct(iota);
      DistinctFromMultiset(rank);
      DistinctMultisetIffSet(rank, iota);
      assert AllPositive(rank) by {
        forall i | 0 <= i < n ensures rank[i] > 0 {
          assert rank[i] in iota;
        }
      }
    }
  }

  /** The error reported is the first check that fails, in source order. */
  lemma ValidateRankErrors(rank: seq<int>)
    ensures |rank| == 0 <==> ValidateRank(rank) == Invalid(EmptyRank)
    ensures ValidateRank(rank) == Invalid(NonPositiveRank) <==>
              |rank| > 0 && exists i :: 0 <= i < |rank| && rank[i] <= 0
    ensures ValidateRank(rank) == Invalid(DuplicateRank) <==>
              |rank| > 0 && AllPositive(rank) && !Distinct(rank)
  {
    DistinctIffSetSize(rank);
  }

  /** The examples in validate_rank's documentation. */
  lemma ValidateRankExamples()
    ensures ValidateRank([1, 2, 3]) == Valid([1, 2, 3])
    ensures ValidateRank([3, 1, 2]) == Valid([3, 1, 2])
    ensures ValidateRank([1, 1, 2]) == Invalid(DuplicateRank)
    ensures ValidateRank([1, 3]) == Invalid(NotPermutation(2))
    ensures ValidateRank([0, 1]) == Invalid(NonPositiveRank)
  {
    assert Elems([1, 2, 3]) == {1, 2, 3} == RangeSet(1, 4);
    assert Elems([3, 1, 2]) == {1, 2, 3};
    assert Elems([1, 1, 2]) == {1, 2};
    assert Elems([1, 3]) == {1, 3};
    assert 2 in RangeSet(1, 3);
    assert [0, 1][0] <= 0;
  }

  // ---------------------------------------------------------------------
  // Constructing the two record kinds that carry the validator.

  /** GraderRank(...): construction fails exactly when validate_rank does. */
  function MakeGraderRank(name: string, rank: seq<int>, reason: string, metadata: map<string, Json>): (r: Validated<GraderResult>)
    ensures r.Valid? <==> IsRanking(rank)
    ensures r.Valid? ==> r.value == GraderRank(name, rank, reason, metadata)
  {
    ValidateRankIsPermutationCheck(rank);
    match ValidateRank(rank)
    case Valid(v) => Valid(GraderRank(name, v, reason, metadata))
    case Invalid(e) => Invalid(e)
  }

  /** GraderRankCallback: the structured output an LLM returns in listwise mode. */
  datatype GraderRankCallback = GraderRankCallback(rank: seq<int>, reason: string, metadata: map<string, Json>)

  function MakeRankCallback(rank: seq<int>, reason: string, metadata: map<string, Json>): (r: Validated<GraderRankCallback>)
    ensures r.Valid? <==> IsRanking(rank)
    ensures r.Valid? ==> r.value.rank == rank
  {
    ValidateRankIsPermutationCheck(rank);
    match ValidateRank(rank)
    case Valid(v) => Valid(GraderRankCallback(v, reason, metadata))
    case Invalid(e) => Invalid(e)
  }
}
