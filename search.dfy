/**
 * The exhaustive search of `main` (wheels-of-wonder.py, lines 139 to 158):
 * every pair of peg subsets of the two available universes, taken by size
 * and then by combination, run on a fresh puzzle; the pairs whose run is a
 * solution are collected instead of printed.
 */
module Search {
  import opened Settings
  import opened Sets
  import opened Machine
  import opened Mechanism

  type Placement = (set<int>, set<int>)

  /** `subsets(s, n)`: the `n`-element subsets of `s`, each once and in no order. */
  function Combinations(s: set<int>, n: int): set<set<int>>
  {
    set t | t <= s && |t| == n
  }

  /** Every subset of `s` is among the combinations of its own size, and that size is at most `|s|`. */
  lemma SubsetIsCombination(s: set<int>, t: set<int>)
    requires t <= s
    ensures |t| <= |s|
    ensures t in Combinations(s, |t|)
    ensures forall n :: n != |t| ==> t !in Combinations(s, n)
  {
    SubsetSize(t, s);
  }

  /** A placement the search may try: a subset of each side's available positions. */
  predicate Candidate(c: Config, p: Placement)
  {
    p.0 <= AvailableLeft(c) && p.1 <= AvailableRight(c)
  }

  lemma CandidateInRange(c: Config, p: Placement)
    requires Candidate(c, p)
    ensures InRange(p.0, c.sizeLeft) && InRange(p.1, c.sizeRight)
  {
  }

  /** A candidate whose fresh run is a solution. */
  predicate Solution(c: Config, p: Placement)
    requires WellFormed(c)
  {
    Candidate(c, p) && Solves(c, Initial(c, p.0, p.1))
  }

  /** The product of the two power sets: every placement the search may try. */
  ghost function Candidates(c: Config): set<Placement>
  {
    set left, right | left <= AvailableLeft(c) && right <= AvailableRight(c) :: (left, right)
  }

  /** The solving placements among the candidates. */
  ghost function Solutions(c: Config): set<Placement>
    requires WellFormed(c)
  {
    set p | p in Candidates(c) && Solution(c, p)
  }

  /**
   * `main`: four nested loops over subset sizes and combinations. `tried`
   * records the placements handed to `IsSolution` and `calls` counts the
   * calls: every candidate is tried, nothing else is, and there are as many
   * calls as candidates, so none is tried twice.
   */
  method FindSolutions(c: Config) returns (found: set<Placement>, ghost tried: set<Placement>, ghost calls: nat)
    requires WellFormed(c)
    ensures found == Solutions(c)
    ensures tried == Candidates(c)
    ensures calls == |Candidates(c)|
  {
    var availableLeft, availableRight := AvailableLeft(c), AvailableRight(c);
    found, tried, calls := {}, {}, 0;
    var i := 0;
    while i <= |availableLeft|
      invariant 0 <= i <= |availableLeft| + 1
      invariant forall p: Placement :: p in tried <==> Candidate(c, p) && |p.0| < i
      invariant forall p: Placement :: p in found <==> p in tried && Solution(c, p)
      invariant calls == |tried|
    {
      var j := 0;
      while j <= |availableRight|
        invariant 0 <= j <= |availableRight| + 1
        invariant forall p: Placement :: p in tried <==>
          Candidate(c, p) && (|p.0| < i || (|p.0| == i && |p.1| < j))
        invariant forall p: Placement :: p in found <==> p in tried && Solution(c, p)
        invariant calls == |tried|
      {
        ghost var before := tried;
        var lefts := Combinations(availableLeft, i);
        while lefts != {}
          invariant lefts <= Combinations(availableLeft, i)
          invariant forall p: Placement :: p in tried <==>
            p in before || (p.0 in Combinations(availableLeft, i) - lefts && p.1 in Combinations(availableRight, j))
          invariant forall p: Placement :: p in found <==> p in tried && Solution(c, p)
          invariant calls == |tried|
          decreases |lefts|
        {
          ghost var someLeft := Inhabited(lefts);
          var left :| left in lefts;
          lefts := lefts - {left};
          var rights := Combinations(availableRight, j);
          while rights != {}
            invariant rights <= Combinations(availableRight, j)
            invariant forall p: Placement :: p in tried <==>
              || p in before
              || (p.0 in Combinations(availableLeft, i) - lefts - {left} && p.1 in Combinations(availableRight, j))
              || (p.0 == left && p.1 in Combinations(availableRight, j) - rights)
            invariant forall p: Placement :: p in found <==> p in tried && Solution(c, p)
            invariant calls == |tried|
            decreases |rights|
          {
            ghost var someRight := Inhabited(rights);
            var right :| right in rights;
            assert (left, right) !in tried;
            rights := rights - {right};
            CandidateInRange(c, (left, right));
            var solved := IsSolution(c, left, right);
            calls := calls + 1;
            tried := tried + {(left, right)};
            if solved {
              found := found + {(left, right)};
            }
          }
        }
        forall p: Placement
          ensures p in tried <==> Candidate(c, p) && (|p.0| < i || (|p.0| == i && |p.1| < j + 1))
        {
          assert p.0 in Combinations(availableLeft, i) <==> p.0 <= availableLeft && |p.0| == i;
          assert p.1 in Combinations(availableRight, j) <==> p.1 <= availableRight && |p.1| == j;
        }
        j := j + 1;
      }
      forall p: Placement | Candidate(c, p) && |p.0| == i
        ensures p in tried <==> |p.0| < i + 1
      {
        SubsetIsCombination(availableRight, p.1);
      }
      i := i + 1;
    }
    forall p: Placement
      ensures p in tried <==> p in Candidates(c)
    {
      if Candidate(c, p) {
        SubsetIsCombination(availableLeft, p.0);
      }
    }
  }
}
