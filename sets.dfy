/** Facts about finite sets that the model uses: a member of a non-empty set, the largest member, subset sizes. */
module Sets {

  /** A non-empty set has a member. */
  lemma Inhabited<T>(xs: set<T>) returns (x: T)
    requires xs != {}
    ensures x in xs
  {
    if forall y :: y !in xs {
      assert false;
    }
    x :| x in xs;
  }

  /** The largest member of a non-empty set of positions (Python's `max`). */
  function Max(xs: set<int>): (m: int)
    requires xs != {}
    ensures m in xs
    ensures forall x | x in xs :: x <= m
  {
    MaxExists(xs);
    var m :| m in xs && forall x | x in xs :: x <= m; m
  }

  lemma {:induction false} MaxExists(xs: set<int>)
    requires xs != {}
    ensures exists m :: m in xs && forall x | x in xs :: x <= m
    decreases |xs|
  {
    var y := Inhabited(xs);
    var rest := xs - {y};
    if rest != {} {
      MaxExists(rest);
      var m :| m in rest && forall x | x in rest :: x <= m;
      var top := if y <= m then m else y;
      forall x | x in xs
        ensures x <= top
      {
        if x != y {
          assert x in rest;
        }
      }
    } else {
      assert xs == {y};
    }
  }

  /** A subset is no larger than the set containing it. */
  lemma SubsetSize<T>(sub: set<T>, whole: set<T>)
    requires sub <= whole
    ensures |sub| <= |whole|
  {
    assert whole == sub + (whole - sub);
  }
}
