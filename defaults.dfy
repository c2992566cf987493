/**
 * A regression example for the shipped settings: placing pegs at 3 and 4 on
 * the left console and at 4 on the right console solves the puzzle. The run
 * is spelled out cycle by cycle.
 */
module DefaultRun {
  import opened Settings
  import opened Machine
  import opened Search

  /** The states at the start of each cycle of the run. */
  function Trace(k: nat): State
    requires k <= 8
  {
    match k
    case 0 => Initial(Default, {3, 4}, {4})
    case 1 => State(1, 0, 1, 0, {3, 4}, {4}, 0, 5)
    case 2 => State(2, 0, 2, 0, {3, 4}, {4}, 0, 4)
    case 3 => State(3, 0, 3, 0, {3, 4}, {4}, 0, 3)  // the peg at left 3 sends the ball to the right wheel
    case 4 => State(3, 1, 3, 1, {4}, {4}, 1, 2)
    case 5 => State(3, 2, 3, 2, {4}, {4}, 1, 1)
    case 6 => State(3, 3, 3, 3, {4}, {4}, 1, 0)
    case 7 => State(3, 4, 3, 4, {4}, {4}, 1, 5)     // the peg at right 4 sends it back
    case _ => State(4, 4, 4, 4, {4}, {}, 0, 4)      // the peg at left 4 drops it on the target
  }

  /** One cycle of the run: the state passed to the next cycle after a jump attempt, `invalid_state` and `move`. */
  lemma CycleAt(k: nat)
    requires k < 8
    ensures Consistent(Default, Trace(k))
    ensures Execute(Default, Trace(k)) == Execute(Default, Trace(k + 1))
  {
    DefaultWellFormed();
    var s := Trace(k);
    var j := JumpStep(Default, s);
    if !(k == 3 || k == 7) {
      // no jump here; in cycles 3 and 7 the jump lands on a holding position
      assert j == Jump(Proceed, s);
    }
    assert BallHeld(Default, j.next);
    assert !Invalid(Default, j.next);
    assert MoveStep(Default, j.next) == Trace(k + 1);
  }

  lemma DefaultSolution()
    ensures Solution(Default, ({3, 4}, {4}))
    ensures ({3, 4}, {4}) in Solutions(Default)
  {
    DefaultWellFormed();
    DefaultAvailable();
    RunFrom(0);
  }

  lemma {:induction false} RunFrom(k: nat)
    requires k <= 8
    ensures Consistent(Default, Trace(k))
    ensures Execute(Default, Trace(k)) == Run(Reached, State(4, 4, 4, 4, {}, {}, 1, 4))
    decreases 8 - k
  {
    DefaultWellFormed();
    if k < 8 {
      CycleAt(k);
      RunFrom(k + 1);
    } else {
      assert JumpStep(Default, Trace(8)) == Jump(AtTarget, State(4, 4, 4, 4, {}, {}, 1, 4));
    }
  }
}
