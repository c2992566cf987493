/**
 * The puzzle as a pure state machine: the value a `Puzzle` object and its
 * four parts hold at one moment, the effect of `try_jump`, `invalid_state`
 * and `move` on that value (wheels-of-wonder.py, lines 83 to 123), and the
 * whole run of `simulate` (lines 125 to 136) as a terminating function.
 * The `Puzzle` class is proved to follow these functions step by step.
 */
module Machine {
  import opened Rings
  import opened Settings
  import opened Sets

  /** Everything a run changes: both rotations, both console positions, both peg sets and the ball. */
  datatype State = State(
    rotationLeft: int,
    rotationRight: int,
    positionLeft: int,
    positionRight: int,
    pegsLeft: set<int>,
    pegsRight: set<int>,
    ballWheel: int,
    ballPosition: int)

  /** What `try_jump` reports: 0, 1 and -1 in wheels-of-wonder.py. */
  datatype Outcome = Proceed | AtTarget | Fell

  datatype Jump = Jump(outcome: Outcome, next: State)

  /** Which `return` ended a run: a jump onto the target, a failed jump, or `invalid_state`. */
  datatype Ending = Reached | Dropped | Stuck

  datatype Run = Run(ending: Ending, final: State)

  // The parts of the side the ball is on (current_wheel, current_console, get_jumps).

  function Size(c: Config, s: State): int
  {
    SizeOf(c, s.ballWheel)
  }

  function Rotation(s: State): int
  {
    if s.ballWheel == 0 then s.rotationLeft else s.rotationRight
  }

  function Holding(c: Config, s: State): set<int>
  {
    if s.ballWheel == 0 then c.holdingLeft else c.holdingRight
  }

  function Pegs(s: State): set<int>
  {
    if s.ballWheel == 0 then s.pegsLeft else s.pegsRight
  }

  function ConsolePosition(s: State): int
  {
    if s.ballWheel == 0 then s.positionLeft else s.positionRight
  }

  function Jumps(c: Config, s: State): map<int, int>
  {
    if s.ballWheel == 0 then c.jumpsLeftToRight else c.jumpsRightToLeft
  }

  function PegCount(s: State): nat
  {
    |s.pegsLeft| + |s.pegsRight|
  }

  /** The state invariant every run keeps: all counters and pegs lie on their rings. */
  predicate Consistent(c: Config, s: State)
  {
    && WellFormed(c)
    && 0 <= s.rotationLeft < c.sizeLeft
    && 0 <= s.rotationRight < c.sizeRight
    && 0 <= s.positionLeft < c.sizeLeft
    && 0 <= s.positionRight < c.sizeRight
    && InRange(s.pegsLeft, c.sizeLeft)
    && InRange(s.pegsRight, c.sizeRight)
    && (s.ballWheel == 0 || s.ballWheel == 1)
    && 0 <= s.ballPosition < Size(c, s)
  }

  /** A fresh run: wheels and consoles at 0, the ball at the start, the given pegs planted. */
  function Initial(c: Config, pegsLeft: set<int>, pegsRight: set<int>): (s: State)
    requires WellFormed(c) && InRange(pegsLeft, c.sizeLeft) && InRange(pegsRight, c.sizeRight)
    ensures Consistent(c, s)
  {
    State(0, 0, 0, 0, pegsLeft, pegsRight, c.startWheel, c.startPosition)
  }

  /** Whether the ball rests at a holding position of the wheel it is on. */
  predicate BallHeld(c: Config, s: State)
    requires WellFormed(c)
  {
    IsHolding(Size(c, s), Holding(c, s), Rotation(s), s.ballPosition)
  }

  /** The console can no longer bring a peg under the ball (the second test of `invalid_state`). */
  predicate Exhausted(pegs: set<int>, position: int)
  {
    |pegs| == 0 || Max(pegs) < position
  }

  /** `invalid_state`: the ball is not held, or the current console is exhausted. */
  predicate Invalid(c: Config, s: State)
    requires WellFormed(c)
  {
    !BallHeld(c, s) || Exhausted(Pegs(s), ConsolePosition(s))
  }

  /** Removes the peg at the current console's position from the current console. */
  function RemovePeg(s: State): State
  {
    if s.ballWheel == 0 then s.(pegsLeft := s.pegsLeft - {s.positionLeft})
    else s.(pegsRight := s.pegsRight - {s.positionRight})
  }

  /** `try_jump`. */
  function JumpStep(c: Config, s: State): (j: Jump)
    requires Consistent(c, s)
    ensures Consistent(c, j.next)
    // no peg under the ball: nothing happens and the run proceeds
    ensures ConsolePosition(s) !in Pegs(s) ==> j == Jump(Proceed, s)
    // a peg but no jump from here: nothing happens and the run fails
    ensures ConsolePosition(s) in Pegs(s) && s.ballPosition !in Jumps(c, s) ==> j == Jump(Fell, s)
    // a jump: exactly that peg goes, the ball crosses over, nothing else changes
    ensures ConsolePosition(s) in Pegs(s) && s.ballPosition in Jumps(c, s) ==>
      && j.next.ballWheel == 1 - s.ballWheel
      && j.next.ballPosition == Jumps(c, s)[s.ballPosition]
      && (s.ballWheel == 0 ==> j.next.pegsLeft == s.pegsLeft - {s.positionLeft} && j.next.pegsRight == s.pegsRight)
      && (s.ballWheel == 1 ==> j.next.pegsRight == s.pegsRight - {s.positionRight} && j.next.pegsLeft == s.pegsLeft)
      && PegCount(j.next) == PegCount(s) - 1
      && j.next.rotationLeft == s.rotationLeft && j.next.rotationRight == s.rotationRight
      && j.next.positionLeft == s.positionLeft && j.next.positionRight == s.positionRight
      && (j.outcome == Proceed <==> BallHeld(c, j.next))
      && (j.outcome == AtTarget <==>
            !BallHeld(c, j.next) && j.next.ballWheel == c.targetWheel && j.next.ballPosition == c.targetPosition)
    ensures j.next.pegsLeft <= s.pegsLeft && j.next.pegsRight <= s.pegsRight
  {
    if ConsolePosition(s) in Pegs(s) then
      var jumps := Jumps(c, s);
      if s.ballPosition in jumps then
        assert jumps[s.ballPosition] in jumps.Values;
        var landed := RemovePeg(s).(ballPosition := jumps[s.ballPosition], ballWheel := 1 - s.ballWheel);
        if BallHeld(c, landed) then Jump(Proceed, landed)
        else if landed.ballWheel == c.targetWheel && landed.ballPosition == c.targetPosition then Jump(AtTarget, landed)
        else Jump(Fell, landed)
      else
        Jump(Fell, s)
    else
      Jump(Proceed, s)
  }

  /** `move`: turn the current wheel, shift the ball back one place, advance the current console. */
  function MoveStep(c: Config, s: State): (t: State)
    requires Consistent(c, s)
    ensures Consistent(c, t)
    ensures t.ballWheel == s.ballWheel
    ensures t.ballPosition == if s.ballPosition == 0 then Size(c, s) - 1 else s.ballPosition - 1
    ensures Rotation(t) == Advance(Rotation(s), Size(c, s))
    ensures ConsolePosition(t) == Advance(ConsolePosition(s), Size(c, s))
    ensures t.pegsLeft == s.pegsLeft && t.pegsRight == s.pegsRight
    ensures s.ballWheel == 0 ==> t.rotationRight == s.rotationRight && t.positionRight == s.positionRight
    ensures s.ballWheel == 1 ==> t.rotationLeft == s.rotationLeft && t.positionLeft == s.positionLeft
  {
    var n := Size(c, s);
    var ball := (s.ballPosition + (n - 1)) % n;
    assert ball == if s.ballPosition == 0 then n - 1 else s.ballPosition - 1 by {
      if s.ballPosition == 0 {
        ModUnique(s.ballPosition + (n - 1), n, 0, n - 1);
      } else {
        ModUnique(s.ballPosition + (n - 1), n, 1, s.ballPosition - 1);
      }
    }
    if s.ballWheel == 0 then
      s.(rotationLeft := Advance(s.rotationLeft, n), positionLeft := Advance(s.positionLeft, n), ballPosition := ball)
    else
      s.(rotationRight := Advance(s.rotationRight, n), positionRight := Advance(s.positionRight, n), ballPosition := ball)
  }

  /**
   * The termination measure of `simulate`: the pegs left, then how far the
   * current console still is from its last position.
   */
  function Distance(c: Config, s: State): int
  {
    Size(c, s) - ConsolePosition(s)
  }

  /**
   * Every cycle that reaches `move` makes progress: either the jump took a
   * peg, or no jump fired and `invalid_state` found a peg ahead of the
   * console, so the console moves on by one without wrapping around.
   */
  lemma MoveProgress(c: Config, s: State)
    requires Consistent(c, s)
    requires JumpStep(c, s).outcome == Proceed && !Invalid(c, JumpStep(c, s).next)
    ensures var t := MoveStep(c, JumpStep(c, s).next);
      PegCount(t) < PegCount(s) || (PegCount(t) == PegCount(s) && 0 <= Distance(c, t) < Distance(c, s))
  {
  }

  /** `simulate`: try a jump, stop on a jump's verdict or on `invalid_state`, otherwise move and repeat. */
  function Execute(c: Config, s: State): Run
    requires Consistent(c, s)
    decreases PegCount(s), Distance(c, s)
  {
    var j := JumpStep(c, s);
    match j.outcome
    case AtTarget => Run(Reached, j.next)
    case Fell => Run(Dropped, j.next)
    case Proceed =>
      if Invalid(c, j.next) then Run(Stuck, j.next)
      else
        MoveProgress(c, s);
        Execute(c, MoveStep(c, j.next))
  }

  /** The verdict of `simulate`: the ball reached the target and both consoles are empty. */
  predicate Solves(c: Config, s: State)
    requires Consistent(c, s)
  {
    var r := Execute(c, s);
    r.ending == Reached && |r.final.pegsLeft| == 0 && |r.final.pegsRight| == 0
  }

  /**
   * A run keeps the state invariant, never adds a peg, takes at least one
   * peg when it ends on the target, and ends on the target only through a
   * jump that put the ball on the target position at a non-holding place.
   */
  lemma {:induction false} ExecuteFacts(c: Config, s: State)
    requires Consistent(c, s)
    ensures var r := Execute(c, s);
      && Consistent(c, r.final)
      && r.final.pegsLeft <= s.pegsLeft
      && r.final.pegsRight <= s.pegsRight
      && (r.ending == Reached ==>
            && PegCount(r.final) < PegCount(s)
            && r.final.ballWheel == c.targetWheel
            && r.final.ballPosition == c.targetPosition
            && !BallHeld(c, r.final))
    decreases PegCount(s), Distance(c, s)
  {
    var j := JumpStep(c, s);
    if j.outcome == Proceed && !Invalid(c, j.next) {
      MoveProgress(c, s);
      var t := MoveStep(c, j.next);
      ExecuteFacts(c, t);
      assert PegCount(t) <= PegCount(s);
    }
  }

  /** `simulate` returns true only with the ball on the target, not held, and no peg left anywhere. */
  lemma SolvesMeans(c: Config, s: State)
    requires Consistent(c, s)
    ensures Solves(c, s) <==>
      var r := Execute(c, s);
      && r.ending == Reached
      && r.final.ballWheel == c.targetWheel
      && r.final.ballPosition == c.targetPosition
      && !BallHeld(c, r.final)
      && r.final.pegsLeft == {}
      && r.final.pegsRight == {}
  {
    ExecuteFacts(c, s);
  }

  /** Without any peg there is no jump, so no run can succeed, even one that starts on the target. */
  lemma NoPegsNoSolution(c: Config, s: State)
    requires Consistent(c, s) && s.pegsLeft == {} && s.pegsRight == {}
    ensures !Solves(c, s)
    ensures Execute(c, s) == Run(Stuck, s)
  {
    ExecuteFacts(c, s);
  }

  /**
   * A cycle whose jump attempt leaves the ball beside an empty console (one
   * that was current already, or one the ball was just thrown to) ends the
   * run at that cycle's `invalid_state` check.
   */
  lemma EmptyConsoleStops(c: Config, s: State)
    requires Consistent(c, s) && JumpStep(c, s).outcome == Proceed && Pegs(JumpStep(c, s).next) == {}
    ensures Execute(c, s) == Run(Stuck, JumpStep(c, s).next)
  {
  }

  /**
   * After a move the ball faces the raw index two places back: holding
   * status survives a move only when the holding set is invariant under a
   * shift by two.
   */
  lemma MoveShiftsHolding(c: Config, s: State)
    requires Consistent(c, s)
    ensures var n := Size(c, s);
      BallHeld(c, MoveStep(c, s)) <==> (RawIndex(n, Rotation(s), s.ballPosition) + (n - 2)) % n in Holding(c, s)
  {
    var n := Size(c, s);
    RawIndexAfterMove(n, Rotation(s), s.ballPosition);
  }

  /** With the shipped settings (even holding marks on the left, odd on the right) a move keeps the ball held or not held. */
  lemma DefaultMoveKeepsHolding(s: State)
    requires Consistent(Default, s)
    ensures BallHeld(Default, MoveStep(Default, s)) <==> BallHeld(Default, s)
  {
    MoveShiftsHolding(Default, s);
    var raw := RawIndex(6, Rotation(s), s.ballPosition);
    assert 0 <= raw < 6;
    if raw < 2 {
      ModUnique(raw + 4, 6, 0, raw + 4);
    } else {
      ModUnique(raw + 4, 6, 1, raw - 2);
    }
  }

  /** In general a move can change holding status: one holding mark on a three-position wheel. */
  lemma MoveCanChangeHolding()
    ensures exists c: Config, s: State :: Consistent(c, s) && BallHeld(c, s) && !BallHeld(c, MoveStep(c, s))
  {
    var c := Config(3, 3, 0, 0, 1, 0, {0}, {0}, map[], map[], {}, {});
    var s := Initial(c, {}, {});
    assert BallHeld(c, s);
    assert MoveStep(c, s).ballPosition == 2 && MoveStep(c, s).rotationLeft == 1;
    assert RawIndex(3, 1, 2) == 1;
    assert !BallHeld(c, MoveStep(c, s));
  }
}
