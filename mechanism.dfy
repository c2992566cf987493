/**
 * The objects of one run (wheels-of-wonder.py, lines 48 to 149): two
 * wheels and two consoles whose counters and peg sets are updated in place,
 * and the puzzle that drives them. Each method is proved to act on the
 * puzzle's state exactly as the matching function of `Machine` does.
 */
module Mechanism {
  import opened Rings
  import opened Settings
  import opened Machine
  import Sets

  class Wheel {
    const size: int
    const holding: set<int>
    var rotation: int

    ghost predicate Valid()
      reads this
    {
      size > 0 && 0 <= rotation < size
    }

    constructor (size: int, holding: set<int>)
      requires size > 0
      ensures Valid()
      ensures this.size == size && this.holding == holding && rotation == 0
    {
      this.size := size;
      this.holding := holding;
      rotation := 0;
    }

    /** `rotate`: the rotation counter advances by one, modulo the size. */
    method Rotate()
      requires Valid()
      modifies this
      ensures Valid()
      ensures rotation == Advance(old(rotation), size)
    {
      rotation := rotation + 1;
      rotation := rotation % size;
    }

    /** `is_holding_position`: decided by the offset of the position from the rotation alone. */
    predicate IsHoldingPosition(position: int)
      reads this
      requires size > 0
      ensures IsHoldingPosition(position) <==> (position - rotation) % size in holding
    {
      HoldingByOffset(size, holding, rotation, position);
      IsHolding(size, holding, rotation, position)
    }
  }

  class Console {
    const size: int
    var pegs: set<int>
    var currentPosition: int

    ghost predicate Valid()
      reads this
    {
      size > 0 && 0 <= currentPosition < size && InRange(pegs, size)
    }

    constructor (size: int, pegs: set<int>)
      requires size > 0 && InRange(pegs, size)
      ensures Valid()
      ensures this.size == size && this.pegs == pegs && currentPosition == 0
    {
      this.size := size;
      this.pegs := pegs;
      currentPosition := 0;
    }

    /** `increment_position`: the console position advances by one, modulo the size; the pegs stay. */
    method IncrementPosition()
      requires Valid()
      modifies this`currentPosition
      ensures Valid()
      ensures currentPosition == Advance(old(currentPosition), size)
    {
      currentPosition := currentPosition + 1;
      currentPosition := currentPosition % size;
    }
  }

  class Puzzle {
    const config: Config
    const wheelLeft: Wheel
    const wheelRight: Wheel
    const consoleLeft: Console
    const consoleRight: Console
    var ballWheel: int
    var ballPosition: int

    /** The state of the run, as `Machine` sees it. */
    ghost function Abs(): State
      reads this, wheelLeft, wheelRight, consoleLeft, consoleRight
    {
      State(wheelLeft.rotation, wheelRight.rotation,
            consoleLeft.currentPosition, consoleRight.currentPosition,
            consoleLeft.pegs, consoleRight.pegs,
            ballWheel, ballPosition)
    }

    ghost predicate Valid()
      reads this, wheelLeft, wheelRight, consoleLeft, consoleRight
    {
      && wheelLeft != wheelRight
      && consoleLeft != consoleRight
      && wheelLeft.size == config.sizeLeft && wheelLeft.holding == config.holdingLeft
      && wheelRight.size == config.sizeRight && wheelRight.holding == config.holdingRight
      && consoleLeft.size == config.sizeLeft && consoleRight.size == config.sizeRight
      && Consistent(config, Abs())
    }

    /** The ball starts at the configured wheel and position; the parts are used as given. */
    constructor (config: Config, wheelLeft: Wheel, wheelRight: Wheel, consoleLeft: Console, consoleRight: Console)
      requires WellFormed(config)
      requires wheelLeft != wheelRight && consoleLeft != consoleRight
      requires wheelLeft.Valid() && wheelRight.Valid() && consoleLeft.Valid() && consoleRight.Valid()
      requires wheelLeft.size == config.sizeLeft && wheelLeft.holding == config.holdingLeft
      requires wheelRight.size == config.sizeRight && wheelRight.holding == config.holdingRight
      requires consoleLeft.size == config.sizeLeft && consoleRight.size == config.sizeRight
      ensures Valid()
      ensures this.config == config
      ensures this.wheelLeft == wheelLeft && this.wheelRight == wheelRight
      ensures this.consoleLeft == consoleLeft && this.consoleRight == consoleRight
      ensures ballWheel == config.startWheel && ballPosition == config.startPosition
    {
      this.config := config;
      this.wheelLeft := wheelLeft;
      this.wheelRight := wheelRight;
      this.consoleLeft := consoleLeft;
      this.consoleRight := consoleRight;
      ballWheel := config.startWheel;
      ballPosition := config.startPosition;
    }

    function CurrentWheel(): Wheel
      reads this
    {
      if ballWheel == 0 then wheelLeft else wheelRight
    }

    function CurrentConsole(): Console
      reads this
    {
      if ballWheel == 0 then consoleLeft else consoleRight
    }

    function GetJumps(): map<int, int>
      reads this
    {
      if ballWheel == 0 then config.jumpsLeftToRight else config.jumpsRightToLeft
    }

    /** `try_jump`: only the current console can lose a peg. */
    method TryJump() returns (outcome: Outcome)
      requires Valid()
      modifies this, CurrentConsole()
      ensures Valid()
      ensures Jump(outcome, Abs()) == JumpStep(config, old(Abs()))
    {
      var console := CurrentConsole();
      if console.currentPosition in console.pegs {
        var jumps := GetJumps();
        if ballPosition in jumps {
          assert jumps[ballPosition] in jumps.Values;
          ballPosition := jumps[ballPosition];
          ballWheel := 1 - ballWheel;
          console.pegs := console.pegs - {console.currentPosition};
          var wheel := CurrentWheel();
          if wheel.IsHoldingPosition(ballPosition) {
            return Proceed;
          }
          if ballWheel == config.targetWheel && ballPosition == config.targetPosition {
            return AtTarget;
          }
          return Fell;
        }
        return Fell;
      }
      return Proceed;
    }

    /** `invalid_state`. */
    predicate InvalidState()
      reads this, wheelLeft, wheelRight, consoleLeft, consoleRight
      requires Valid()
      ensures InvalidState() == Invalid(config, Abs())
    {
      var wheel := CurrentWheel();
      if !wheel.IsHoldingPosition(ballPosition) then true
      else
        var console := CurrentConsole();
        |console.pegs| == 0 || Sets.Max(console.pegs) < console.currentPosition
    }

    /** `move`: only the current wheel and the current console turn. */
    method Move()
      requires Valid()
      modifies this, CurrentWheel(), CurrentConsole()
      ensures Valid()
      ensures Abs() == MoveStep(config, old(Abs()))
    {
      var wheel := CurrentWheel();
      wheel.Rotate();
      ballPosition := ballPosition + (wheel.size - 1);
      ballPosition := ballPosition % wheel.size;
      var console := CurrentConsole();
      console.IncrementPosition();
    }

    /**
     * `simulate`: one jump attempt, then `invalid_state`, then `move`, until
     * a verdict. The inner loop in wheels-of-wonder.py always leaves after its first
     * `try_jump`, so each cycle holds at most one jump.
     */
    method Simulate() returns (solved: bool)
      requires Valid()
      modifies this, wheelLeft, wheelRight, consoleLeft, consoleRight
      ensures Valid()
      ensures solved == Solves(config, old(Abs()))
      ensures Abs() == Execute(config, old(Abs())).final
      ensures consoleLeft.pegs <= old(consoleLeft.pegs) && consoleRight.pegs <= old(consoleRight.pegs)
    {
      ExecuteFacts(config, Abs());
      while true
        invariant Valid()
        invariant Execute(config, Abs()) == Execute(config, old(Abs()))
        decreases PegCount(Abs()), Distance(config, Abs())
      {
        ghost var s := Abs();
        var jump := TryJump();
        if jump == AtTarget {
          return |consoleLeft.pegs| == 0 && |consoleRight.pegs| == 0;
        }
        if jump == Fell {
          return false;
        }
        if InvalidState() {
          return false;
        }
        MoveProgress(config, s);
        Move();
      }
    }
  }

  /** `is_solution`: a fresh puzzle over the given pegs, run to its verdict. */
  method IsSolution(c: Config, pegsLeft: set<int>, pegsRight: set<int>) returns (solved: bool)
    requires WellFormed(c) && InRange(pegsLeft, c.sizeLeft) && InRange(pegsRight, c.sizeRight)
    ensures solved == Solves(c, Initial(c, pegsLeft, pegsRight))
  {
    var wheelLeft := new Wheel(c.sizeLeft, c.holdingLeft);
    var wheelRight := new Wheel(c.sizeRight, c.holdingRight);
    var consoleLeft := new Console(c.sizeLeft, pegsLeft);
    var consoleRight := new Console(c.sizeRight, pegsRight);
    var puzzle := new Puzzle(c, wheelLeft, wheelRight, consoleLeft, consoleRight);
    assert puzzle.Abs() == Initial(c, pegsLeft, pegsRight);
    solved := puzzle.Simulate();
  }

  /** Two puzzles built independently over the same pegs reach the same verdict. */
  method IsSolutionTwice(c: Config, pegsLeft: set<int>, pegsRight: set<int>) returns (first: bool, second: bool)
    requires WellFormed(c) && InRange(pegsLeft, c.sizeLeft) && InRange(pegsRight, c.sizeRight)
    ensures first == second
  {
    first := IsSolution(c, pegsLeft, pegsRight);
    second := IsSolution(c, pegsLeft, pegsRight);
  }
}
